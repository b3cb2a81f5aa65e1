/** From a poll of the process table to the cards consumers hold: the lane and the bridge together. */
module EndToEnd {
  import opened Presence
  import opened Handoff
  import opened Replay
  import opened Bridge
  import opened TrackedCards
  import opened SnapshotLane

  /** The scanner events among the bridge's inputs, in order. */
  function Consumed(inputs: seq<Input>): seq<Event> {
    if inputs == [] then []
    else
      var last := inputs[|inputs| - 1];
      Consumed(inputs[..|inputs| - 1]) + if last.Scan? then [last.event] else []
  }

  ghost predicate PidsIn(tracked: map<AppId, Pid>, table: set<Pair>) {
    forall id :: id in tracked ==> Pair(id, tracked[id]) in table
  }

  ghost predicate GamesIn(scans: map<AppId, Game>, table: set<Pair>) {
    forall a :: a in scans ==> scans[a].id == a && scans[a].Row() in table
  }

  /** Everything the bridge tracks or remembers is a row of `table`. */
  ghost predicate RowsIn(b: State, table: set<Pair>) {
    PidsIn(b.lastProcess, table) && GamesIn(b.scans, table)
  }

  lemma StoredPid(tracked: map<AppId, Pid>, game: Game, tracked': map<AppId, Pid>, table: set<Pair>)
    requires PidsIn(tracked, table) && Stored(tracked, game.id, game.pid, tracked')
    ensures PidsIn(tracked', table + {game.Row()})
  {
  }

  lemma StoredGame(scans: map<AppId, Game>, game: Game, scans': map<AppId, Game>, table: set<Pair>)
    requires GamesIn(scans, table) && Stored(scans, game.id, game, scans')
    ensures GamesIn(scans', table + {game.Row()})
  {
  }

  lemma DetectedKeepsRows(b: State, game: Game, sent: seq<Message>, b': State, table: set<Pair>)
    requires RowsIn(b, table) && DetectedStep(b, game, sent, b')
    ensures RowsIn(b', table + {game.Row()})
  {
    StoredGame(b.scans, game, b'.scans, table);
    if game.id !in b.owners && game.id !in b.lastProcess {
      StoredPid(b.lastProcess, game, b'.lastProcess, table);
    } else {
      hide Delivers, Stored;
      assert Submap(b'.lastProcess, b.lastProcess);
    }
  }

  lemma RemovedKeepsRows(b: State, id: AppId, pid: Pid, sent: seq<Message>, b': State, table: set<Pair>)
    requires RowsIn(b, table) && RemovedStep(b, id, pid, sent, b')
    ensures RowsIn(b', table - {Pair(id, pid)})
  {
  }

  lemma EventKeepsRows(b: State, event: Event, sent: seq<Message>, b': State, table: set<Pair>)
    requires RowsIn(b, table) && EventStep(b, event, sent, b')
    ensures RowsIn(b', Hold(table, event))
  {
    match event
    case Detected(game) => DetectedKeepsRows(b, game, sent, b', table);
    case Removed(id, pid) => RemovedKeepsRows(b, id, pid, sent, b', table);
    case Cleared =>
  }

  lemma {:induction false} TracksRows(before: map<AppId, Pid>, games: seq<Game>, after: map<AppId, Pid>,
                                      table: set<Pair>)
    requires TracksTo(before, games, after) && forall i :: 0 <= i < |games| ==> games[i].Row() in table
    requires PidsIn(before, table)
    ensures PidsIn(after, table)
    decreases |games|
  {
    if games != [] {
      var n := |games| - 1;
      var mid :| TracksTo(before, games[..n], mid) && Stored(mid, games[n].id, games[n].pid, after);
      TracksRows(before, games[..n], mid, table);
    }
  }

  lemma RequestKeepsRows(b: State, command: Command, dropped: bool, sent: seq<Message>, b': State, table: set<Pair>)
    requires RowsIn(b, table) && SdkStep(b, command, dropped, sent, b')
    ensures RowsIn(b', table)
  {
    if !dropped && command.args.Some? {
      var games, alive, own := SentByCommand(b, command, sent, b');
      ResumedRows(b, command, alive, games, table);
      TracksRows(b.lastProcess, games, b'.lastProcess, table);
    }
  }

  lemma ResumedRows(b: State, command: Command, alive: Pid -> bool, games: seq<Game>, table: set<Pair>)
    requires RowsIn(b, table) && IsResumption(b, command, alive, games)
    ensures forall i :: 0 <= i < |games| ==> games[i].Row() in table
  {
    forall i | 0 <= i < |games| ensures games[i].Row() in table { assert games[i] in games; }
  }

  lemma NothingReleased(b: State, command: Command, dropped: bool, sent: seq<Message>, b': State)
    requires SdkStep(b, command, dropped, sent, b') && b'.owners == b.owners
    ensures b'.lastProcess == b.lastProcess
  {
    if !dropped && command.args.Some? {
      NoSlotReleased(b.owners, command);
      var games, alive, own := SentByCommand(b, command, sent, b');
      hide SdkStep, Released, Delivers;
      assert forall g :: g !in games;
      assert games == [];
    }
  }

  lemma NoSlotReleased(owners: map<AppId, Pid>, command: Command)
    requires OwnersAfter(owners, command, owners)
    ensures Released(owners, command) == {}
  {
    assert Released(owners, command) <= owners.Keys;
  }

  /** In every run whatsoever, tracked cards are rows of the table the consumed events spell out. */
  lemma {:induction false} TrackedRowsAreAnnounced(states: seq<State>, inputs: seq<Input>, sents: seq<seq<Message>>,
                                                   n: nat, table: set<Pair>)
    requires IsBridgeRun(states, inputs, sents) && n <= |inputs| && RowsIn(states[0], table)
    ensures RowsIn(states[n], HoldAll(table, Consumed(inputs[..n])))
  {
    if n > 0 {
      TrackedRowsAreAnnounced(states, inputs, sents, n - 1, table);
      assert Step(states[n - 1], inputs[n - 1], sents[n - 1], states[n]);
      assert inputs[..n][..n - 1] == inputs[..n - 1];
      var before := HoldAll(table, Consumed(inputs[..n - 1]));
      match inputs[n - 1]
      case Scan(event) =>
        EventKeepsRows(states[n - 1], event, sents[n - 1], states[n], before);
        var events := Consumed(inputs[..n]);
        assert events[..|events| - 1] == Consumed(inputs[..n - 1]);
      case Request(command, dropped) =>
        RequestKeepsRows(states[n - 1], command, dropped, sents[n - 1], states[n], before);
        assert Consumed(inputs[..n]) == Consumed(inputs[..n - 1]);
    }
  }

  // ---------------------------------------------------------------- one batch

  function Ids(detected: seq<Game>): set<AppId> {
    set g | g in detected :: g.id
  }

  /** The first `k` detections have taken effect: shown unless a game connection owns the slot. */
  ghost predicate Settled(b: State, detected: seq<Game>, k: nat) {
    forall i :: 0 <= i < k && i < |detected| ==> (detected[i].id in b.lastProcess <==> detected[i].id !in b.owners)
  }

  /** With room for it, a detection shows an unowned game and withdraws an owned one; other slots stay. */
  lemma DetectionMoves(b: State, game: Game, sent: seq<Message>, b': State, ids: set<AppId>)
    requires DetectedStep(b, game, sent, b') && game.id in ids
    requires b.lastProcess.Keys <= ids && |ids| <= MAX_HANDOFF_ENTRIES
    ensures b'.owners == b.owners
    ensures b'.lastProcess.Keys ==
            if game.id in b.owners then b.lastProcess.Keys - {game.id} else b.lastProcess.Keys + {game.id}
  {
    if game.id !in b.owners {
      StoredKeys(b.lastProcess, game.id, game.pid, b'.lastProcess, ids);
    }
  }

  lemma StoredKeys(table: map<AppId, Pid>, id: AppId, pid: Pid, table': map<AppId, Pid>, ids: set<AppId>)
    requires table.Keys <= ids && |ids| <= MAX_HANDOFF_ENTRIES && id in ids
    requires id in table ==> table'.Keys == table.Keys
    requires id !in table ==> Stored(table, id, pid, table')
    ensures table'.Keys == table.Keys + {id}
  {
    if id !in table {
      SubsetSize(table.Keys, ids - {id});
      assert |table.Keys| == |table|;
    }
  }

  lemma SettledDetection(b: State, detected: seq<Game>, k: nat, sent: seq<Message>, b': State)
    requires k < |detected| && Settled(b, detected, k) && DetectedStep(b, detected[k], sent, b')
    requires b.lastProcess.Keys <= Ids(detected) && |Ids(detected)| <= MAX_HANDOFF_ENTRIES
    ensures Settled(b', detected, k + 1)
  {
    IdOf(detected, k);
    DetectionMoves(b, detected[k], sent, b', Ids(detected));
    SettledKeys(b, detected, k, b');
  }

  lemma IdOf(detected: seq<Game>, k: nat)
    requires k < |detected|
    ensures detected[k].id in Ids(detected)
  {
    assert detected[k] in detected;
  }

  lemma SettledKeys(b: State, detected: seq<Game>, k: nat, b': State)
    requires k < |detected| && Settled(b, detected, k) && b'.owners == b.owners
    requires var id := detected[k].id;
             b'.lastProcess.Keys == if id in b.owners then b.lastProcess.Keys - {id} else b.lastProcess.Keys + {id}
    ensures Settled(b', detected, k + 1)
  {
  }

  /** Once the removals are through, everything tracked belongs to the new snapshot. */
  lemma RemovalsFirst(emitted: seq<Pair>, removed: seq<Pair>, detected: seq<Game>, k: nat)
    requires k <= |detected| && removed == RemovedSlots(emitted, Snapshot(detected))
    ensures HoldAll(ToSet(emitted), Removals(removed) + Detections(detected)[..k]) <= RowSet(detected)
  {
    PollPrefix(ToSet(emitted), removed, detected, k);
    RemovedRows(emitted, detected);
    RowSetPrefix(detected, k);
    OnlyNewRows(ToSet(emitted), ToSet(removed), RowSet(detected), RowSet(detected[..k]));
  }

  lemma OnlyNewRows(emitted: set<Pair>, removed: set<Pair>, rows: set<Pair>, prefix: set<Pair>)
    requires removed == emitted - rows && prefix <= rows
    ensures emitted - removed + prefix <= rows
  {
  }

  lemma RowSetPrefix(detected: seq<Game>, k: nat)
    requires k <= |detected|
    ensures RowSet(detected[..k]) <= RowSet(detected)
  {
    assert Rows(detected[..k]) == Rows(detected)[..k];
  }

  lemma RowKeys(b: State, detected: seq<Game>, table: set<Pair>)
    requires RowsIn(b, table) && table <= RowSet(detected)
    ensures b.lastProcess.Keys <= Ids(detected)
  {
    forall id | id in b.lastProcess ensures id in Ids(detected) {
      assert Pair(id, b.lastProcess[id]) in RowSet(detected);
      var i :| 0 <= i < |detected| && Rows(detected)[i] == Pair(id, b.lastProcess[id]);
      assert detected[i] in detected;
    }
  }

  ghost predicate OwnersFixed(states: seq<State>) {
    forall i, j :: 0 <= i < |states| && 0 <= j < |states| ==> states[i].owners == states[j].owners
  }

  /** How many detections of the batch have been consumed. */
  function Done(removed: seq<Pair>, consumed: seq<Event>): nat {
    if |consumed| <= |removed| then 0 else |consumed| - |removed|
  }

  lemma ConsumedGrows(inputs: seq<Input>, n: nat)
    requires n < |inputs|
    ensures Consumed(inputs[..n + 1]) == Consumed(inputs[..n]) + if inputs[n].Scan? then [inputs[n].event] else []
  {
    assert inputs[..n + 1][..n] == inputs[..n];
  }

  lemma {:induction false} ConsumedPrefix(inputs: seq<Input>, n: nat)
    requires n <= |inputs|
    ensures Consumed(inputs[..n]) <= Consumed(inputs)
    decreases |inputs| - n
  {
    if n == |inputs| {
      assert inputs[..n] == inputs;
    } else {
      ConsumedGrows(inputs, n);
      ConsumedPrefix(inputs, n + 1);
    }
  }

  lemma SettledStep(b: State, input: Input, sent: seq<Message>, b': State, emitted: seq<Pair>, detected: seq<Game>,
                    done: seq<Event>, events: seq<Event>)
    requires Step(b, input, sent, b') && b'.owners == b.owners && |Ids(detected)| <= MAX_HANDOFF_ENTRIES
    requires events == TickEvents(RemovedSlots(emitted, Snapshot(detected)), detected)
    requires done + (if input.Scan? then [input.event] else []) <= events
    requires RowsIn(b, HoldAll(ToSet(emitted), done))
    requires Settled(b, detected, Done(RemovedSlots(emitted, Snapshot(detected)), done))
    ensures Settled(b', detected, Done(RemovedSlots(emitted, Snapshot(detected)),
                                       done + if input.Scan? then [input.event] else []))
  {
    match input
    case Request(command, dropped) =>
      NothingReleased(b, command, dropped, sent, b');
      assert done + [] == done;
    case Scan(event) =>
      NextEvent(done, event, events);
      TrackedInBatch(b, emitted, detected, done);
      SettledEvent(b, event, sent, b', RemovedSlots(emitted, Snapshot(detected)), detected, |done|);
  }

  lemma NextEvent(done: seq<Event>, event: Event, events: seq<Event>)
    requires done + [event] <= events
    ensures |done| < |events| && events[|done|] == event && events[..|done|] == done
  {
    assert (done + [event])[|done|] == event;
  }

  lemma TrackedInBatch(b: State, emitted: seq<Pair>, detected: seq<Game>, done: seq<Event>)
    requires done <= TickEvents(RemovedSlots(emitted, Snapshot(detected)), detected)
    requires RowsIn(b, HoldAll(ToSet(emitted), done))
    ensures |RemovedSlots(emitted, Snapshot(detected))| <= |done| && detected != [] ==>
              b.lastProcess.Keys <= Ids(detected)
  {
    var removed := RemovedSlots(emitted, Snapshot(detected));
    if |removed| <= |done| && detected != [] {
      var k := |done| - |removed|;
      assert done == TickEvents(removed, detected)[..|removed| + k];
      PollSlice(removed, detected, k);
      RemovalsFirst(emitted, removed, detected, k);
      RowKeys(b, detected, HoldAll(ToSet(emitted), done));
    }
  }

  lemma SettledEvent(b: State, event: Event, sent: seq<Message>, b': State, removed: seq<Pair>,
                     detected: seq<Game>, k: nat)
    requires EventStep(b, event, sent, b') && |Ids(detected)| <= MAX_HANDOFF_ENTRIES
    requires k < |TickEvents(removed, detected)| && TickEvents(removed, detected)[k] == event
    requires |removed| <= k && detected != [] ==> b.lastProcess.Keys <= Ids(detected)
    requires Settled(b, detected, if k <= |removed| then 0 else k - |removed|)
    ensures Settled(b', detected, if k < |removed| then 0 else k + 1 - |removed|)
  {
    hide TickEvents, Ids, Settled, DetectedStep, RemovedStep, ClearedStep, Delivers;
    if |removed| <= k && detected != [] {
      var i := k - |removed|;
      EventAt(removed, detected, i);
      SettledDetection(b, detected, i, sent, b');
    } else {
      NothingToSettle(b', detected, if k < |removed| then 0 else k + 1 - |removed|);
    }
  }

  lemma NothingToSettle(b: State, detected: seq<Game>, k: nat)
    requires k == 0 || detected == []
    ensures Settled(b, detected, k)
  {
  }

  lemma EventAt(removed: seq<Pair>, detected: seq<Game>, i: nat)
    requires detected != [] && |removed| + i < |TickEvents(removed, detected)|
    ensures i < |detected| && TickEvents(removed, detected)[|removed| + i] == Detected(detected[i])
  {
  }

  lemma {:induction false} BatchSettles(states: seq<State>, inputs: seq<Input>, sents: seq<seq<Message>>,
                                        emitted: seq<Pair>, detected: seq<Game>, n: nat)
    requires IsBridgeRun(states, inputs, sents) && n <= |inputs| && OwnersFixed(states)
    requires Consumed(inputs) == TickEvents(RemovedSlots(emitted, Snapshot(detected)), detected)
    requires RowsIn(states[0], ToSet(emitted)) && |Ids(detected)| <= MAX_HANDOFF_ENTRIES
    ensures Settled(states[n], detected, Done(RemovedSlots(emitted, Snapshot(detected)), Consumed(inputs[..n])))
  {
    if n > 0 {
      BatchSettles(states, inputs, sents, emitted, detected, n - 1);
      TrackedRowsAreAnnounced(states, inputs, sents, n - 1, ToSet(emitted));
      ConsumedGrows(inputs, n - 1);
      ConsumedPrefix(inputs, n);
      assert Step(states[n - 1], inputs[n - 1], sents[n - 1], states[n]);
      hide Settled, RowsIn, TickEvents, RemovedSlots, Snapshot, Step, Done, HoldAll, Consumed, Ids;
      SettledStep(states[n - 1], inputs[n - 1], sents[n - 1], states[n], emitted, detected,
                  Consumed(inputs[..n - 1]), Consumed(inputs));
    }
  }

  /** What a drained batch leaves: the unowned ids of its snapshot, each with a pid the snapshot pairs with it. */
  ghost predicate Reflects(b: State, detected: seq<Game>) {
    && b.lastProcess.Keys == Ids(detected) - b.owners.Keys
    && PidsIn(b.lastProcess, RowSet(detected))
  }

  lemma BatchOutcome(states: seq<State>, inputs: seq<Input>, sents: seq<seq<Message>>, emitted: seq<Pair>,
                     detected: seq<Game>)
    requires IsBridgeRun(states, inputs, sents) && OwnersFixed(states)
    requires Consumed(inputs) == TickEvents(RemovedSlots(emitted, Snapshot(detected)), detected)
    requires RowsIn(states[0], ToSet(emitted)) && |Ids(detected)| <= MAX_HANDOFF_ENTRIES
    ensures Reflects(states[|inputs|], detected)
  {
    var n, b := |inputs|, states[|inputs|];
    assert inputs[..n] == inputs;
    BatchSettles(states, inputs, sents, emitted, detected, n);
    TrackedRowsAreAnnounced(states, inputs, sents, n, ToSet(emitted));
    TickEffect(ToSet(emitted), emitted, detected);
    assert ToSet(emitted) - ToSet(emitted) == {};
    RowKeys(b, detected, HoldAll(ToSet(emitted), Consumed(inputs)));
    forall id | id in Ids(detected) && id !in b.owners ensures id in b.lastProcess {
      var g :| g in detected && g.id == id;
      var i :| 0 <= i < |detected| && detected[i] == g;
    }
    forall id | id in Ids(detected) && id in b.owners ensures id !in b.lastProcess {
      var g :| g in detected && g.id == id;
      var i :| 0 <= i < |detected| && detected[i] == g;
    }
  }

  // ---------------------------------------------------------------- whole runs

  /**
   One poll and the bridge's work until its batch is drained: `inputs` interleaves the batch with any
   game commands.
   */
  datatype Round = Round(detected: seq<Game>, states: seq<State>, inputs: seq<Input>, sents: seq<seq<Message>>)

  /** The table recorded before round `k`: polls without sheds always record what they saw. */
  function Recorded(rounds: seq<Round>, k: nat): seq<Pair>
    requires k <= |rounds|
  {
    if k == 0 then [] else Snapshot(rounds[k - 1].detected)
  }

  ghost predicate IsRound(rounds: seq<Round>, k: nat)
    requires k < |rounds|
  {
    var r := rounds[k];
    && IsBridgeRun(r.states, r.inputs, r.sents)
    && Consumed(r.inputs) == PollEvents(Recorded(rounds, k), r.detected)
    && r.states[0] == Before(rounds, k)
  }

  /** An unchanged table is not sent. */
  function PollEvents(emitted: seq<Pair>, detected: seq<Game>): seq<Event> {
    if Snapshot(detected) == emitted then []
    else TickEvents(RemovedSlots(emitted, Snapshot(detected)), detected)
  }

  function Last(r: Round): State {
    if r.states == [] then Initial else r.states[|r.states| - 1]
  }

  function Before(rounds: seq<Round>, k: nat): State
    requires k <= |rounds|
  {
    if k == 0 then Initial else Last(rounds[k - 1])
  }

  ghost predicate IsPollRun(rounds: seq<Round>) {
    forall k {:trigger IsRound(rounds, k)} :: 0 <= k < |rounds| ==> IsRound(rounds, k)
  }

  lemma RoundKeepsRows(r: Round, emitted: seq<Pair>)
    requires IsBridgeRun(r.states, r.inputs, r.sents)
    requires Consumed(r.inputs) == PollEvents(emitted, r.detected)
    requires RowsIn(r.states[0], ToSet(emitted)) && BridgeInv(r.states[0])
    ensures RowsIn(Last(r), ToSet(Snapshot(r.detected))) && BridgeInv(Last(r))
  {
    TrackedRowsAreAnnounced(r.states, r.inputs, r.sents, |r.inputs|, ToSet(emitted));
    assert r.inputs[..|r.inputs|] == r.inputs;
    TickEffect(ToSet(emitted), emitted, r.detected);
    assert ToSet(emitted) - ToSet(emitted) == {};
    SnapshotRows(r.detected);
    RunDelivers(r.states, r.inputs, r.sents, |r.inputs|);
  }

  /** Going into round `k`, everything tracked or remembered is a recorded row, and its card is on display. */
  ghost predicate RowsBefore(rounds: seq<Round>, k: nat)
    requires k <= |rounds|
  {
    RowsIn(Before(rounds, k), ToSet(Recorded(rounds, k))) && BridgeInv(Before(rounds, k))
  }

  lemma NextRoundKeepsRows(rounds: seq<Round>, k: nat)
    requires 0 < k <= |rounds| && IsPollRun(rounds) && RowsBefore(rounds, k - 1)
    ensures RowsBefore(rounds, k)
  {
    assert IsRound(rounds, k - 1);
    RoundKeepsRows(rounds[k - 1], Recorded(rounds, k - 1));
  }

  lemma RoundsKeepRows(rounds: seq<Round>, k: nat)
    requires IsPollRun(rounds) && k <= |rounds|
    ensures RowsBefore(rounds, k)
  {
    InitialRows(rounds);
    for i := 0 to k
      invariant RowsBefore(rounds, i)
    {
      NextRoundKeepsRows(rounds, i + 1);
    }
  }

  lemma InitialRows(rounds: seq<Round>)
    ensures RowsBefore(rounds, 0)
  {
  }

  /** Everything sent in the first `k` rounds. */
  function AllSent(rounds: seq<Round>, k: nat): seq<Message>
    requires k <= |rounds|
  {
    if k == 0 then [] else AllSent(rounds, k - 1) + Flat(rounds[k - 1].sents)
  }

  ghost predicate Delivered(rounds: seq<Round>, k: nat)
    requires k <= |rounds|
  {
    Delivers(EmptyFeed, AllSent(rounds, k), Before(rounds, k).feed)
  }

  lemma NextRoundDelivers(rounds: seq<Round>, k: nat)
    requires k < |rounds| && IsPollRun(rounds) && RowsBefore(rounds, k) && Delivered(rounds, k)
    ensures Delivered(rounds, k + 1)
  {
    hide RowsIn, BridgeInv, Delivers, Step, AllSent, Flat;
    assert IsRound(rounds, k);
    var r := rounds[k];
    RunDelivers(r.states, r.inputs, r.sents, |r.inputs|);
    assert r.sents[..|r.inputs|] == r.sents;
    DeliveryJoins(EmptyFeed, AllSent(rounds, k), r.states[0].feed, Flat(r.sents), Last(r).feed);
    SentNext(rounds, k);
  }

  lemma SentNext(rounds: seq<Round>, k: nat)
    requires k < |rounds|
    ensures AllSent(rounds, k + 1) == AllSent(rounds, k) + Flat(rounds[k].sents)
  {
  }

  lemma RoundsDeliver(rounds: seq<Round>, k: nat)
    requires IsPollRun(rounds) && k <= |rounds|
    ensures Delivered(rounds, k)
  {
    DeliversNothing(EmptyFeed, EmptyFeed);
    assert Delivered(rounds, 0);
    hide Delivered, IsRound, RowsBefore;
    for i := 0 to k
      invariant Delivered(rounds, i)
    {
      RoundsKeepRows(rounds, i);
      NextRoundDelivers(rounds, i);
    }
  }

  /**
   End to end: in every run of completely delivered polls without EXEC hits, when a changed snapshot of
   at most 64 applications has been drained and ownership stood still meanwhile, the tracked cards are
   exactly the snapshot's applications without a game-connection owner, each under a pid the snapshot
   pairs with it, and a consumer that received everything shows that card. A restarted game thus shows
   its new pid.
   */
  lemma DrainedBatchShowsSnapshot(rounds: seq<Round>, k: nat)
    requires IsPollRun(rounds) && k < |rounds|
    requires Snapshot(rounds[k].detected) != Recorded(rounds, k)
    requires |Ids(rounds[k].detected)| <= MAX_HANDOFF_ENTRIES && OwnersFixed(rounds[k].states)
    ensures Reflects(Last(rounds[k]), rounds[k].detected)
    ensures Tracked(Last(rounds[k]).lastProcess, Last(rounds[k]).feed.live)
    ensures forall id :: id in Last(rounds[k]).lastProcess ==>
              Shows(View(AllSent(rounds, k + 1)), id, Last(rounds[k]).lastProcess[id])
  {
    RoundsKeepRows(rounds, k);
    assert IsRound(rounds, k);
    var r := rounds[k];
    RoundKeepsRows(r, Recorded(rounds, k));
    BatchOutcome(r.states, r.inputs, r.sents, Recorded(rounds, k), r.detected);
    RoundsDeliver(rounds, k + 1);
    hide View, AllSent, Delivers, RowsIn, Reflects, IsRound;
    forall id | id in Last(r).lastProcess ensures Shows(View(AllSent(rounds, k + 1)), id, Last(r).lastProcess[id]) {
      TrackedIsShown(Last(r), AllSent(rounds, k + 1), id);
    }
  }

  /** The view holds a detected card of this application under this pid. */
  ghost predicate Shows(view: map<SocketId, Payload>, id: AppId, pid: Pid) {
    AppSocket(id) in view && view[AppSocket(id)].Generic? && view[AppSocket(id)].game.Row() == Pair(id, pid)
  }

  // ---------------------------------------------------------------- fewer than 64 applications ever detected

  ghost predicate DetectsOnly(rounds: seq<Round>, ids: set<AppId>) {
    forall k :: 0 <= k < |rounds| ==> Ids(rounds[k].detected) <= ids
  }

  lemma {:induction false} ConsumedHas(inputs: seq<Input>, i: nat)
    requires i < |inputs| && inputs[i].Scan?
    ensures inputs[i].event in Consumed(inputs)
  {
    var n := |inputs| - 1;
    if i < n { ConsumedHas(inputs[..n], i); }
  }

  lemma RoundDetectsOnly(r: Round, emitted: seq<Pair>, ids: set<AppId>)
    requires Consumed(r.inputs) == PollEvents(emitted, r.detected) && Ids(r.detected) <= ids
    ensures OnlyIds(r.inputs, ids)
  {
    forall i | 0 <= i < |r.inputs| && r.inputs[i].Scan? && r.inputs[i].event.Detected?
      ensures r.inputs[i].event.game.id in ids
    {
      hide Consumed, Snapshot;
      ConsumedHas(r.inputs, i);
      DetectionOf(RemovedSlots(emitted, Snapshot(r.detected)), r.detected, r.inputs[i].event.game);
    }
  }

  lemma DetectionOf(removed: seq<Pair>, detected: seq<Game>, game: Game)
    requires Detected(game) in TickEvents(removed, detected)
    ensures game.id in Ids(detected)
  {
    var k :| 0 <= k < |TickEvents(removed, detected)| && TickEvents(removed, detected)[k] == Detected(game);
    assert game in detected;
  }

  lemma NextRoundIsExact(rounds: seq<Round>, k: nat, ids: set<AppId>)
    requires IsPollRun(rounds) && k < |rounds| && DetectsOnly(rounds, ids) && |ids| < MAX_HANDOFF_ENTRIES
    requires Exact(Before(rounds, k), ids)
    ensures Exact(Before(rounds, k + 1), ids)
  {
    hide Exact, Step, PollEvents, OnlyIds, Ids;
    assert IsRound(rounds, k);
    var r := rounds[k];
    RoundDetectsOnly(r, Recorded(rounds, k), ids);
    RunIsExact(r.states, r.inputs, r.sents, |r.inputs|, ids);
  }

  lemma StartsExact(ids: set<AppId>)
    ensures Exact(Initial, ids)
  {
  }

  lemma RoundsAreExact(rounds: seq<Round>, k: nat, ids: set<AppId>)
    requires IsPollRun(rounds) && k <= |rounds| && DetectsOnly(rounds, ids) && |ids| < MAX_HANDOFF_ENTRIES
    ensures Exact(Before(rounds, k), ids)
  {
    StartsExact(ids);
    hide Exact, IsRound, DetectsOnly, Last;
    for i := 0 to k
      invariant Exact(Before(rounds, i), ids)
    {
      NextRoundIsExact(rounds, i, ids);
    }
  }

  /**
   With fewer than 64 applications ever detected, what consumers show after such a batch is exact: a detected
   card for an application if and only if the snapshot lists it and no game connection owns it.
   */
  lemma ConsumersShowSnapshot(rounds: seq<Round>, k: nat, ids: set<AppId>, id: AppId)
    requires IsPollRun(rounds) && k < |rounds| && DetectsOnly(rounds, ids) && |ids| < MAX_HANDOFF_ENTRIES
    requires Snapshot(rounds[k].detected) != Recorded(rounds, k) && OwnersFixed(rounds[k].states)
    ensures AppSocket(id) in View(AllSent(rounds, k + 1)) <==>
            id in Ids(rounds[k].detected) && id !in Last(rounds[k]).owners
  {
    SubsetSize(Ids(rounds[k].detected), ids);
    DrainedBatchShowsSnapshot(rounds, k);
    RoundsAreExact(rounds, k + 1, ids);
    RoundsDeliver(rounds, k + 1);
    hide Exact, View, AllSent, Delivers, IsRound, Shows, Ids;
    ExactShows(Last(rounds[k]), ids, AllSent(rounds, k + 1), id);
  }
}
