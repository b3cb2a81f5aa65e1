/** What the bridge's own table says about the cards consumers hold, over every interleaving of inputs. */
module TrackedCards {
  import opened Presence
  import opened Handoff
  import opened Replay
  import opened Bridge

  ghost predicate IsBridgeRun(states: seq<State>, inputs: seq<Input>, sents: seq<seq<Message>>) {
    && |states| == |inputs| + 1 && |sents| == |inputs|
    && forall i {:trigger inputs[i]} :: 0 <= i < |inputs| ==> Step(states[i], inputs[i], sents[i], states[i + 1])
  }

  function Flat(sents: seq<seq<Message>>): seq<Message> {
    if sents == [] then [] else Flat(sents[..|sents| - 1]) + sents[|sents| - 1]
  }

  lemma FlatNext(sents: seq<seq<Message>>, n: nat)
    requires n < |sents|
    ensures Flat(sents[..n + 1]) == Flat(sents[..n]) + sents[n]
  {
    assert sents[..n + 1][..n] == sents[..n];
  }

  // ---------------------------------------------------------------- the invariant

  ghost predicate HoldsCard(live: map<SocketId, Stamped>, id: AppId, pid: Pid) {
    AppSocket(id) in live && match live[AppSocket(id)].payload
      case Generic(game) => game.id == id && game.pid == pid
      case _ => false
  }

  /** Every tracked publication is a detected card consumers hold, for that application and that pid. */
  ghost predicate Tracked(table: map<AppId, Pid>, live: map<SocketId, Stamped>) {
    forall id :: id in table ==> HoldsCard(live, id, table[id])
  }

  ghost predicate Remembered(scans: map<AppId, Game>) {
    forall a :: a in scans ==> scans[a].id == a
  }

  ghost predicate BridgeInv(b: State) {
    Tracked(b.lastProcess, b.feed.live) && Remembered(b.scans) && FeedInv(b.feed)
  }

  lemma OneMessage(feed: Feed, message: Message, next: Feed)
    requires Delivers(feed, [message], next)
    ensures Broadcasted(feed, message, next)
  {
    var mid := BeforeLast(feed, [message], next);
    assert [message][..0] == [];
    DeliversNothing(feed, mid);
  }

  lemma TrackedPublish(table: map<AppId, Pid>, feed: Feed, game: Game, table': map<AppId, Pid>, feed': Feed)
    requires Tracked(table, feed.live) && Stored(table, game.id, game.pid, table')
    requires Broadcasted(feed, GenericCard(game), feed')
    ensures Tracked(table', feed'.live)
  {
  }

  lemma TrackedWithdraw(table: map<AppId, Pid>, live: map<SocketId, Stamped>, id: AppId)
    requires Tracked(table, live)
    ensures Tracked(table - {id}, live - {AppSocket(id)})
  {
  }

  /** Messages on pid sockets leave detected cards alone. */
  lemma TrackedOwn(table: map<AppId, Pid>, feed: Feed, message: Message, feed': Feed)
    requires Tracked(table, feed.live) && message.socket.PidSocket? && Broadcasted(feed, message, feed')
    ensures Tracked(table, feed'.live)
  {
    forall id | id in table ensures HoldsCard(feed'.live, id, table[id]) {
      assert HoldsCard(feed.live, id, table[id]);
    }
  }

  /** The state before the last of several detected cards. */
  lemma BeforeLastCard(table: map<AppId, Pid>, feed: Feed, games: seq<Game>, table': map<AppId, Pid>, feed': Feed)
    returns (mid: map<AppId, Pid>, midFeed: Feed)
    requires games != [] && TracksTo(table, games, table') && Delivers(feed, GenericCards(games), feed')
    ensures var n := |games| - 1;
            && TracksTo(table, games[..n], mid) && Stored(mid, games[n].id, games[n].pid, table')
            && Delivers(feed, GenericCards(games[..n]), midFeed) && Broadcasted(midFeed, GenericCard(games[n]), feed')
  {
    var n := |games| - 1;
    mid :| TracksTo(table, games[..n], mid) && Stored(mid, games[n].id, games[n].pid, table');
    midFeed := BeforeLast(feed, GenericCards(games), feed');
    assert GenericCards(games)[..n] == GenericCards(games[..n]);
  }

  lemma {:induction false} TrackedResume(table: map<AppId, Pid>, feed: Feed, games: seq<Game>,
                                         table': map<AppId, Pid>, feed': Feed)
    requires Tracked(table, feed.live) && TracksTo(table, games, table') && Delivers(feed, GenericCards(games), feed')
    ensures Tracked(table', feed'.live)
    decreases |games|
  {
    if games == [] {
      assert GenericCards(games) == [];
      DeliversNothing(feed, feed');
    } else {
      var n := |games| - 1;
      var mid, midFeed := BeforeLastCard(table, feed, games, table', feed');
      hide TracksTo, Delivers, Tracked, Broadcasted, Stored;
      TrackedResume(table, feed, games[..n], mid, midFeed);
      TrackedPublish(mid, midFeed, games[n], table', feed');
    }
  }

  lemma DetectedKeepsTracked(b: State, game: Game, sent: seq<Message>, b': State)
    requires Tracked(b.lastProcess, b.feed.live) && DetectedStep(b, game, sent, b')
    ensures Tracked(b'.lastProcess, b'.feed.live)
  {
    if sent == [] {
      DeliversNothing(b.feed, b'.feed);
      assert Submap(b'.lastProcess, b.lastProcess);
    } else {
      OneMessage(b.feed, sent[0], b'.feed);
      if game.id in b.owners {
        TrackedWithdraw(b.lastProcess, b.feed.live, game.id);
      } else {
        TrackedPublish(b.lastProcess, b.feed, game, b'.lastProcess, b'.feed);
      }
    }
  }

  lemma RemovedKeepsTracked(b: State, id: AppId, pid: Pid, sent: seq<Message>, b': State)
    requires Tracked(b.lastProcess, b.feed.live) && RemovedStep(b, id, pid, sent, b')
    ensures Tracked(b'.lastProcess, b'.feed.live)
  {
    if sent == [] {
      DeliversNothing(b.feed, b'.feed);
    } else {
      OneMessage(b.feed, sent[0], b'.feed);
      TrackedWithdraw(b.lastProcess, b.feed.live, id);
    }
  }

  lemma EventKeepsInv(b: State, event: Event, sent: seq<Message>, b': State)
    requires BridgeInv(b) && EventStep(b, event, sent, b')
    ensures Tracked(b'.lastProcess, b'.feed.live) && Remembered(b'.scans)
  {
    match event
    case Detected(game) => DetectedKeepsTracked(b, game, sent, b');
    case Removed(id, pid) => RemovedKeepsTracked(b, id, pid, sent, b');
    case Cleared =>
  }

  lemma RequestKeepsInv(b: State, command: Command, dropped: bool, sent: seq<Message>, b': State)
    requires BridgeInv(b) && SdkStep(b, command, dropped, sent, b')
    ensures Tracked(b'.lastProcess, b'.feed.live) && Remembered(b'.scans)
  {
    if !dropped && command.args.Some? {
      var games, alive, own := SentByCommand(b, command, sent, b');
      var mid := DeliverySplits(b.feed, GenericCards(games), own, b'.feed);
      TrackedResume(b.lastProcess, b.feed, games, b'.lastProcess, mid);
      if own == [] {
        DeliversNothing(mid, b'.feed);
      } else {
        OneMessage(mid, command.Own(), b'.feed);
        TrackedOwn(b'.lastProcess, mid, command.Own(), b'.feed);
      }
    }
  }

  lemma StepDelivers(b: State, input: Input, sent: seq<Message>, b': State)
    requires Step(b, input, sent, b')
    ensures Delivers(b.feed, sent, b'.feed)
  {
    match input
    case Scan(event) =>
      if event.Cleared? {
        var alive :| ClearedStep(b, alive, sent, b');
        var order: seq<AppId>, mid: Feed, reaped :|
          && (forall id :: id in order <==> id in b.lastProcess)
          && Delivers(b.feed, ClearAll(b.lastProcess, order), mid)
          && IsReaping(mid.cache, alive, reaped)
          && Delivers(mid, reaped, b'.feed)
          && sent == ClearAll(b.lastProcess, order) + reaped;
        DeliveryJoins(b.feed, ClearAll(b.lastProcess, order), mid, reaped, b'.feed);
      }
    case Request(command, dropped) =>
      DeliversNothing(b.feed, b.feed);
  }

  lemma StepKeepsInv(b: State, input: Input, sent: seq<Message>, b': State)
    requires BridgeInv(b) && Step(b, input, sent, b')
    ensures BridgeInv(b')
  {
    StepDelivers(b, input, sent, b');
    DeliveryKeepsInv(b.feed, sent, b'.feed);
    match input
    case Scan(event) => EventKeepsInv(b, event, sent, b');
    case Request(command, dropped) => RequestKeepsInv(b, command, dropped, sent, b');
  }

  /** Every run delivers what it sends and keeps the invariant. */
  lemma RunDelivers(states: seq<State>, inputs: seq<Input>, sents: seq<seq<Message>>, n: nat)
    requires IsBridgeRun(states, inputs, sents) && BridgeInv(states[0]) && n <= |inputs|
    ensures BridgeInv(states[n])
    ensures Delivers(states[0].feed, Flat(sents[..n]), states[n].feed)
  {
    DeliversNothing(states[0].feed, states[0].feed);
    assert Flat(sents[..0]) == [];
    hide BridgeInv, Step, Delivers, Flat;
    for i := 0 to n
      invariant BridgeInv(states[i])
      invariant Delivers(states[0].feed, Flat(sents[..i]), states[i].feed)
    {
      assert Step(states[i], inputs[i], sents[i], states[i + 1]);
      StepKeepsInv(states[i], inputs[i], sents[i], states[i + 1]);
      StepDelivers(states[i], inputs[i], sents[i], states[i + 1]);
      DeliveryJoins(states[0].feed, Flat(sents[..i]), states[i].feed, sents[i], states[i + 1].feed);
      FlatNext(sents, i);
    }
  }

  lemma RunInv(states: seq<State>, inputs: seq<Input>, sents: seq<seq<Message>>, n: nat)
    requires IsBridgeRun(states, inputs, sents) && states[0] == Initial && n <= |inputs|
    ensures BridgeInv(states[n])
    ensures Delivers(EmptyFeed, Flat(sents[..n]), states[n].feed)
  {
    assert BridgeInv(states[0]);
    hide BridgeInv, Step, Delivers, Flat;
    RunDelivers(states, inputs, sents, n);
  }

  /** What a delivery from the start leaves live is what its receiver shows. */
  lemma DeliveredView(messages: seq<Message>, feed: Feed)
    requires Delivers(EmptyFeed, messages, feed)
    ensures Payloads(feed.live) == View(messages)
  {
    var feeds :| IsFeedPath(feeds, messages) && feeds[0] == EmptyFeed && feeds[|messages|] == feed;
    CacheRefinesView(feeds, messages, |messages|);
    assert messages[..|messages|] == messages;
  }

  /**
   Tracked cards, over every interleaving of detections, removals, clears and game commands: a consumer
   that received everything holds, for each tracked application, a detected card with the tracked pid, and a
   removal naming another pid changes nothing.
   */
  lemma TrackedCardsHold(states: seq<State>, inputs: seq<Input>, sents: seq<seq<Message>>, n: nat, id: AppId)
    requires IsBridgeRun(states, inputs, sents) && states[0] == Initial && n <= |inputs|
    requires id in states[n].lastProcess
    ensures var view := View(Flat(sents[..n]));
            && AppSocket(id) in view && view[AppSocket(id)].Generic?
            && view[AppSocket(id)].game.Row() == Pair(id, states[n].lastProcess[id])
    ensures n < |inputs| && inputs[n].Scan? && inputs[n].event.Removed? && inputs[n].event.id == id &&
            inputs[n].event.pid != states[n].lastProcess[id] ==>
              sents[n] == [] && states[n + 1].lastProcess == states[n].lastProcess &&
              states[n + 1].feed == states[n].feed
  {
    RunInv(states, inputs, sents, n);
    TrackedIsShown(states[n], Flat(sents[..n]), id);
    hide View, Flat, BridgeInv, Delivers;
    if n < |inputs| && inputs[n].Scan? && inputs[n].event.Removed? && inputs[n].event.id == id &&
       inputs[n].event.pid != states[n].lastProcess[id]
    {
      assert Step(states[n], inputs[n], sents[n], states[n + 1]);
      StaleRemovalIsHarmless(states[n], id, inputs[n].event.pid, sents[n], states[n + 1]);
    }
  }

  lemma TrackedIsShown(b: State, messages: seq<Message>, id: AppId)
    requires BridgeInv(b) && Delivers(EmptyFeed, messages, b.feed) && id in b.lastProcess
    ensures var view := View(messages);
            && AppSocket(id) in view && view[AppSocket(id)].Generic?
            && view[AppSocket(id)].game.Row() == Pair(id, b.lastProcess[id])
  {
    DeliveredView(messages, b.feed);
    hide View, Delivers, FeedInv, Remembered;
    assert HoldsCard(b.feed.live, id, b.lastProcess[id]);
    assert AppSocket(id) in Payloads(b.feed.live);
  }

  /** A removal naming another pid than the tracked one changes neither the table nor any consumer's view. */
  lemma StaleRemovalIsHarmless(b: State, id: AppId, pid: Pid, sent: seq<Message>, b': State)
    requires RemovedStep(b, id, pid, sent, b')
    requires id in b.lastProcess ==> b.lastProcess[id] != pid
    ensures b'.lastProcess == b.lastProcess && b'.owners == b.owners && b'.feed == b.feed && sent == []
  {
    DeliversNothing(b.feed, b'.feed);
  }

  // ---------------------------------------------------------------- no orphaned cards

  ghost predicate NoOrphans(table: map<AppId, Pid>, live: map<SocketId, Stamped>) {
    forall s :: s in live && s.AppSocket? ==> s.app in table
  }

  ghost predicate Within(b: State, ids: set<AppId>) {
    b.lastProcess.Keys <= ids && b.scans.Keys <= ids
  }

  ghost predicate OnlyIds(inputs: seq<Input>, ids: set<AppId>) {
    forall i :: 0 <= i < |inputs| && inputs[i].Scan? && inputs[i].event.Detected? ==> inputs[i].event.game.id in ids
  }

  lemma StoredWithin<V>(table: map<AppId, V>, id: AppId, value: V, table': map<AppId, V>, ids: set<AppId>)
    requires table.Keys <= ids && id in ids && Stored(table, id, value, table')
    ensures table'.Keys <= ids
    ensures |ids| < MAX_HANDOFF_ENTRIES ==> table' == table[id := value]
  {
    SubsetSize(table.Keys, ids);
    assert |table.Keys| == |table|;
  }

  lemma OrphansPublish(table: map<AppId, Pid>, feed: Feed, game: Game, feed': Feed)
    requires NoOrphans(table, feed.live) && Broadcasted(feed, GenericCard(game), feed')
    ensures NoOrphans(table[game.id := game.pid], feed'.live)
  {
  }

  lemma OrphansStored(table: map<AppId, Pid>, feed: Feed, game: Game, table': map<AppId, Pid>, feed': Feed,
                      ids: set<AppId>)
    requires NoOrphans(table, feed.live) && Broadcasted(feed, GenericCard(game), feed')
    requires |ids| < MAX_HANDOFF_ENTRIES && table.Keys <= ids && game.id in ids
    requires Stored(table, game.id, game.pid, table')
    ensures NoOrphans(table', feed'.live) && table'.Keys <= ids
  {
    StoredWithin(table, game.id, game.pid, table', ids);
    OrphansPublish(table, feed, game, feed');
  }

  lemma {:induction false} OrphansResume(table: map<AppId, Pid>, feed: Feed, games: seq<Game>,
                                         table': map<AppId, Pid>, feed': Feed, ids: set<AppId>)
    requires NoOrphans(table, feed.live) && TracksTo(table, games, table') && Delivers(feed, GenericCards(games), feed')
    requires |ids| < MAX_HANDOFF_ENTRIES && table.Keys <= ids
    requires forall i :: 0 <= i < |games| ==> games[i].id in ids
    ensures NoOrphans(table', feed'.live) && table'.Keys <= ids
    decreases |games|
  {
    if games == [] {
      assert GenericCards(games) == [];
      DeliversNothing(feed, feed');
    } else {
      var n := |games| - 1;
      var mid, midFeed := BeforeLastCard(table, feed, games, table', feed');
      hide TracksTo, Delivers, NoOrphans, Broadcasted, Stored;
      OrphansResume(table, feed, games[..n], mid, midFeed, ids);
      OrphansStored(mid, midFeed, games[n], table', feed', ids);
    }
  }

  lemma OrphansDetected(b: State, game: Game, sent: seq<Message>, b': State, ids: set<AppId>)
    requires NoOrphans(b.lastProcess, b.feed.live) && b.lastProcess.Keys <= ids && |ids| < MAX_HANDOFF_ENTRIES
    requires DetectedStep(b, game, sent, b') && game.id in ids
    ensures NoOrphans(b'.lastProcess, b'.feed.live) && b'.lastProcess.Keys <= ids
  {
    if sent == [] {
      DeliversNothing(b.feed, b'.feed);
    } else {
      OneMessage(b.feed, sent[0], b'.feed);
      if game.id !in b.owners {
        StoredWithin(b.lastProcess, game.id, game.pid, b'.lastProcess, ids);
        OrphansPublish(b.lastProcess, b.feed, game, b'.feed);
      }
    }
  }

  lemma OrphansRemoved(b: State, id: AppId, pid: Pid, sent: seq<Message>, b': State)
    requires NoOrphans(b.lastProcess, b.feed.live) && RemovedStep(b, id, pid, sent, b')
    ensures NoOrphans(b'.lastProcess, b'.feed.live)
  {
    if sent == [] {
      DeliversNothing(b.feed, b'.feed);
    } else {
      OneMessage(b.feed, sent[0], b'.feed);
    }
  }

  lemma OrphansEvent(b: State, event: Event, sent: seq<Message>, b': State, ids: set<AppId>)
    requires NoOrphans(b.lastProcess, b.feed.live) && Within(b, ids) && |ids| < MAX_HANDOFF_ENTRIES
    requires EventStep(b, event, sent, b') && (event.Detected? ==> event.game.id in ids)
    ensures NoOrphans(b'.lastProcess, b'.feed.live) && Within(b', ids)
  {
    match event
    case Detected(game) =>
      OrphansDetected(b, game, sent, b', ids);
      StoredWithin(b.scans, game.id, game, b'.scans, ids);
    case Removed(id, pid) => OrphansRemoved(b, id, pid, sent, b');
    case Cleared =>
      var alive :| ClearedStep(b, alive, sent, b');
      OrphansCleared(b, alive, sent, b');
  }

  lemma OrphansCleared(b: State, alive: Pid -> bool, sent: seq<Message>, b': State)
    requires NoOrphans(b.lastProcess, b.feed.live) && ClearedStep(b, alive, sent, b')
    ensures NoOrphans(b'.lastProcess, b'.feed.live)
  {
    var order: seq<AppId>, mid: Feed, reaped :|
      && (forall id :: id in order <==> id in b.lastProcess)
      && Delivers(b.feed, ClearAll(b.lastProcess, order), mid)
      && IsReaping(mid.cache, alive, reaped)
      && Delivers(mid, reaped, b'.feed)
      && sent == ClearAll(b.lastProcess, order) + reaped;
    var clears := ClearAll(b.lastProcess, order);
    ClearsRemove(b.feed, clears, mid);
    ClearsRemove(mid, reaped, b'.feed);
    forall s | s in b.feed.live && s.AppSocket? ensures s in Sockets(clears) {
      var i :| 0 <= i < |order| && order[i] == s.app;
      assert clears[i].socket == s;
      SocketsAre(clears, s);
    }
  }

  lemma OrphansRequest(b: State, command: Command, dropped: bool, sent: seq<Message>, b': State, ids: set<AppId>)
    requires NoOrphans(b.lastProcess, b.feed.live) && Within(b, ids) && |ids| < MAX_HANDOFF_ENTRIES
    requires Remembered(b.scans) && SdkStep(b, command, dropped, sent, b')
    ensures NoOrphans(b'.lastProcess, b'.feed.live) && Within(b', ids)
  {
    if !dropped && command.args.Some? {
      var games, alive, own := SentByCommand(b, command, sent, b');
      var mid := DeliverySplits(b.feed, GenericCards(games), own, b'.feed);
      forall i | 0 <= i < |games| ensures games[i].id in ids { assert games[i] in games; }
      OrphansResume(b.lastProcess, b.feed, games, b'.lastProcess, mid, ids);
      if own == [] {
        DeliversNothing(mid, b'.feed);
      } else {
        OneMessage(mid, command.Own(), b'.feed);
      }
    }
  }

  /** The table knows every detected card on display, and every application known was detected. */
  ghost predicate Exact(b: State, ids: set<AppId>) {
    BridgeInv(b) && NoOrphans(b.lastProcess, b.feed.live) && Within(b, ids)
  }

  lemma StepKeepsExact(b: State, input: Input, sent: seq<Message>, b': State, ids: set<AppId>)
    requires Exact(b, ids) && Step(b, input, sent, b') && |ids| < MAX_HANDOFF_ENTRIES
    requires input.Scan? && input.event.Detected? ==> input.event.game.id in ids
    ensures Exact(b', ids)
  {
    hide NoOrphans, Tracked, FeedInv, Within, EventStep, SdkStep;
    StepKeepsInv(b, input, sent, b');
    match input
    case Scan(event) => OrphansEvent(b, event, sent, b', ids);
    case Request(command, dropped) => OrphansRequest(b, command, dropped, sent, b', ids);
  }

  /** From any exact state, a run over fewer than 64 applications stays exact. */
  lemma RunIsExact(states: seq<State>, inputs: seq<Input>, sents: seq<seq<Message>>, n: nat, ids: set<AppId>)
    requires IsBridgeRun(states, inputs, sents) && Exact(states[0], ids) && n <= |inputs|
    requires OnlyIds(inputs, ids) && |ids| < MAX_HANDOFF_ENTRIES
    ensures Exact(states[n], ids)
  {
    hide Exact, Step;
    for i := 0 to n
      invariant Exact(states[i], ids)
    {
      assert Step(states[i], inputs[i], sents[i], states[i + 1]);
      StepKeepsExact(states[i], inputs[i], sents[i], states[i + 1], ids);
    }
  }

  /** In an exact state that received everything, the table tracks an application iff its card is shown. */
  lemma ExactShows(b: State, ids: set<AppId>, messages: seq<Message>, id: AppId)
    requires Exact(b, ids) && Delivers(EmptyFeed, messages, b.feed)
    ensures id in b.lastProcess <==> AppSocket(id) in View(messages)
  {
    DeliveredView(messages, b.feed);
    hide View, Delivers, FeedInv, Remembered;
    assert AppSocket(id) in Payloads(b.feed.live) <==> AppSocket(id) in b.feed.live;
    assert id in b.lastProcess ==> HoldsCard(b.feed.live, id, b.lastProcess[id]);
  }

  /**
   With fewer than 64 applications ever detected, the table is exact: a consumer shows a detected card
   for an application if and only if the table tracks it.
   */
  lemma CardsAreExact(states: seq<State>, inputs: seq<Input>, sents: seq<seq<Message>>, n: nat, ids: set<AppId>)
    requires IsBridgeRun(states, inputs, sents) && states[0] == Initial && n <= |inputs|
    requires OnlyIds(inputs, ids) && |ids| < MAX_HANDOFF_ENTRIES
    ensures Exact(states[n], ids)
    ensures forall id :: id in states[n].lastProcess <==> AppSocket(id) in View(Flat(sents[..n]))
  {
    RunInv(states, inputs, sents, 0);
    assert Exact(states[0], ids);
    RunIsExact(states, inputs, sents, n, ids);
    RunInv(states, inputs, sents, n);
    hide Exact, View, Flat, IsBridgeRun, BridgeInv, Delivers;
    forall id ensures id in states[n].lastProcess <==> AppSocket(id) in View(Flat(sents[..n])) {
      ExactShows(states[n], ids, Flat(sents[..n]), id);
    }
  }
}
