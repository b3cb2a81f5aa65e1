/** What sheds and EXEC publications leave behind on the lane, and exactly when a later poll repairs it. */
module LaneRepair {
  import opened Presence
  import opened Ordering
  import opened SnapshotLane

  // ---------------------------------------------------------------- one poll, step by step

  function EventsOf(lane: Lane, detected: seq<Game>): (events: seq<Event>)
    ensures events != []
  {
    var removed := RemovedSlots(lane.emitted, Snapshot(detected));
    assert detected != [] ==> |Detections(detected)| > 0;
    TickEvents(removed, detected)
  }

  /** The first `t` events of a poll have been taken. */
  function Partway(lane: Lane, detected: seq<Game>, t: nat): Lane
    requires t <= |EventsOf(lane, detected)|
  {
    var events := EventsOf(lane, detected);
    lane.(dirty := false, shown := HoldAll(lane.shown, events[..t]),
          flight := Some(Flight(detected, events, t, lane.shown, {})))
  }

  /** A poll whose events are all taken, or which is not sent. */
  function FullPoll(lane: Lane, detected: seq<Game>): Lane {
    if !Emits(lane, detected) then lane.(dirty := false)
    else lane.(dirty := false, emitted := Snapshot(detected), shown := HoldAll(lane.shown, EventsOf(lane, detected)))
  }

  /** Where a poll stands after `t` of its events have been taken. */
  function AfterTakes(lane: Lane, detected: seq<Game>, t: nat): Lane
    requires t <= |EventsOf(lane, detected)|
  {
    if !Emits(lane, detected) || t == |EventsOf(lane, detected)| then FullPoll(lane, detected)
    else Partway(lane, detected, t)
  }

  /** The two differ at most in how much is queued. */
  predicate SameButQueue(lane: Lane, other: Lane) {
    lane == other.(queued := lane.queued)
  }

  lemma TakeNext(lane: Lane, detected: seq<Game>, t: nat, now: Lane)
    requires lane.flight.None? && t <= |EventsOf(lane, detected)| && SameButQueue(now, AfterTakes(lane, detected, t))
    requires Enabled(now, Take)
    ensures Emits(lane, detected) && t < |EventsOf(lane, detected)|
    ensures SameButQueue(Next(now, Take), AfterTakes(lane, detected, t + 1))
  {
    var events := EventsOf(lane, detected);
    hide EventsOf, Emits, Snapshot, Hold, HoldAll;
    assert Emits(lane, detected) && t < |events|;
    HoldNext(lane.shown, events, t);
    if t + 1 == |events| { assert events[..t + 1] == events; }
  }

  /** A run that polled `detected` at `lane` and has taken `t` events stands at `now`. */
  ghost predicate Advanced(lane: Lane, detected: seq<Game>, t: nat, now: Lane) {
    && lane.flight.None? && t <= |EventsOf(lane, detected)| && (t > 0 ==> Emits(lane, detected))
    && SameButQueue(now, AfterTakes(lane, detected, t))
  }

  lemma AdvanceNext(lane: Lane, detected: seq<Game>, t: nat, now: Lane, step: LaneStep)
    requires Advanced(lane, detected, t, now) && Enabled(now, step) && (step == Take || step == Receive)
    ensures Advanced(lane, detected, if step == Take then t + 1 else t, Next(now, step))
  {
    hide AfterTakes, EventsOf, Emits;
    if step == Take { TakeNext(lane, detected, t, now); }
  }

  function TakeCount(steps: seq<LaneStep>): nat {
    if steps == [] then 0 else TakeCount(steps[..|steps| - 1]) + if steps[|steps| - 1].Take? then 1 else 0
  }

  /** A poll at step `i`, then up to step `j` only takes, and receipts between them. */
  ghost predicate PollsAndTakes(steps: seq<LaneStep>, i: nat, j: nat, detected: seq<Game>) {
    && i < j <= |steps| && steps[i] == Poll(detected)
    && forall k {:trigger steps[k]} :: i < k < j ==> steps[k] == Take || steps[k] == Receive
  }

  lemma PollStep(lane: Lane, detected: seq<Game>)
    requires Enabled(lane, Poll(detected))
    ensures Advanced(lane, detected, 0, Next(lane, Poll(detected)))
  {
    assert EventsOf(lane, detected)[..0] == [];
  }

  /** Where a run stands after a poll and some takes; never more takes than events, and none if it is not sent. */
  lemma {:induction false} TakesAdvance(lanes: seq<Lane>, steps: seq<LaneStep>, i: nat, j: nat, detected: seq<Game>)
    requires IsRun(lanes, steps) && PollsAndTakes(steps, i, j, detected)
    ensures Advanced(lanes[i], detected, TakeCount(steps[i + 1..j]), lanes[j])
    decreases j
  {
    hide Advanced, Next;
    assert lanes[j] == Next(lanes[j - 1], steps[j - 1]);
    if j == i + 1 {
      PollStep(lanes[i], detected);
    } else {
      TakesAdvance(lanes, steps, i, j - 1, detected);
      CountNext(steps, i + 1, j - 1);
      hide TakeCount;
      AdvanceNext(lanes[i], detected, TakeCount(steps[i + 1..j - 1]), lanes[j - 1], steps[j - 1]);
    }
  }

  lemma CountNext(steps: seq<LaneStep>, i: nat, j: nat)
    requires i <= j < |steps|
    ensures TakeCount(steps[i..j + 1]) == TakeCount(steps[i..j]) + if steps[j].Take? then 1 else 0
  {
    assert steps[i..j + 1][..j - i] == steps[i..j];
  }

  /** From step `i` to state `j`: one poll and the takes that complete it, with nothing but receipts in between. */
  ghost predicate IsWholePoll(lanes: seq<Lane>, steps: seq<LaneStep>, i: nat, j: nat, detected: seq<Game>) {
    |lanes| == |steps| + 1 && PollsAndTakes(steps, i, j, detected) && lanes[j].flight.None?
  }

  /** In any run, a poll followed by its takes ends in the poll's whole effect on the state before it. */
  lemma WholePollIsFullPoll(lanes: seq<Lane>, steps: seq<LaneStep>, i: nat, j: nat, detected: seq<Game>)
    requires IsRun(lanes, steps) && IsWholePoll(lanes, steps, i, j, detected)
    ensures SameButQueue(lanes[j], FullPoll(lanes[i], detected))
  {
    hide Next, HoldAll, EventsOf, Snapshot, Emits;
    TakesAdvance(lanes, steps, i, j, detected);
  }

  // ---------------------------------------------------------------- leftovers

  /** Pairs the receiver shows that the recorded table does not know about. */
  function Residue(lane: Lane): set<Pair> {
    lane.shown - ToSet(lane.emitted)
  }

  /** What a poll that is sent leaves on display: its snapshot and the leftovers, or nothing if it is empty. */
  lemma SentPollShows(lane: Lane, detected: seq<Game>)
    requires Emits(lane, detected)
    ensures FullPoll(lane, detected).shown == if detected == [] then {} else RowSet(detected) + Residue(lane)
  {
    TickEffect(lane.shown, lane.emitted, detected);
  }

  /** A poll keeps, of the leftovers, exactly those it does not list; an empty one that is sent keeps none. */
  lemma WholePollLeaves(lanes: seq<Lane>, steps: seq<LaneStep>, i: nat, j: nat, detected: seq<Game>)
    requires IsRun(lanes, steps) && IsWholePoll(lanes, steps, i, j, detected)
    ensures Residue(lanes[j]) ==
            if !Emits(lanes[i], detected) then Residue(lanes[i])
            else if detected == [] then {} else Residue(lanes[i]) - RowSet(detected)
  {
    WholePollIsFullPoll(lanes, steps, i, j, detected);
    if Emits(lanes[i], detected) {
      SentPollShows(lanes[i], detected);
      SnapshotRows(detected);
    }
  }

  /** A leftover that a poll does not list goes if and only if the poll is empty and sent. */
  lemma LeftoverGoesIff(lanes: seq<Lane>, steps: seq<LaneStep>, i: nat, j: nat, detected: seq<Game>, left: Pair)
    requires IsRun(lanes, steps) && IsWholePoll(lanes, steps, i, j, detected)
    requires left in Residue(lanes[i]) && left !in RowSet(detected)
    ensures left !in lanes[j].shown <==> detected == [] && (lanes[i].dirty || lanes[i].emitted != [])
  {
    WholePollIsFullPoll(lanes, steps, i, j, detected);
    if Emits(lanes[i], detected) {
      SentPollShows(lanes[i], detected);
    }
    if detected == [] { assert Snapshot(detected) == []; }
  }

  /** Whether `step` hands over the clear of an empty table. */
  predicate TakesClear(lane: Lane, step: LaneStep)
    requires Enabled(lane, step)
  {
    step.Take? && lane.flight.value.events[lane.flight.value.taken].Cleared?
  }

  lemma LeftoverStep(lane: Lane, step: LaneStep, left: Pair)
    requires FlightInv(lane) && Enabled(lane, step) && left in Residue(lane)
    ensures left in Next(lane, step).shown <==> !TakesClear(lane, step)
  {
    hide FlightInv, RemovedSlots, TickEvents, Snapshot;
    if step.Take? { RemovesRecorded(lane); }
  }

  lemma RemovesRecorded(lane: Lane)
    requires FlightInv(lane) && Enabled(lane, Take)
    ensures var event := lane.flight.value.events[lane.flight.value.taken];
            event.Removed? ==> Pair(event.id, event.pid) in lane.emitted
  {
    var f := lane.flight.value;
    hide HoldAll, Snapshot, TickEvents;
    TickEventsKinds(RemovedSlots(lane.emitted, Snapshot(f.detected)), f.detected, f.taken);
  }

  /**
   Leftovers are permanent: in any run, while no recorded table lists it, a leftover pair stays on display
   throughout if and only if no clear of an empty table is handed over.
   */
  lemma LeftoverPersistsIff(lanes: seq<Lane>, steps: seq<LaneStep>, from: nat, to: nat, left: Pair)
    requires IsRun(lanes, steps) && lanes[0] == Start && from <= to <= |steps|
    requires left in Residue(lanes[from])
    requires forall i :: from <= i <= to ==> left !in lanes[i].emitted
    ensures (forall i :: from <= i <= to ==> left in lanes[i].shown) <==>
            (forall i {:trigger steps[i]} :: from <= i < to ==> !TakesClear(lanes[i], steps[i]))
  {
    forall i {:trigger steps[i]} | from <= i < to && left in lanes[i].shown
      ensures left in lanes[i + 1].shown <==> !TakesClear(lanes[i], steps[i])
    {
      RunKeepsFlightInv(lanes, steps, i);
      LeftoverStep(lanes[i], steps[i], left);
    }
    if forall i {:trigger steps[i]} :: from <= i < to ==> !TakesClear(lanes[i], steps[i]) {
      for k := from to to
        invariant forall i :: from <= i <= k ==> left in lanes[i].shown
      {
        assert !TakesClear(lanes[k], steps[k]);
      }
    }
  }

  // ---------------------------------------------------------------- a shed poll

  /** The removals among the first `k` events of a poll. */
  function TakenRemovals(emitted: seq<Pair>, detected: seq<Game>, k: nat): seq<Pair> {
    var removed := RemovedSlots(emitted, Snapshot(detected));
    removed[..Min(k, |removed|)]
  }

  /** The detections among them. */
  function TakenDetections(emitted: seq<Pair>, detected: seq<Game>, k: nat): seq<Game> {
    var removed := RemovedSlots(emitted, Snapshot(detected));
    detected[..Min(if k <= |removed| then 0 else k - |removed|, |detected|)]
  }

  /** From step `i` to step `j`: a poll, takes of its events, and the shed. */
  ghost predicate IsShedPoll(lanes: seq<Lane>, steps: seq<LaneStep>, i: nat, j: nat, detected: seq<Game>) {
    |lanes| == |steps| + 1 && PollsAndTakes(steps, i, j, detected) && j < |steps| && steps[j] == Drop
  }

  /** What the receiver holds when a poll is shed before its last event. */
  lemma PartwayShows(lane: Lane, detected: seq<Game>, k: nat)
    requires k < |EventsOf(lane, detected)|
    ensures Partway(lane, detected, k).shown ==
            lane.shown - ToSet(TakenRemovals(lane.emitted, detected, k)) +
            RowSet(TakenDetections(lane.emitted, detected, k))
  {
    var removed := RemovedSlots(lane.emitted, Snapshot(detected));
    hide HoldAll, Snapshot;
    if k <= |removed| { AmongRemovals(lane.shown, removed, detected, k); }
    else { AmongDetections(lane.shown, removed, detected, k - |removed|); }
  }

  lemma AmongRemovals(shown: set<Pair>, removed: seq<Pair>, detected: seq<Game>, k: nat)
    requires k <= |removed|
    ensures HoldAll(shown, TickEvents(removed, detected)[..k]) == shown - ToSet(removed[..k]) + RowSet(detected[..0])
  {
    assert TickEvents(removed, detected)[..k] == Removals(removed)[..k];
    HoldRemovals(shown, removed, k);
    assert Rows(detected[..0]) == [];
  }

  lemma AmongDetections(shown: set<Pair>, removed: seq<Pair>, detected: seq<Game>, k: nat)
    requires k <= |detected|
    ensures HoldAll(shown, TickEvents(removed, detected)[..|removed| + k]) ==
            shown - ToSet(removed[..|removed|]) + RowSet(detected[..k])
  {
    PollSlice(removed, detected, k);
    PollPrefix(shown, removed, detected, k);
    assert removed[..|removed|] == removed;
  }

  lemma ShedLeaves(lanes: seq<Lane>, steps: seq<LaneStep>, i: nat, j: nat, detected: seq<Game>)
    requires IsRun(lanes, steps) && IsShedPoll(lanes, steps, i, j, detected)
    ensures var lane, shed, k := lanes[i], lanes[j + 1], TakeCount(steps[i + 1..j]);
            && shed.emitted == lane.emitted && !shed.dirty && shed.flight.None?
            && shed.shown == lane.shown - ToSet(TakenRemovals(lane.emitted, detected, k))
                             + RowSet(TakenDetections(lane.emitted, detected, k))
  {
    var k := TakeCount(steps[i + 1..j]);
    TakesAdvance(lanes, steps, i, j, detected);
    assert Enabled(lanes[j], steps[j]) && lanes[j + 1] == Next(lanes[j], steps[j]);
    hide EventsOf, Emits, TakeCount;
    assert k < |EventsOf(lanes[i], detected)|;
    PartwayShows(lanes[i], detected, k);
  }

  lemma TakenApart(emitted: seq<Pair>, detected: seq<Game>, k: nat)
    ensures ToSet(TakenRemovals(emitted, detected, k)) <= ToSet(emitted)
    ensures ToSet(TakenRemovals(emitted, detected, k)) !! RowSet(TakenDetections(emitted, detected, k))
    ensures ToSet(TakenRemovals(emitted, detected, k)) == {} <==> TakenRemovals(emitted, detected, k) == []
  {
    var gone, seen := TakenRemovals(emitted, detected, k), TakenDetections(emitted, detected, k);
    SnapshotRows(detected);
    assert Rows(seen) == Rows(detected)[..|seen|];
    if gone != [] { assert gone[0] in ToSet(gone); }
  }

  lemma ShedSets(table: set<Pair>, gone: set<Pair>, seen: set<Pair>)
    requires gone <= table && gone !! seen
    ensures (table - gone + seen) - table == seen - table
    ensures table - gone + seen == table <==> gone == {} && seen <= table
  {
    if table - gone + seen == table {
      assert gone <= table - gone + seen;
      assert seen <= table;
    }
  }

  lemma HealsIff(rows: set<Pair>, left: set<Pair>)
    ensures rows + left == rows <==> left <= rows
  {
  }

  lemma {:induction false} ReceiptsOnly(lanes: seq<Lane>, steps: seq<LaneStep>, i: nat, j: nat)
    requires IsRun(lanes, steps) && i <= j <= |steps|
    requires forall k {:trigger steps[k]} :: i <= k < j ==> steps[k] == Receive
    ensures SameButQueue(lanes[j], lanes[i])
    decreases j
  {
    if j > i {
      ReceiptsOnly(lanes, steps, i, j - 1);
      assert lanes[j] == Next(lanes[j - 1], steps[j - 1]);
    }
  }

  /**
   Exactly when a shed is repaired. Receiver and recorded table agree; a poll is shed at step `s` after `k` events;
   the next poll, at step `m`, is delivered whole. If it is sent, the receiver ends with its snapshot exactly when
   that is empty or lists every new pair the shed poll had already handed over. If it equals the recorded table and
   is not sent, exactly when the shed poll had handed over no removal and no new pair.
   */
  lemma ShedIsRepairedIff(lanes: seq<Lane>, steps: seq<LaneStep>, i: nat, s: nat, m: nat, j: nat, first: seq<Game>,
                          second: seq<Game>)
    requires IsRun(lanes, steps) && IsShedPoll(lanes, steps, i, s, first)
    requires lanes[i].shown == ToSet(lanes[i].emitted)
    requires s < m && forall k {:trigger steps[k]} :: s < k < m && k < |steps| ==> steps[k] == Receive
    requires IsWholePoll(lanes, steps, m, j, second)
    ensures var emitted, k := lanes[i].emitted, TakeCount(steps[i + 1..s]);
            var gone, seen := TakenRemovals(emitted, first, k), RowSet(TakenDetections(emitted, first, k));
            lanes[j].shown == RowSet(second) <==>
            if Snapshot(second) != emitted then second == [] || seen - ToSet(emitted) <= RowSet(second)
            else gone == [] && seen <= ToSet(emitted)
  {
    var emitted, k := lanes[i].emitted, TakeCount(steps[i + 1..s]);
    var gone, seen := TakenRemovals(emitted, first, k), RowSet(TakenDetections(emitted, first, k));
    hide TakeCount, TakenRemovals, TakenDetections, Next, HoldAll, EventsOf;
    ShedLeaves(lanes, steps, i, s, first);
    ReceiptsOnly(lanes, steps, s + 1, m);
    TakenApart(emitted, first, k);
    ShedSets(ToSet(emitted), ToSet(gone), seen);
    WholePollIsFullPoll(lanes, steps, m, j, second);
    SnapshotRows(second);
    if Snapshot(second) != emitted {
      SentPollShows(lanes[m], second);
      HealsIff(RowSet(second), seen - ToSet(emitted));
    }
  }

  // ---------------------------------------------------------------- runs that are not repaired

  /** The lane after a fully taken first poll `[a]`. */
  lemma FirstPoll(a: Game) returns (lane: Lane)
    ensures lane == Lane(Snapshot([a]), false, None, None, {a.Row()}, 1) && lane.emitted != []
    ensures IsRun([Start, Next(Start, Poll([a])), lane], [Poll([a]), Take])
  {
    SnapshotRows([a]);
    assert Rows([a]) == [a.Row()] && a.Row() in RowSet([a]);
    var first := Next(Start, Poll([a]));
    assert first.flight.value.events == [Detected(a)];
    lane := Next(first, Take);
  }

  lemma {:induction false} NothingRemoved(previous: seq<Pair>, current: seq<Pair>)
    requires forall p :: p in previous ==> p in current
    ensures RemovedSlots(previous, current) == []
  {
    if previous != [] {
      assert previous[0] in previous;
      NothingRemoved(previous[1..], current);
    }
  }

  lemma WiderPoll(a: Game, b: Game, c: Game)
    requires a.Row() != b.Row()
    ensures b.Row() !in Snapshot([a]) && Snapshot([a]) != Snapshot([a, b, c])
    ensures RemovedSlots(Snapshot([a]), Snapshot([a, b, c])) == []
  {
    SnapshotRows([a]);
    SnapshotRows([a, b, c]);
    assert Rows([a]) == [a.Row()] && Rows([a, b, c]) == [a.Row(), b.Row(), c.Row()];
    hide Snapshot, Rows, RemovedSlots;
    assert b.Row() in Snapshot([a, b, c]);
    NothingRemoved(Snapshot([a]), Snapshot([a, b, c]));
  }

  /** A run with one more step. */
  lemma Grown(lanes: seq<Lane>, steps: seq<LaneStep>, step: LaneStep, lane: Lane)
    returns (lanes': seq<Lane>, steps': seq<LaneStep>)
    requires IsRun(lanes, steps) && |lanes| == |steps| + 1
    requires Enabled(lanes[|steps|], step) && lane == Next(lanes[|steps|], step)
    ensures IsRun(lanes', steps') && |lanes'| == |steps'| + 1
    ensures lanes' == lanes + [lane] && steps' == steps + [step]
    ensures lanes'[0] == lanes[0] && lanes'[|steps'|] == lane && steps'[|steps'| - 1] == step
  {
    lanes', steps' := lanes + [lane], steps + [step];
    forall i {:trigger steps'[i]} | 0 <= i < |steps'|
      ensures Enabled(lanes'[i], steps'[i]) && lanes'[i + 1] == Next(lanes'[i], steps'[i])
    {
      if i < |steps| { assert steps'[i] == steps[i]; }
    }
  }

  /** EXEC publications of a game on display fill the queue and change nothing else but the flag. */
  lemma {:induction false} Filled(lanes: seq<Lane>, steps: seq<LaneStep>, a: Game, n: nat)
    returns (lanes': seq<Lane>, steps': seq<LaneStep>)
    requires IsRun(lanes, steps) && |lanes| == |steps| + 1 && lanes[|steps|].flight.None? && lanes[|steps|].armed.None?
    requires a.Row() in lanes[|steps|].shown && lanes[|steps|].queued + n <= SNAPSHOT_EVENT_CAP
    ensures IsRun(lanes', steps') && |lanes'| == |steps'| + 1 && lanes'[0] == lanes[0]
    ensures lanes'[|steps'|] ==
            lanes[|steps|].(queued := lanes[|steps|].queued + n, dirty := lanes[|steps|].dirty || n > 0)
    decreases n
  {
    lanes', steps' := lanes, steps;
    if n > 0 {
      lanes', steps' := Filled(lanes, steps, a, n - 1);
      assert lanes'[|steps'|].shown + {a.Row()} == lanes'[|steps'|].shown;
      var marked, sent := OnePublication(lanes'[|steps'|], a);
      hide IsRun, Next, Enabled;
      lanes', steps' := Grown(lanes', steps', Mark(a), marked);
      lanes', steps' := Grown(lanes', steps', Publish(true), sent);
    }
  }

  lemma OnePublication(lane: Lane, hit: Game) returns (marked: Lane, sent: Lane)
    requires lane.flight.None? && lane.armed.None? && lane.queued < SNAPSHOT_EVENT_CAP
    ensures Enabled(lane, Mark(hit)) && marked == Next(lane, Mark(hit))
    ensures Enabled(marked, Publish(true)) && sent == Next(marked, Publish(true))
    ensures sent == lane.(queued := lane.queued + 1, dirty := true, shown := lane.shown + {hit.Row()})
  {
    marked := Next(lane, Mark(hit));
    sent := Next(marked, Publish(true));
  }

  /** A whole first poll of `a`, and then the queue filled up to `n`. */
  lemma FirstPollFilled(a: Game, n: nat) returns (lanes: seq<Lane>, steps: seq<LaneStep>)
    requires 1 < n <= SNAPSHOT_EVENT_CAP
    ensures IsRun(lanes, steps) && |lanes| == |steps| + 1 && lanes[0] == Start
    ensures lanes[|steps|] == Lane(Snapshot([a]), true, None, None, {a.Row()}, n)
  {
    var polled := FirstPoll(a);
    hide IsRun, Next, Snapshot;
    lanes, steps := Filled([Start, Next(Start, Poll([a])), polled], [Poll([a]), Take], a, n - 1);
  }

  /**
   "A shed tick is re-emitted whole" fails: with room for two more events, shed after `b` was taken; then `b`
   vanishes again. The next poll equals the recorded table, is not sent, and `b` stays on display.
   */
  lemma ShedLeavesGhost(a: Game, b: Game, c: Game) returns (lanes: seq<Lane>, steps: seq<LaneStep>)
    requires a.Row() != b.Row() && a.Row() != c.Row() && b.Row() != c.Row()
    ensures IsRun(lanes, steps) && lanes[0] == Start
    ensures steps != [] && steps[|steps| - 1] == Poll([a])
    ensures var last := lanes[|steps|];
            last.flight.None? && !last.dirty && last.emitted == Snapshot([a]) && b.Row() in Residue(last)
  {
    lanes, steps := FirstPollFilled(a, SNAPSHOT_EVENT_CAP - 2);
    var l3 := WiderPollStarts(lanes[|steps|], a, b, c);
    var l4, l5, l6 := TwoTakesAndDrop(l3);
    NotSentAgain(l6, a);
    hide Next, IsRun, Snapshot, Enabled;
    lanes, steps := Grown(lanes, steps, Poll([a, b, c]), l3);
    lanes, steps := Grown(lanes, steps, Take, l4);
    lanes, steps := Grown(lanes, steps, Take, l5);
    lanes, steps := Grown(lanes, steps, Drop, l6);
    lanes, steps := Grown(lanes, steps, Poll([a]), l6);
  }

  lemma WiderPollStarts(lane: Lane, a: Game, b: Game, c: Game) returns (polled: Lane)
    requires a.Row() != b.Row() && lane.flight.None? && lane.emitted == Snapshot([a])
    ensures Enabled(lane, Poll([a, b, c])) && polled == Next(lane, Poll([a, b, c])) && b.Row() !in lane.emitted
    ensures polled.flight.Some? && polled.flight.value.taken == 0
    ensures polled.flight.value.events == [Detected(a), Detected(b), Detected(c)]
    ensures polled == lane.(dirty := false, flight := polled.flight)
  {
    WiderPoll(a, b, c);
    ThreeDetections(a, b, c);
    hide Snapshot, RemovedSlots, TickEvents, Hold;
    polled := Next(lane, Poll([a, b, c]));
  }

  lemma ThreeDetections(a: Game, b: Game, c: Game)
    ensures TickEvents([], [a, b, c]) == [Detected(a), Detected(b), Detected(c)]
  {
  }

  lemma TwoTakesAndDrop(lane: Lane) returns (l4: Lane, l5: Lane, l6: Lane)
    requires lane.flight.Some? && lane.flight.value.taken == 0 && |lane.flight.value.events| == 3
    requires lane.queued + 2 == SNAPSHOT_EVENT_CAP
    ensures Enabled(lane, Take) && l4 == Next(lane, Take) && Enabled(l4, Take) && l5 == Next(l4, Take)
    ensures Enabled(l5, Drop) && l6 == Next(l5, Drop)
    ensures var events := lane.flight.value.events;
            l6 == lane.(flight := None, queued := lane.queued + 2,
                        shown := Hold(Hold(lane.shown, events[0]), events[1]))
  {
    hide Hold;
    l4 := Next(lane, Take);
    l5 := Next(l4, Take);
    l6 := Next(l5, Drop);
  }

  /** A poll of the recorded table is not sent again. */
  lemma NotSentAgain(lane: Lane, a: Game)
    requires lane.flight.None? && !lane.dirty && lane.emitted == Snapshot([a])
    ensures Enabled(lane, Poll([a])) && Next(lane, Poll([a])) == lane
  {
    hide Snapshot;
  }

  /**
   The opposite loss: with room for one more event, a removal is taken, the poll is shed, and the game is back at
   the next poll. The table equals the recorded one, nothing is sent, and the running game has no card.
   */
  lemma ShedLosesCard(a: Game, b: Game) returns (lanes: seq<Lane>, steps: seq<LaneStep>)
    requires a.Row() != b.Row()
    ensures IsRun(lanes, steps) && lanes[0] == Start
    ensures steps != [] && steps[|steps| - 1] == Poll([a])
    ensures var last := lanes[|steps|]; last.flight.None? && !last.dirty && a.Row() !in last.shown
  {
    lanes, steps := FirstPollFilled(a, SNAPSHOT_EVENT_CAP - 1);
    var l3, l4, l5 := RemovalThenDrop(lanes[|steps|], a, b);
    NotSentAgain(l5, a);
    hide Next, IsRun, Snapshot, Enabled;
    lanes, steps := Grown(lanes, steps, Poll([b]), l3);
    lanes, steps := Grown(lanes, steps, Take, l4);
    lanes, steps := Grown(lanes, steps, Drop, l5);
    lanes, steps := Grown(lanes, steps, Poll([a]), l5);
  }

  /** A poll of `b` in place of `a` removes `a` and detects `b`. */
  lemma OtherPoll(a: Game, b: Game)
    requires a.Row() != b.Row()
    ensures Snapshot([b]) != Snapshot([a])
    ensures TickEvents(RemovedSlots(Snapshot([a]), Snapshot([b])), [b]) == [Removed(a.id, a.pid), Detected(b)]
  {
    SnapshotRows([a]);
    SnapshotRows([b]);
    assert RowSet([b]) == {b.Row()} && RowSet([a]) == {a.Row()};
    assert |Snapshot([a])| == 1 by { SortKeeps(PairLe, Rows([a])); }
    assert Snapshot([a])[0] == a.Row() by { assert Snapshot([a])[0] in Snapshot([a]); }
    assert RemovedSlots(Snapshot([a]), Snapshot([b])) == [a.Row()];
  }

  lemma RemovalThenDrop(lane: Lane, a: Game, b: Game) returns (l3: Lane, l4: Lane, l5: Lane)
    requires a.Row() != b.Row() && lane.flight.None? && lane.emitted == Snapshot([a])
    requires lane.queued + 1 == SNAPSHOT_EVENT_CAP
    ensures Enabled(lane, Poll([b])) && l3 == Next(lane, Poll([b])) && Enabled(l3, Take) && l4 == Next(l3, Take)
    ensures Enabled(l4, Drop) && l5 == Next(l4, Drop)
    ensures l5 == lane.(dirty := false, shown := lane.shown - {a.Row()}, queued := lane.queued + 1)
  {
    OtherPoll(a, b);
    hide Snapshot, TickEvents, RemovedSlots;
    l3 := Next(lane, Poll([b]));
    l4 := Next(l3, Take);
    l5 := Next(l4, Drop);
  }

  /**
   `scan_dirty` does not make every EXEC-only card go away: the poll it forces is swapped off before
   the publication lands, sees an empty table, and the next empty poll is not sent.
   */
  lemma ExecLeavesGhost(hit: Game) returns (lanes: seq<Lane>, steps: seq<LaneStep>)
    ensures IsRun(lanes, steps) && lanes[0] == Start
    ensures steps != [] && steps[|steps| - 1] == Poll([])
    ensures var last := lanes[|steps|];
            last.flight.None? && !last.dirty && last.armed.None? && last.emitted == [] && last.shown == {hit.Row()}
  {
    var l1 := Next(Start, Mark(hit));
    var l2 := Next(l1, Poll([]));
    assert Snapshot([]) == [];
    assert l2.flight.value.events == [Cleared];
    var l3 := Next(l2, Take);
    var l4 := Next(l3, Publish(true));
    var l5 := Next(l4, Poll([]));
    lanes := [Start, l1, l2, l3, l4, l5];
    steps := [Mark(hit), Poll([]), Take, Publish(true), Poll([])];
  }

  /** Nor does it without any race: beside a running game, the poll it forces does not name the card at all. */
  lemma ExecLeavesGhostBesideGame(a: Game, hit: Game) returns (lanes: seq<Lane>, steps: seq<LaneStep>)
    requires a.Row() != hit.Row()
    ensures IsRun(lanes, steps) && lanes[0] == Start
    ensures steps == [Poll([a]), Take, Mark(hit), Publish(true), Poll([a]), Take]
    ensures var last := lanes[|steps|];
            && last.flight.None? && !last.dirty && last.armed.None? && last.emitted == Snapshot([a])
            && last.shown == {a.Row(), hit.Row()}
  {
    var l2 := FirstPoll(a);
    hide Next, IsRun, Snapshot;
    var l3, l4 := OnePublication(l2, hit);
    var l5, l6 := SamePollAgain(l4, a);
    assert l6.shown == {a.Row(), hit.Row()};
    lanes, steps := [Start, Next(Start, Poll([a])), l2], [Poll([a]), Take];
    lanes, steps := Grown(lanes, steps, Mark(hit), l3);
    lanes, steps := Grown(lanes, steps, Publish(true), l4);
    lanes, steps := Grown(lanes, steps, Poll([a]), l5);
    lanes, steps := Grown(lanes, steps, Take, l6);
  }

  /** A forced poll of the recorded table only repeats its detections. */
  lemma SamePollAgain(lane: Lane, a: Game) returns (polled: Lane, taken: Lane)
    requires lane.flight.None? && lane.dirty && lane.emitted == Snapshot([a]) && lane.queued < SNAPSHOT_EVENT_CAP
    ensures Enabled(lane, Poll([a])) && polled == Next(lane, Poll([a]))
    ensures Enabled(polled, Take) && taken == Next(polled, Take)
    ensures taken == lane.(dirty := false, shown := lane.shown + {a.Row()}, queued := lane.queued + 1)
  {
    NothingRemoved(Snapshot([a]), Snapshot([a]));
    hide Snapshot, RemovedSlots;
    polled := Next(lane, Poll([a]));
    assert polled.flight.value.events == [Detected(a)];
    taken := Next(polled, Take);
  }
}
