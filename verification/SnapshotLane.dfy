/**
 The scanner's snapshot lane: each poll sends the difference to the last recorded table over a
 channel that may refuse events, while the EXEC fast path publishes on the same channel.
 */
module SnapshotLane {
  import opened Presence
  import opened Ordering

  const SNAPSHOT_EVENT_CAP: nat := 128

  // ---------------------------------------------------------------- one poll

  function Rows(detected: seq<Game>): (rows: seq<Pair>) {
    seq(|detected|, i requires 0 <= i < |detected| => detected[i].Row())
  }

  function ToSet<T>(s: seq<T>): set<T> {
    set x | x in s
  }

  function RowSet(detected: seq<Game>): set<Pair> {
    ToSet(Rows(detected))
  }

  predicate PairLe(a: Pair, b: Pair) {
    if a.id == b.id then a.pid <= b.pid else StrLe(a.id, b.id)
  }

  /** The sorted table a poll compares with the recorded one. */
  function Snapshot(detected: seq<Game>): seq<Pair> {
    SortBy(PairLe, Rows(detected))
  }

  /** Rows of the recorded table that the new one lacks, compared as whole pairs. */
  function RemovedSlots(previous: seq<Pair>, current: seq<Pair>): (removed: seq<Pair>)
    ensures forall p :: p in removed <==> p in previous && p !in current
  {
    if previous == [] then []
    else
      assert previous == [previous[0]] + previous[1..];
      (if previous[0] in current then [] else [previous[0]]) + RemovedSlots(previous[1..], current)
  }

  function Removals(removed: seq<Pair>): seq<Event> {
    seq(|removed|, i requires 0 <= i < |removed| => Removed(removed[i].id, removed[i].pid))
  }

  function Detections(detected: seq<Game>): seq<Event> {
    seq(|detected|, i requires 0 <= i < |detected| => Detected(detected[i]))
  }

  /** Removals, then detections, then the clear of an empty table. */
  function TickEvents(removed: seq<Pair>, detected: seq<Game>): seq<Event> {
    Removals(removed) + Detections(detected) + if detected == [] then [Cleared] else []
  }

  // ---------------------------------------------------------------- the lane in place

  datatype SendChecked = Sent | Refused | Gone

  datatype SnapshotDelivery = Complete | Shed | Closed

  /** The event channel as one sender sees it: `send_checked` refuses at the cap and fails without a receiver. */
  class EventChannel {
    var queue: seq<Event>
    var live: bool

    constructor ()
      ensures queue == [] && live
    {
      queue, live := [], true;
    }

    method SendChecked(event: Event, cap: nat) returns (outcome: SendChecked)
      modifies this`queue
      ensures outcome.Sent? <==> |old(queue)| < cap && live
      ensures outcome.Refused? <==> |old(queue)| >= cap && live
      ensures queue == if outcome.Sent? then old(queue) + [event] else old(queue)
    {
      if !live {
        return Gone;
      }
      if |queue| >= cap {
        return Refused;
      }
      queue := queue + [event];
      return Sent;
    }
  }

  /** How many of `events` a queue of length `length` still takes. */
  function Accepted(events: seq<Event>, length: nat): nat {
    if length >= SNAPSHOT_EVENT_CAP then 0 else Min(|events|, SNAPSHOT_EVENT_CAP - length)
  }

  /** Sends `events` in order and stops at the first one that is not taken. */
  method SendAll(channel: EventChannel, events: seq<Event>) returns (delivery: SnapshotDelivery)
    modifies channel`queue
    ensures !channel.live ==>
              channel.queue == old(channel.queue) && delivery == if events == [] then Complete else Closed
    ensures channel.live ==>
              var taken := Accepted(events, |old(channel.queue)|);
              && channel.queue == old(channel.queue) + events[..taken]
              && delivery == if taken == |events| then Complete else Shed
  {
    for i := 0 to |events|
      invariant i > 0 ==> channel.live && |channel.queue| <= SNAPSHOT_EVENT_CAP
      invariant channel.queue == old(channel.queue) + events[..i]
    {
      assert events[..i + 1] == events[..i] + [events[i]];
      var outcome := channel.SendChecked(events[i], SNAPSHOT_EVENT_CAP);
      match outcome {
        case Sent =>
        case Refused => return Shed;
        case Gone => return Closed;
      }
    }
    assert events[..|events|] == events;
    return Complete;
  }

  lemma AcceptedJoins(first: seq<Event>, second: seq<Event>, length: nat)
    ensures var taken := Accepted(first + second, length);
            if Accepted(first, length) < |first| then
              taken == Accepted(first, length) && (first + second)[..taken] == first[..taken]
            else
              taken == |first| + Accepted(second, length + |first|)
  {
    var taken := Accepted(first + second, length);
    if Accepted(first, length) < |first| {
      assert (first + second)[..taken] == first[..taken];
    }
  }

  /** Removals, then detections, then the empty-table clear, stopping early when one is not taken. */
  method DeliverSnapshot(channel: EventChannel, removed: seq<Pair>, detected: seq<Game>)
    returns (delivery: SnapshotDelivery)
    modifies channel`queue
    ensures !channel.live ==> delivery == Closed && channel.queue == old(channel.queue)
    ensures channel.live ==>
              var events := TickEvents(removed, detected);
              var taken := Accepted(events, |old(channel.queue)|);
              && channel.queue == old(channel.queue) + events[..taken]
              && delivery == if taken == |events| then Complete else Shed
  {
    var tail := if detected == [] then [Cleared] else [];
    AcceptedJoins(Removals(removed), Detections(detected), |channel.queue|);
    AcceptedJoins(Removals(removed) + Detections(detected), tail, |channel.queue|);
    delivery := SendAll(channel, Removals(removed));
    if delivery != Complete { return; }
    delivery := SendAll(channel, Detections(detected));
    if delivery != Complete { return; }
    assert detected != [] ==> |Detections(detected)| > 0;
    delivery := SendAll(channel, tail);
  }

  /** The scan thread's memory of the table it has handed over. */
  class ScanThread {
    var lastEmitted: seq<Pair>

    constructor ()
      ensures lastEmitted == []
    {
      lastEmitted := [];
    }

    /** One emitting poll: the table is recorded only when every event was taken. */
    method AdvanceSnapshotLane(channel: EventChannel, detected: seq<Game>) returns (delivery: SnapshotDelivery)
      modifies this`lastEmitted, channel`queue
      ensures lastEmitted == if delivery == Complete then Snapshot(detected) else old(lastEmitted)
      ensures channel.live ==>
                var events := TickEvents(RemovedSlots(old(lastEmitted), Snapshot(detected)), detected);
                && (delivery == Complete <==> |old(channel.queue)| + |events| <= SNAPSHOT_EVENT_CAP)
                && exists taken: nat :: taken <= |events| && channel.queue == old(channel.queue) + events[..taken]
    {
      var snapshot := Snapshot(detected);
      var removed := RemovedSlots(lastEmitted, snapshot);
      ghost var events := TickEvents(removed, detected);
      assert |events| > 0 by { assert detected != [] ==> |Detections(detected)| > 0; }
      delivery := DeliverSnapshot(channel, removed, detected);
      if delivery == Complete {
        lastEmitted := snapshot;
      }
    }
  }

  // ---------------------------------------------------------------- the lane as a protocol

  /** The pairs a receiver holds after one event. */
  function Hold(shown: set<Pair>, event: Event): set<Pair> {
    match event
    case Detected(game) => shown + {game.Row()}
    case Removed(id, pid) => shown - {Pair(id, pid)}
    case Cleared => {}
  }

  function HoldAll(shown: set<Pair>, events: seq<Event>): set<Pair> {
    if events == [] then shown else Hold(HoldAll(shown, events[..|events| - 1]), events[|events| - 1])
  }

  /** A poll being delivered: what it has to send, how much was taken, and what EXEC slipped in between. */
  datatype Flight = Flight(detected: seq<Game>, events: seq<Event>, taken: nat, base: set<Pair>, exec: set<Pair>)

  /** `queued` events wait in the channel; `shown` is what the receiver holds once it has received them. */
  datatype Lane = Lane(emitted: seq<Pair>, dirty: bool, armed: Option<Game>, flight: Option<Flight>, shown: set<Pair>,
                       queued: nat)

  const Start := Lane([], false, None, None, {}, 0)

  /**
   Atomic steps of the scan thread (`Poll`, `Take`, `Drop`), the dispatch thread (`Mark`, `Publish`) and the
   receiver. A send is taken exactly when there is room below the cap, which both senders share.
   */
  datatype LaneStep =
    | Mark(hit: Game)             // the EXEC hit sets `scan_dirty` ...
    | Publish(taken: bool)        // ... and only then tries to publish
    | Poll(detected: seq<Game>)
    | Take
    | Drop
    | Receive

  predicate Enabled(lane: Lane, step: LaneStep) {
    match step
    case Mark(_) => lane.armed.None?
    case Publish(taken) => lane.armed.Some? && (taken <==> lane.queued < SNAPSHOT_EVENT_CAP)
    case Poll(_) => lane.flight.None?
    case Take => Sending(lane) && lane.queued < SNAPSHOT_EVENT_CAP
    case Drop => Sending(lane) && lane.queued >= SNAPSHOT_EVENT_CAP
    case Receive => lane.queued > 0
  }

  predicate Sending(lane: Lane) {
    lane.flight.Some? && lane.flight.value.taken < |lane.flight.value.events|
  }

  predicate Emits(lane: Lane, detected: seq<Game>) {
    Snapshot(detected) != lane.emitted || lane.dirty
  }

  function Next(lane: Lane, step: LaneStep): Lane
    requires Enabled(lane, step)
  {
    match step
    case Mark(hit) => lane.(dirty := true, armed := Some(hit))
    case Publish(taken) =>
      var row := lane.armed.value.Row();
      if !taken then lane.(armed := None)
      else lane.(
           armed := None,
           queued := lane.queued + 1,
           shown := lane.shown + {row},
           flight := match lane.flight
             case Some(f) => Some(f.(exec := f.exec + {row}))
             case None => None)
    case Poll(detected) =>
      // `scan_dirty` is swapped off here, before anything is sent.
      if !Emits(lane, detected) then lane.(dirty := false)
      else lane.(
           dirty := false,
           flight := Some(Flight(detected, TickEvents(RemovedSlots(lane.emitted, Snapshot(detected)), detected),
                                 0, lane.shown, {})))
    case Take =>
      var f := lane.flight.value;
      var shown := Hold(lane.shown, f.events[f.taken]);
      var sent := lane.(shown := shown, queued := lane.queued + 1);
      if f.taken + 1 == |f.events| then sent.(flight := None, emitted := Snapshot(f.detected))
      else sent.(flight := Some(f.(taken := f.taken + 1)))
    case Drop => lane.(flight := None)
    case Receive => lane.(queued := lane.queued - 1)
  }

  /** `lanes` is the sequence of states that `steps` leads through. */
  ghost predicate IsRun(lanes: seq<Lane>, steps: seq<LaneStep>) {
    && |lanes| == |steps| + 1
    && forall i {:trigger steps[i]} :: 0 <= i < |steps| ==>
         Enabled(lanes[i], steps[i]) && lanes[i + 1] == Next(lanes[i], steps[i])
  }

  // ---------------------------------------------------------------- lane law

  /**
   What the receiver holds while a poll is under way: exactly the poll's own effect so far on the
   table it found, up to pairs EXEC published meanwhile.
   */
  ghost predicate FlightInv(lane: Lane) {
    lane.flight.Some? ==>
      var f := lane.flight.value;
      var removed := RemovedSlots(lane.emitted, Snapshot(f.detected));
      var own := HoldAll(f.base, f.events[..Min(f.taken, |f.events|)]);
      && f.taken < |f.events|
      && f.events == TickEvents(removed, f.detected)
      && own <= lane.shown <= own + f.exec
      && f.exec <= lane.shown + ToSet(removed)
  }

  lemma SnapshotRows(detected: seq<Game>)
    ensures ToSet(Snapshot(detected)) == RowSet(detected)
    ensures forall p :: p in Snapshot(detected) <==> p in RowSet(detected)
  {
    SortKeeps(PairLe, Rows(detected));
  }

  lemma HoldNext(shown: set<Pair>, events: seq<Event>, t: nat)
    requires t < |events|
    ensures HoldAll(shown, events[..t + 1]) == Hold(HoldAll(shown, events[..t]), events[t])
  {
    assert events[..t + 1][..t] == events[..t];
  }

  lemma HoldOneMore(shown: set<Pair>, events: seq<Event>, event: Event)
    ensures HoldAll(shown, events + [event]) == Hold(HoldAll(shown, events), event)
  {
    assert (events + [event])[..|events|] == events;
  }

  lemma {:induction false} HoldRemovals(shown: set<Pair>, removed: seq<Pair>, k: nat)
    requires k <= |removed|
    ensures HoldAll(shown, Removals(removed)[..k]) == shown - ToSet(removed[..k])
  {
    if k > 0 {
      HoldRemovals(shown, removed, k - 1);
      HoldNext(shown, Removals(removed), k - 1);
      assert removed[..k] == removed[..k - 1] + [removed[k - 1]];
    }
  }

  lemma RowSetGrows(detected: seq<Game>, k: nat)
    requires 0 < k <= |detected|
    ensures RowSet(detected[..k]) == RowSet(detected[..k - 1]) + {detected[k - 1].Row()}
  {
    assert Rows(detected[..k]) == Rows(detected[..k - 1]) + [detected[k - 1].Row()];
  }

  lemma OneMoreDetection(events: seq<Event>, detected: seq<Game>, k: nat)
    requires 0 < k <= |detected|
    ensures events + Detections(detected)[..k] ==
            (events + Detections(detected)[..k - 1]) + [Detected(detected[k - 1])]
  {
    var all := Detections(detected);
    assert all[..k] == all[..k - 1] + [all[k - 1]];
  }

  lemma {:induction false} HoldDetections(shown: set<Pair>, events: seq<Event>, detected: seq<Game>, k: nat)
    requires k <= |detected|
    ensures HoldAll(shown, events + Detections(detected)[..k]) == HoldAll(shown, events) + RowSet(detected[..k])
  {
    if k == 0 {
      assert events + Detections(detected)[..0] == events;
    } else {
      hide HoldAll, RowSet;
      HoldDetections(shown, events, detected, k - 1);
      OneMoreDetection(events, detected, k);
      HoldOneMore(shown, events + Detections(detected)[..k - 1], Detected(detected[k - 1]));
      RowSetGrows(detected, k);
    }
  }

  /** The effect of a poll's removals and its first `k` detections. */
  lemma PollPrefix(shown: set<Pair>, removed: seq<Pair>, detected: seq<Game>, k: nat)
    requires k <= |detected|
    ensures HoldAll(shown, Removals(removed) + Detections(detected)[..k]) ==
            shown - ToSet(removed) + RowSet(detected[..k])
  {
    assert Removals(removed)[..|removed|] == Removals(removed) && removed[..|removed|] == removed;
    HoldRemovals(shown, removed, |removed|);
    HoldDetections(shown, Removals(removed), detected, k);
  }

  lemma PollSlice(removed: seq<Pair>, detected: seq<Game>, k: nat)
    requires k <= |detected|
    ensures TickEvents(removed, detected)[..|removed| + k] == Removals(removed) + Detections(detected)[..k]
  {
  }

  /** A whole poll turns the table `shown` into the snapshot plus whatever the recorded table did not know about. */
  lemma TickEffect(shown: set<Pair>, emitted: seq<Pair>, detected: seq<Game>)
    ensures var after := HoldAll(shown, TickEvents(RemovedSlots(emitted, Snapshot(detected)), detected));
            after == if detected == [] then {} else RowSet(detected) + (shown - ToSet(emitted))
  {
    var removed := RemovedSlots(emitted, Snapshot(detected));
    var events := TickEvents(removed, detected);
    if detected == [] {
      assert events[|events| - 1] == Cleared;
    } else {
      WholePoll(removed, detected);
      PollPrefix(shown, removed, detected, |detected|);
      RemovedRows(emitted, detected);
    }
  }

  lemma WholePoll(removed: seq<Pair>, detected: seq<Game>)
    requires detected != []
    ensures TickEvents(removed, detected) == Removals(removed) + Detections(detected)[..|detected|]
    ensures detected[..|detected|] == detected
  {
    assert Detections(detected)[..|detected|] == Detections(detected);
  }

  lemma TickEventsKinds(removed: seq<Pair>, detected: seq<Game>, k: nat)
    requires k < |TickEvents(removed, detected)|
    ensures var e := TickEvents(removed, detected)[k];
            && (e.Removed? ==> Pair(e.id, e.pid) in removed)
            && (e.Detected? ==> e.game in detected)
            && (e.Cleared? ==> detected == [] && k + 1 == |TickEvents(removed, detected)|)
  {
  }

  /** One event keeps two tables as close as they were. */
  lemma HoldSandwich(own: set<Pair>, shown: set<Pair>, exec: set<Pair>, removed: set<Pair>, event: Event)
    requires own <= shown <= own + exec && exec <= shown + removed
    requires event.Removed? ==> Pair(event.id, event.pid) in removed
    ensures Hold(own, event) <= Hold(shown, event) <= Hold(own, event) + exec
    ensures !event.Cleared? ==> exec <= Hold(shown, event) + removed
  {
  }

  lemma PollKeepsFlightInv(lane: Lane, detected: seq<Game>)
    requires FlightInv(lane) && Enabled(lane, Poll(detected))
    ensures FlightInv(Next(lane, Poll(detected)))
  {
    assert detected != [] ==> |Detections(detected)| > 0;
  }

  lemma PublishKeepsFlightInv(lane: Lane, taken: bool)
    requires FlightInv(lane) && Enabled(lane, Publish(taken))
    ensures FlightInv(Next(lane, Publish(taken)))
  {
    hide TickEvents, RemovedSlots, Snapshot, HoldAll;
  }

  lemma TakeKeepsFlightInv(lane: Lane)
    requires FlightInv(lane) && Enabled(lane, Take)
    ensures FlightInv(Next(lane, Take))
  {
    var f := lane.flight.value;
    var removed := RemovedSlots(lane.emitted, Snapshot(f.detected));
    hide TickEvents, RemovedSlots, Snapshot, HoldAll, Hold;
    TickEventsKinds(removed, f.detected, f.taken);
    HoldNext(f.base, f.events, f.taken);
    HoldSandwich(HoldAll(f.base, f.events[..f.taken]), lane.shown, f.exec, ToSet(removed), f.events[f.taken]);
  }

  lemma StepKeepsFlightInv(lane: Lane, step: LaneStep)
    requires FlightInv(lane) && Enabled(lane, step)
    ensures FlightInv(Next(lane, step))
  {
    match step
    case Poll(detected) => PollKeepsFlightInv(lane, detected);
    case Publish(taken) => PublishKeepsFlightInv(lane, taken);
    case Take => TakeKeepsFlightInv(lane);
    case _ => hide TickEvents, RemovedSlots, Snapshot, HoldAll;
  }

  lemma {:induction false} RunKeepsFlightInv(lanes: seq<Lane>, steps: seq<LaneStep>, i: nat)
    requires IsRun(lanes, steps) && lanes[0] == Start && i <= |steps|
    ensures FlightInv(lanes[i])
  {
    if i > 0 {
      hide FlightInv, Next;
      RunKeepsFlightInv(lanes, steps, i - 1);
      StepKeepsFlightInv(lanes[i - 1], steps[i - 1]);
    }
  }

  /** The table a poll leaves, given the one it found and the recorded one. */
  function Law(detected: seq<Game>, base: set<Pair>, emitted: seq<Pair>): set<Pair> {
    if detected == [] then {} else RowSet(detected) + (base - ToSet(emitted))
  }

  lemma RemovedRows(emitted: seq<Pair>, detected: seq<Game>)
    ensures ToSet(RemovedSlots(emitted, Snapshot(detected))) == ToSet(emitted) - RowSet(detected)
  {
    SnapshotRows(detected);
  }

  lemma CompletionLaw(lane: Lane, f: Flight)
    requires FlightInv(lane) && lane.flight == Some(f) && f.taken + 1 == |f.events|
    ensures var law := Law(f.detected, f.base, lane.emitted);
            var after := Hold(lane.shown, f.events[f.taken]);
            && law <= after <= law + f.exec
            && (f.detected != [] ==> f.exec - (ToSet(lane.emitted) - RowSet(f.detected)) <= after)
  {
    var removed := RemovedSlots(lane.emitted, Snapshot(f.detected));
    var own, event := HoldAll(f.base, f.events[..f.taken]), f.events[f.taken];
    assert f.events[..|f.events| - 1] == f.events[..f.taken];
    assert HoldAll(f.base, f.events) == Hold(own, event);
    TickEffect(f.base, lane.emitted, f.detected);
    TickEventsKinds(removed, f.detected, f.taken);
    HoldSandwich(own, lane.shown, f.exec, ToSet(removed), event);
    RemovedRows(lane.emitted, f.detected);
  }

  /**
   Lane law, at event granularity. When the last event of a poll is taken, the receiver holds the
   snapshot plus the pairs it held before that the recorded table did not know about, and beyond
   that only pairs EXEC published during the delivery; those survive unless this very poll removed
   them. An empty poll leaves only such late pairs. Without EXEC in between, the law is an equation.
   */
  lemma LaneLaw(lanes: seq<Lane>, steps: seq<LaneStep>, i: nat)
    requires IsRun(lanes, steps) && lanes[0] == Start && i < |steps|
    requires steps[i].Take? && lanes[i + 1].flight.None?
    ensures var f := lanes[i].flight.value;
            var law := Law(f.detected, f.base, lanes[i].emitted);
            && lanes[i + 1].emitted == Snapshot(f.detected)
            && law <= lanes[i + 1].shown <= law + f.exec
            && (f.detected != [] ==> f.exec - (ToSet(lanes[i].emitted) - RowSet(f.detected)) <= lanes[i + 1].shown)
            && (f.exec == {} ==> lanes[i + 1].shown == law)
  {
    RunKeepsFlightInv(lanes, steps, i);
    CompletionLaw(lanes[i], lanes[i].flight.value);
  }

  /** The step hands over a poll's last event. */
  predicate Completes(lane: Lane, step: LaneStep)
    requires Enabled(lane, step)
  {
    step.Take? && lane.flight.value.taken + 1 == |lane.flight.value.events|
  }

  lemma OnlyCompletionRecords(lane: Lane, step: LaneStep)
    requires Enabled(lane, step)
    ensures Next(lane, step).emitted ==
            if Completes(lane, step) then Snapshot(lane.flight.value.detected) else lane.emitted
  {
    hide Snapshot, Hold;
  }

  /** No poll is taken whole from state `i` to state `n`. */
  ghost predicate NoneCompletes(lanes: seq<Lane>, steps: seq<LaneStep>, i: nat, n: nat)
    requires IsRun(lanes, steps) && n <= |steps|
  {
    forall k {:trigger steps[k]} :: i <= k < n ==> !Completes(lanes[k], steps[k])
  }

  /** In every run the recorded table stands still between completions. */
  lemma {:induction false} RecordStandsStill(lanes: seq<Lane>, steps: seq<LaneStep>, i: nat, n: nat)
    requires IsRun(lanes, steps) && i <= n <= |steps| && NoneCompletes(lanes, steps, i, n)
    ensures lanes[n].emitted == lanes[i].emitted
    decreases n
  {
    hide Completes, Next, Snapshot;
    if n > i {
      RecordStandsStill(lanes, steps, i, n - 1);
      assert lanes[n] == Next(lanes[n - 1], steps[n - 1]);
      OnlyCompletionRecords(lanes[n - 1], steps[n - 1]);
    }
  }

  /** So it is the table of the latest poll taken whole. */
  lemma RecordedIsLatestComplete(lanes: seq<Lane>, steps: seq<LaneStep>, i: nat, n: nat)
    requires IsRun(lanes, steps) && i < n <= |steps|
    requires Completes(lanes[i], steps[i]) && NoneCompletes(lanes, steps, i + 1, n)
    ensures lanes[n].emitted == Snapshot(lanes[i].flight.value.detected)
  {
    hide Next, Snapshot, NoneCompletes;
    assert lanes[i + 1] == Next(lanes[i], steps[i]);
    OnlyCompletionRecords(lanes[i], steps[i]);
    RecordStandsStill(lanes, steps, i + 1, n);
  }

  /** Neither a shed nor anything of EXEC. */
  predicate QuietKind(step: LaneStep) { step.Poll? || step.Take? || step.Receive? }

  ghost predicate Quiet(steps: seq<LaneStep>) {
    forall i :: 0 <= i < |steps| ==> QuietKind(steps[i])
  }

  ghost predicate QuietInv(lane: Lane) {
    && lane.armed.None? && !lane.dirty
    && match lane.flight
       case None => lane.shown == ToSet(lane.emitted)
       case Some(f) => f.exec == {} && f.base == ToSet(lane.emitted)
  }

  lemma QuietStep(lane: Lane, step: LaneStep)
    requires FlightInv(lane) && QuietInv(lane) && Enabled(lane, step) && QuietKind(step)
    ensures QuietInv(Next(lane, step))
  {
    if step.Take? && Next(lane, step).flight.None? {
      CompletionLaw(lane, lane.flight.value);
      SnapshotRows(lane.flight.value.detected);
    }
  }

  /** Between polls of a run without sheds and without EXEC hits, the receiver holds exactly the recorded table. */
  lemma {:induction false} QuietRunsAgree(lanes: seq<Lane>, steps: seq<LaneStep>, i: nat)
    requires IsRun(lanes, steps) && lanes[0] == Start && Quiet(steps) && i <= |steps|
    ensures QuietInv(lanes[i])
    ensures lanes[i].flight.None? ==> lanes[i].shown == ToSet(lanes[i].emitted)
  {
    if i > 0 {
      QuietRunsAgree(lanes, steps, i - 1);
      RunKeepsFlightInv(lanes, steps, i - 1);
      QuietStep(lanes[i - 1], steps[i - 1]);
    }
  }
}
