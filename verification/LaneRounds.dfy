/** The lane's runs and the rounds the bridge works through are the same polls: what joins the two machines. */
module LaneRounds {
  import opened Presence
  import opened SnapshotLane
  import opened EndToEnd
  import Text

  /** What was polled, in order. */
  function Polled(steps: seq<LaneStep>): seq<seq<Game>> {
    if steps == [] then []
    else
      var last := steps[|steps| - 1];
      Polled(steps[..|steps| - 1]) + if last.Poll? then [last.detected] else []
  }

  /** The events a run hands over to the channel, in order. */
  ghost function Handed(lanes: seq<Lane>, steps: seq<LaneStep>, n: nat): seq<Event>
    requires IsRun(lanes, steps) && n <= |steps|
  {
    if n == 0 then [] else Handed(lanes, steps, n - 1) + HandedAt(lanes[n - 1], steps[n - 1])
  }

  function HandedAt(lane: Lane, step: LaneStep): seq<Event>
    requires Enabled(lane, step)
  {
    if step.Take? then [lane.flight.value.events[lane.flight.value.taken]] else []
  }

  /** The table recorded behind some polls, each delivered whole. */
  function LastSnapshot(polls: seq<seq<Game>>): seq<Pair> {
    if polls == [] then [] else Snapshot(polls[|polls| - 1])
  }

  /** The events of all of them, each against the table of the one before. */
  function AllEvents(polls: seq<seq<Game>>): seq<Event> {
    if polls == [] then []
    else
      var n := |polls| - 1;
      AllEvents(polls[..n]) + PollEvents(LastSnapshot(polls[..n]), polls[n])
  }

  lemma AllEventsNext(polls: seq<seq<Game>>, detected: seq<Game>)
    ensures AllEvents(polls + [detected]) == AllEvents(polls) + PollEvents(LastSnapshot(polls), detected)
    ensures LastSnapshot(polls + [detected]) == Snapshot(detected)
  {
    assert (polls + [detected])[..|polls|] == polls;
  }

  /** The poll a step completes, if any: one that is not sent, or one whose last event is handed over. */
  function CompletedAt(lane: Lane, step: LaneStep): seq<seq<Game>>
    requires Enabled(lane, step)
  {
    if step.Poll? && !Emits(lane, step.detected) then [step.detected]
    else if Completes(lane, step) then [lane.flight.value.detected]
    else []
  }

  /** The polls a run has completed. */
  ghost function Completed(lanes: seq<Lane>, steps: seq<LaneStep>, n: nat): seq<seq<Game>>
    requires IsRun(lanes, steps) && n <= |steps|
  {
    if n == 0 then [] else Completed(lanes, steps, n - 1) + CompletedAt(lanes[n - 1], steps[n - 1])
  }

  /** What was handed over: the events of the completed polls, and some of the poll under way. */
  ghost predicate InStep(lane: Lane, done: seq<seq<Game>>, handed: seq<Event>) {
    && !lane.dirty && lane.emitted == LastSnapshot(done)
    && match lane.flight
       case None => handed == AllEvents(done)
       case Some(f) =>
         && f.taken < |f.events| && f.events == PollEvents(lane.emitted, f.detected)
         && handed == AllEvents(done) + f.events[..f.taken]
  }

  lemma SomeEvents(emitted: seq<Pair>, detected: seq<Game>)
    requires Snapshot(detected) != emitted
    ensures PollEvents(emitted, detected) != []
    ensures PollEvents(emitted, detected) == TickEvents(RemovedSlots(emitted, Snapshot(detected)), detected)
  {
    assert detected != [] ==> |Detections(detected)| > 0;
  }

  lemma PollInStep(lane: Lane, detected: seq<Game>, done: seq<seq<Game>>, handed: seq<Event>)
    requires InStep(lane, done, handed) && Enabled(lane, Poll(detected))
    ensures InStep(Next(lane, Poll(detected)), done + CompletedAt(lane, Poll(detected)), handed)
  {
    AllEventsNext(done, detected);
    hide AllEvents, LastSnapshot;
    if Emits(lane, detected) {
      SomeEvents(lane.emitted, detected);
      hide Snapshot, TickEvents, RemovedSlots, PollEvents;
      var events := PollEvents(lane.emitted, detected);
      assert events[..0] == [] && handed + [] == handed && done + [] == done;
    } else {
      hide Snapshot, TickEvents, RemovedSlots;
      assert handed + [] == handed;
    }
  }

  /** The events handed over so far, and one more of them. */
  lemma HandOver(all: seq<Event>, events: seq<Event>, t: nat)
    requires t < |events|
    ensures all + events[..t] + [events[t]] == all + events[..t + 1]
    ensures t + 1 == |events| ==> events[..t + 1] == events
  {
    OneLonger(events, t);
  }

  lemma LastTakeInStep(lane: Lane, done: seq<seq<Game>>, handed: seq<Event>)
    requires InStep(lane, done, handed) && Enabled(lane, Take) && Completes(lane, Take)
    ensures InStep(Next(lane, Take), done + [lane.flight.value.detected], handed + HandedAt(lane, Take))
  {
    var f := lane.flight.value;
    hide Snapshot, AllEvents, LastSnapshot, PollEvents, Hold;
    AllEventsNext(done, f.detected);
    HandOver(AllEvents(done), f.events, f.taken);
  }

  lemma TakeInStep(lane: Lane, done: seq<seq<Game>>, handed: seq<Event>)
    requires InStep(lane, done, handed) && Enabled(lane, Take)
    ensures InStep(Next(lane, Take), done + CompletedAt(lane, Take), handed + HandedAt(lane, Take))
  {
    if Completes(lane, Take) {
      hide InStep, Next, HandedAt;
      LastTakeInStep(lane, done, handed);
    } else {
      hide Snapshot, AllEvents, LastSnapshot, PollEvents, Hold;
      HandOver(AllEvents(done), lane.flight.value.events, lane.flight.value.taken);
      assert done + [] == done;
    }
  }

  lemma ReceiveInStep(lane: Lane, done: seq<seq<Game>>, handed: seq<Event>)
    requires InStep(lane, done, handed) && Enabled(lane, Receive)
    ensures InStep(Next(lane, Receive), done + CompletedAt(lane, Receive), handed)
  {
    hide AllEvents, LastSnapshot, PollEvents;
    assert done + [] == done;
  }

  lemma NextInStep(lane: Lane, step: LaneStep, done: seq<seq<Game>>, handed: seq<Event>)
    requires InStep(lane, done, handed) && Enabled(lane, step) && QuietKind(step)
    ensures InStep(Next(lane, step), done + CompletedAt(lane, step), handed + HandedAt(lane, step))
  {
    hide InStep, Next, CompletedAt;
    assert handed + [] == handed;
    match step
    case Poll(detected) => PollInStep(lane, detected, done, handed);
    case Take => TakeInStep(lane, done, handed);
    case Receive => ReceiveInStep(lane, done, handed);
  }

  /**
   A run of the lane without sheds and without EXEC has handed over exactly the events of the polls it completed,
   each against the table of the poll before, and some of the poll under way.
   */
  lemma {:induction false} QuietRunHandsPolls(lanes: seq<Lane>, steps: seq<LaneStep>, n: nat)
    requires IsRun(lanes, steps) && lanes[0] == Start && Quiet(steps) && n <= |steps|
    ensures InStep(lanes[n], Completed(lanes, steps, n), Handed(lanes, steps, n))
  {
    hide InStep, Next, HandedAt, CompletedAt, QuietKind, Enabled;
    if n == 0 {
      StartInStep();
    } else {
      QuietRunHandsPolls(lanes, steps, n - 1);
      assert lanes[n] == Next(lanes[n - 1], steps[n - 1]) && QuietKind(steps[n - 1]);
      NextInStep(lanes[n - 1], steps[n - 1], Completed(lanes, steps, n - 1), Handed(lanes, steps, n - 1));
    }
  }

  lemma StartInStep()
    ensures InStep(Start, [], [])
  {
  }

  /** The poll under way. */
  function Pending(lane: Lane): seq<seq<Game>> { if lane.flight.Some? then [lane.flight.value.detected] else [] }

  lemma PendingNext(lane: Lane, step: LaneStep)
    requires Enabled(lane, step) && QuietKind(step)
    ensures CompletedAt(lane, step) + Pending(Next(lane, step)) ==
            Pending(lane) + if step.Poll? then [step.detected] else []
  {
    hide Snapshot, Hold, TickEvents, RemovedSlots;
  }

  /** In such a run every poll is completed or under way. */
  lemma {:induction false} PolledAreCompleted(lanes: seq<Lane>, steps: seq<LaneStep>, n: nat)
    requires IsRun(lanes, steps) && lanes[0] == Start && Quiet(steps) && n <= |steps|
    ensures Polled(steps[..n]) == Completed(lanes, steps, n) + Pending(lanes[n])
  {
    if n > 0 {
      hide Next, Polled, CompletedAt, QuietKind, Pending;
      PolledAreCompleted(lanes, steps, n - 1);
      PolledNext(steps, n - 1);
      assert lanes[n] == Next(lanes[n - 1], steps[n - 1]) && QuietKind(steps[n - 1]);
      PendingNext(lanes[n - 1], steps[n - 1]);
      var more := if steps[n - 1].Poll? then [steps[n - 1].detected] else [];
      Text.Regroup(Completed(lanes, steps, n - 1), Pending(lanes[n - 1]), more);
      Text.Regroup(Completed(lanes, steps, n - 1), CompletedAt(lanes[n - 1], steps[n - 1]), Pending(lanes[n]));
    }
  }

  lemma PolledNext(steps: seq<LaneStep>, n: nat)
    requires n < |steps|
    ensures Polled(steps[..n + 1]) == Polled(steps[..n]) + if steps[n].Poll? then [steps[n].detected] else []
  {
    assert steps[..n + 1][..n] == steps[..n];
  }

  /** So between polls it has handed over the events of all its polls. */
  lemma BetweenPolls(lanes: seq<Lane>, steps: seq<LaneStep>)
    requires IsRun(lanes, steps) && lanes[0] == Start && Quiet(steps) && lanes[|steps|].flight.None?
    ensures Handed(lanes, steps, |steps|) == AllEvents(Polled(steps))
    ensures lanes[|steps|].emitted == LastSnapshot(Polled(steps))
  {
    var n := |steps|;
    hide Polled, Handed, AllEvents, LastSnapshot, Completed, PollEvents;
    QuietRunHandsPolls(lanes, steps, n);
    PolledAreCompleted(lanes, steps, n);
    assert steps[..n] == steps && Completed(lanes, steps, n) + [] == Completed(lanes, steps, n);
  }

  // ---------------------------------------------------------------- the rounds

  function PollsOf(rounds: seq<Round>, k: nat): seq<seq<Game>>
    requires k <= |rounds|
  {
    if k == 0 then [] else PollsOf(rounds, k - 1) + [rounds[k - 1].detected]
  }

  /** The scanner events the bridge consumes in the first `k` rounds. */
  function ConsumedBy(rounds: seq<Round>, k: nat): seq<Event>
    requires k <= |rounds|
  {
    if k == 0 then [] else ConsumedBy(rounds, k - 1) + Consumed(rounds[k - 1].inputs)
  }

  lemma {:induction false} RoundsConsumePolls(rounds: seq<Round>, k: nat)
    requires IsPollRun(rounds) && k <= |rounds|
    ensures ConsumedBy(rounds, k) == AllEvents(PollsOf(rounds, k))
    ensures Recorded(rounds, k) == LastSnapshot(PollsOf(rounds, k))
  {
    hide IsRound, AllEvents, LastSnapshot, Snapshot;
    if k == 0 {
      NoEvents();
    } else {
      RoundsConsumePolls(rounds, k - 1);
      RoundConsumes(rounds, k - 1);
      AllEventsNext(PollsOf(rounds, k - 1), rounds[k - 1].detected);
    }
  }

  lemma NoEvents()
    ensures AllEvents([]) == [] && LastSnapshot([]) == []
  {
  }

  lemma RoundConsumes(rounds: seq<Round>, k: nat)
    requires IsPollRun(rounds) && k < |rounds|
    ensures Consumed(rounds[k].inputs) == PollEvents(Recorded(rounds, k), rounds[k].detected)
  {
    assert IsRound(rounds, k);
  }

  /**
   The two machines agree: when a lane run without sheds and without EXEC has made the polls of some rounds and
   stands between polls, the events it handed over are the events the bridge consumes in those rounds, and the
   table it has recorded is the one the next round compares with.
   */
  lemma RoundsAreLaneRuns(lanes: seq<Lane>, steps: seq<LaneStep>, rounds: seq<Round>)
    requires IsRun(lanes, steps) && lanes[0] == Start && Quiet(steps) && lanes[|steps|].flight.None?
    requires IsPollRun(rounds) && PollsOf(rounds, |rounds|) == Polled(steps)
    ensures Handed(lanes, steps, |steps|) == ConsumedBy(rounds, |rounds|)
    ensures lanes[|steps|].emitted == Recorded(rounds, |rounds|)
  {
    hide Polled, Handed, AllEvents, LastSnapshot, IsPollRun, IsRun, Quiet, ConsumedBy, PollsOf, Recorded;
    BetweenPolls(lanes, steps);
    RoundsConsumePolls(rounds, |rounds|);
  }
}
