/**
 The backlog gauge of a channel with any number of cloned senders, one atomic operation at a time: the
 compare-and-swap reservation loop, the send behind it, receives, rollbacks and the receiver's death.
 */
module Gauge {
  import opened Presence

  type Usize = n: nat | n < TWO_64

  function Inc(n: Usize): Usize { if n + 1 == TWO_64 then 0 else n + 1 }

  function Dec(n: Usize): Usize { if n == 0 then TWO_64 - 1 else n - 1 }

  datatype Outcome = Sent | Shed | Closed

  datatype Sender<T> =
    | Resting
    | Loading(value: T, cap: Usize)                // in the loop, about to load the depth
    | Loaded(value: T, cap: Usize, seen: Usize)    // found room, about to compare and swap
    | Refused                                      // found none, about to look whether the receiver lives
    | Reserved(value: T)                           // counted, about to push
    | RollingBack                                  // the push failed, about to release the count
  {
    /** Whether the gauge counts a slot for this sender. */
    function Slots(): nat { if Reserved? || RollingBack? then 1 else 0 }
  }

  datatype Receiver = Open | Releasing | MarkedGone | Gone

  /** `accepted`, `received` and `discarded` are bookkeeping of the model. */
  datatype Channel<T> = Channel(depth: Usize, dropped: nat, live: bool, queue: seq<T>, receiver: Receiver,
                                senders: seq<Sender<T>>, accepted: seq<T>, received: seq<T>, discarded: seq<T>)

  function Fresh<T>(clones: nat): Channel<T> {
    Channel(0, 0, true, [], Open, seq(clones, _ => Resting), [], [], [])
  }

  datatype Step<T> =
    | StartChecked(i: nat, value: T, cap: Usize)
    | StartPlain(i: nat, value: T)             // `send` counts first, with no cap
    | Load(i: nat)
    | Swap(i: nat, spurious: bool)             // a weak exchange may fail for no reason
    | Refuse(i: nat)
    | Push(i: nat)
    | RollBack(i: nat)
    | Take                                     // the receiver takes a value ...
    | Release                                  // ... and then releases its count
    | MarkGone                                 // the receiver is dropped: first the flag ...
    | DropQueue                                // ... then the channel itself

  predicate SenderStep<T>(step: Step<T>) {
    !(step.Take? || step.Release? || step.MarkGone? || step.DropQueue?)
  }

  predicate Enabled<T>(c: Channel<T>, step: Step<T>) {
    && (SenderStep(step) ==> step.i < |c.senders|)
    && match step
       case StartChecked(i, _, _) => c.senders[i].Resting?
       case StartPlain(i, _) => c.senders[i].Resting?
       case Load(i) => c.senders[i].Loading?
       case Swap(i, _) => c.senders[i].Loaded?
       case Refuse(i) => c.senders[i].Refused?
       case Push(i) => c.senders[i].Reserved?
       case RollBack(i) => c.senders[i].RollingBack?
       case Take => c.receiver.Open? && c.queue != []
       case Release => c.receiver.Releasing?
       case MarkGone => c.receiver.Open?
       case DropQueue => c.receiver.MarkedGone?
  }

  function Next<T>(c: Channel<T>, step: Step<T>): Channel<T>
    requires Enabled(c, step)
  {
    match step
    case StartChecked(i, value, cap) => c.(senders := c.senders[i := Loading(value, cap)])
    case StartPlain(i, value) => c.(senders := c.senders[i := Reserved(value)], depth := Inc(c.depth))
    case Load(i) =>
      var s := c.senders[i];
      c.(senders := c.senders[i := if c.depth >= s.cap then Refused else Loaded(s.value, s.cap, c.depth)])
    case Swap(i, spurious) =>
      var s := c.senders[i];
      if spurious || c.depth != s.seen then c.(senders := c.senders[i := Loading(s.value, s.cap)])
      else c.(senders := c.senders[i := Reserved(s.value)], depth := Inc(s.seen))
    case Refuse(i) => c.(senders := c.senders[i := Resting], dropped := if c.live then c.dropped + 1 else c.dropped)
    case Push(i) =>
      var value := c.senders[i].value;
      if c.receiver.Gone? then c.(senders := c.senders[i := RollingBack])
      else c.(senders := c.senders[i := Resting], queue := c.queue + [value], accepted := c.accepted + [value])
    case RollBack(i) => c.(senders := c.senders[i := Resting], depth := Dec(c.depth))
    case Take => c.(receiver := Releasing, queue := c.queue[1..], received := c.received + [c.queue[0]])
    case Release => c.(receiver := Open, depth := Dec(c.depth))
    case MarkGone => c.(receiver := MarkedGone, live := false)
    case DropQueue => c.(receiver := Gone, queue := [], discarded := c.queue)
  }

  /** What a capacity-checked call reports when this step ends it. */
  function OutcomeOf<T>(c: Channel<T>, step: Step<T>): Option<Outcome>
    requires Enabled(c, step)
  {
    match step
    case Refuse(_) => Some(if c.live then Shed else Closed)
    case Push(_) => if c.receiver.Gone? then None else Some(Sent)
    case RollBack(_) => Some(Closed)
    case _ => None
  }

  // ---------------------------------------------------------------- the count

  function InFlight<T>(senders: seq<Sender<T>>): nat {
    if senders == [] then 0 else InFlight(senders[..|senders| - 1]) + senders[|senders| - 1].Slots()
  }

  /** Everything that should be counted: queued, reserved or rolling back, received but not yet released, discarded. */
  function Total<T>(c: Channel<T>): nat {
    |c.queue| + InFlight(c.senders) + (if c.receiver.Releasing? then 1 else 0) + |c.discarded|
  }

  lemma {:induction false} InFlightMoves<T>(senders: seq<Sender<T>>, i: nat, s: Sender<T>)
    requires i < |senders|
    ensures InFlight(senders[i := s]) == InFlight(senders) - senders[i].Slots() + s.Slots()
    ensures InFlight(senders) >= senders[i].Slots()
  {
    var n := |senders| - 1;
    if i < n {
      InFlightMoves(senders[..n], i, s);
      assert senders[i := s][..n] == senders[..n][i := s];
    } else {
      assert senders[i := s][..n] == senders[..n];
    }
  }

  lemma {:induction false} NoneInFlight<T>(clones: nat)
    ensures InFlight<T>(seq(clones, _ => Resting)) == 0
  {
    if clones > 0 {
      NoneInFlight<T>(clones - 1);
      assert seq<Sender<T>>(clones, _ => Resting)[..clones - 1] == seq(clones - 1, _ => Resting);
    }
  }

  /** What one step does to the total: the counter moves with it, one up, one down or not at all. */
  lemma StepMovesTotal<T>(c: Channel<T>, step: Step<T>)
    requires Enabled(c, step) && (c.discarded != [] ==> c.receiver.Gone?)
    ensures var c' := Next(c, step);
            || (Total(c') == Total(c) && c'.depth == c.depth)
            || (Total(c') == Total(c) + 1 && c'.depth == Inc(c.depth))
            || (Total(c') == Total(c) - 1 && c'.depth == Dec(c.depth))
  {
    if SenderStep(step) {
      InFlightMoves(c.senders, step.i, Next(c, step).senders[step.i]);
    }
  }

  ghost predicate Inv<T>(c: Channel<T>) {
    && c.depth == Total(c) % TWO_64
    && (c.discarded != [] ==> c.receiver.Gone?)
    && (c.receiver.Gone? ==> c.queue == [])
    && (c.live <==> c.receiver.Open? || c.receiver.Releasing?)
    && c.accepted == c.received + c.queue + c.discarded
  }

  lemma CountFollows(total: int, depth: Usize)
    requires depth == total % TWO_64
    ensures Inc(depth) == (total + 1) % TWO_64 && Dec(depth) == (total - 1) % TWO_64
  {
    var q := total / TWO_64;
    assert total == q * TWO_64 + depth;
    if depth + 1 == TWO_64 { assert total + 1 == (q + 1) * TWO_64; }
    if depth == 0 { assert total - 1 == (q - 1) * TWO_64 + (TWO_64 - 1); }
  }

  lemma StepKeepsValues<T>(c: Channel<T>, step: Step<T>)
    requires Inv(c) && Enabled(c, step)
    ensures var c' := Next(c, step);
            && (c'.discarded != [] ==> c'.receiver.Gone?)
            && (c'.receiver.Gone? ==> c'.queue == [])
            && (c'.live <==> c'.receiver.Open? || c'.receiver.Releasing?)
            && c'.accepted == c'.received + c'.queue + c'.discarded
  {
    if step.Take? {
      assert c.queue == [c.queue[0]] + c.queue[1..];
    }
  }

  lemma StepKeepsInv<T>(c: Channel<T>, step: Step<T>)
    requires Inv(c) && Enabled(c, step)
    ensures Inv(Next(c, step))
  {
    StepMovesTotal(c, step);
    CountFollows(Total(c), c.depth);
    StepKeepsValues(c, step);
  }

  ghost predicate IsRun<T>(channels: seq<Channel<T>>, steps: seq<Step<T>>) {
    && |channels| == |steps| + 1
    && forall i {:trigger steps[i]} :: 0 <= i < |steps| ==>
         Enabled(channels[i], steps[i]) && channels[i + 1] == Next(channels[i], steps[i])
  }

  /**
   In every interleaving of any number of senders with the receiver: the gauge is the number of values
   queued, reserved, being rolled back, received but unreleased, or discarded with the receiver (modulo
   the counter's width); and what was accepted is what was received, then what is queued, in order.
   */
  lemma GaugeCounts<T>(channels: seq<Channel<T>>, steps: seq<Step<T>>, clones: nat, n: nat)
    requires IsRun(channels, steps) && channels[0] == Fresh(clones) && n <= |steps|
    ensures Inv(channels[n])
  {
    NoneInFlight<T>(clones);
    for i := 0 to n
      invariant Inv(channels[i])
    {
      assert channels[i + 1] == Next(channels[i], steps[i]);
      StepKeepsInv(channels[i], steps[i]);
    }
  }

  // ---------------------------------------------------------------- only capacity-checked sends

  /** A sender in the loop was given at most this cap, and found room below its own if it found any. */
  predicate WithinCap<T>(s: Sender<T>, cap: Usize) {
    && (s.Loading? || s.Loaded? ==> s.cap <= cap)
    && (s.Loaded? ==> s.seen < s.cap)
  }

  ghost predicate Capped<T>(c: Channel<T>, cap: Usize) {
    Total(c) <= cap && forall i :: 0 <= i < |c.senders| ==> WithinCap(c.senders[i], cap)
  }

  ghost predicate Checked<T>(step: Step<T>, cap: Usize) {
    !step.StartPlain? && (step.StartChecked? ==> step.cap <= cap)
  }

  lemma StepKeepsWithinCap<T>(c: Channel<T>, step: Step<T>, cap: Usize, i: nat)
    requires Capped(c, cap) && Enabled(c, step) && Checked(step, cap) && i < |c.senders|
    ensures |Next(c, step).senders| == |c.senders| && WithinCap(Next(c, step).senders[i], cap)
  {
    hide Total;
    assert WithinCap(c.senders[i], cap);
  }

  /** The total grows only by a swap, which found less than the cap. */
  lemma StepKeepsTotalCapped<T>(c: Channel<T>, step: Step<T>, cap: Usize)
    requires Inv(c) && Capped(c, cap) && Enabled(c, step) && Checked(step, cap)
    ensures Total(Next(c, step)) <= cap
  {
    SmallCount(Total(c), c.depth, cap);
    if SenderStep(step) {
      assert WithinCap(c.senders[step.i], cap);
      InFlightMoves(c.senders, step.i, Next(c, step).senders[step.i]);
    }
    hide InFlight, Inv;
  }

  lemma SmallCount(total: nat, depth: Usize, cap: Usize)
    requires depth == total % TWO_64 && total <= cap
    ensures depth == total
  {
  }

  lemma StepKeepsCapped<T>(c: Channel<T>, step: Step<T>, cap: Usize)
    requires Inv(c) && Capped(c, cap) && Enabled(c, step) && Checked(step, cap)
    ensures Capped(Next(c, step), cap)
  {
    StepKeepsTotalCapped(c, step, cap);
    forall i | 0 <= i < |Next(c, step).senders| ensures WithinCap(Next(c, step).senders[i], cap) {
      hide Inv, Total, WithinCap;
      SameSenders(c, step);
      StepKeepsWithinCap(c, step, cap, i);
    }
  }

  lemma SameSenders<T>(c: Channel<T>, step: Step<T>)
    requires Enabled(c, step)
    ensures |Next(c, step).senders| == |c.senders|
  {
  }

  /**
   With capacity-checked sends only, in every interleaving: the gauge is exact, it never wraps (each
   release finds it positive), and neither it nor the queue ever exceeds the cap.
   */
  lemma GaugeIsExactAndBounded<T>(channels: seq<Channel<T>>, steps: seq<Step<T>>, clones: nat, cap: Usize, n: nat)
    requires IsRun(channels, steps) && channels[0] == Fresh(clones) && n <= |steps|
    requires forall i :: 0 <= i < |steps| ==> Checked(steps[i], cap)
    ensures channels[n].depth == Total(channels[n]) <= cap && |channels[n].queue| <= cap
    ensures n < |steps| && (steps[n].Release? || steps[n].RollBack?) ==> channels[n].depth > 0
    ensures Capped(channels[n], cap)
  {
    NoneInFlight<T>(clones);
    for i := 0 to n
      invariant Inv(channels[i]) && Capped(channels[i], cap)
    {
      assert channels[i + 1] == Next(channels[i], steps[i]);
      StepKeepsInv(channels[i], steps[i]);
      StepKeepsCapped(channels[i], steps[i], cap);
    }
    if n < |steps| && steps[n].RollBack? {
      InFlightMoves(channels[n].senders, steps[n].i, Resting);
    }
  }

  lemma GoneStaysGone<T>(c: Channel<T>, step: Step<T>)
    requires Inv(c) && Enabled(c, step) && c.receiver.Gone?
    ensures OutcomeOf(c, step) in {None, Some(Closed)}
    ensures Next(c, step).receiver.Gone? && Next(c, step).dropped == c.dropped
  {
    assert !c.live;
  }

  /** In every run, once the receiver is gone no call reports a send or a shed, so every caller learns of it. */
  lemma {:induction false} GoneMeansClosed<T>(channels: seq<Channel<T>>, steps: seq<Step<T>>, clones: nat, i: nat,
                                              n: nat)
    requires IsRun(channels, steps) && channels[0] == Fresh(clones) && i <= n <= |steps| && channels[i].receiver.Gone?
    ensures channels[n].receiver.Gone? && channels[n].dropped == channels[i].dropped
    ensures n < |steps| ==> OutcomeOf(channels[n], steps[n]) in {None, Some(Closed)}
    decreases n
  {
    hide Inv, Next, OutcomeOf;
    GaugeCounts(channels, steps, clones, n);
    if n > i {
      GoneMeansClosed(channels, steps, clones, i, n - 1);
      GaugeCounts(channels, steps, clones, n - 1);
      GoneStaysGone(channels[n - 1], steps[n - 1]);
      assert channels[n] == Next(channels[n - 1], steps[n - 1]);
    }
    if n < |steps| { GoneStaysGone(channels[n], steps[n]); }
  }

  /** A call is refused exactly when, at its load, at least `cap` slots really are taken. */
  lemma RefusedOnlyWhenFull<T>(channels: seq<Channel<T>>, steps: seq<Step<T>>, clones: nat, cap: Usize, n: nat)
    requires IsRun(channels, steps) && channels[0] == Fresh(clones) && n < |steps|
    requires forall i :: 0 <= i < |steps| ==> Checked(steps[i], cap)
    requires steps[n].Load?
    ensures var i := steps[n].i;
            && i < |channels[n].senders| == |channels[n + 1].senders| && channels[n].senders[i].Loading?
            && (channels[n + 1].senders[i].Refused? <==> Total(channels[n]) >= channels[n].senders[i].cap)
  {
    GaugeIsExactAndBounded(channels, steps, clones, cap, n);
    assert channels[n + 1] == Next(channels[n], steps[n]);
  }
}
