/**
 Netlink process events: walking a datagram message by message, and counting lost events on a circular
 per-CPU counter. The header layout is that of section 2.3.2 of RFC 3549.
 */
module ProcEvents {
  import opened Presence
  import opened Bytes
  import Text

  const SIZE_NLMSGHDR: nat := 16
  const NLMSG_NOOP: nat := 1
  const NLMSG_ERROR: nat := 2
  const NLMSG_OVERRUN: nat := 4
  const CN_IDX_PROC: nat := 1
  const CN_VAL_PROC: nat := 1
  const SIZE_CN_MSG: nat := 20
  const PROC_EVENT_EXEC: nat := 0x0000_0002
  const PROC_EVENT_EXIT: nat := 0x8000_0000
  const U64_MAX: nat := TWO_64 - 1

  datatype ProcEvent = Exec(pid: nat) | Exit(pid: nat)

  /** One `cn_proc` data message as the visitor sees it. */
  datatype Visit = Visit(cpu: nat, sequence: nat, event: Option<ProcEvent>)

  // ---------------------------------------------------------------- the walk

  function U32At(b: seq<Byte>, at: nat): (n: nat)
    requires at + 4 <= |b|
    ensures n < TWO_32
  {
    FromLe(b[at..at + 4])
  }

  function U16At(b: seq<Byte>, at: nat): nat
    requires at + 2 <= |b|
  {
    b[at] as int + 256 * b[at + 1] as int
  }

  function EventOf(what: nat, pid: nat): Option<ProcEvent> {
    if what == PROC_EVENT_EXEC then Some(Exec(pid))
    else if what == PROC_EVENT_EXIT then Some(Exit(pid))
    else None
  }

  function ParseProcEvent(body: seq<Byte>): Option<ProcEvent> {
    if |body| < SIZE_CN_MSG + 20 then None
    else if U32At(body, 0) != CN_IDX_PROC || U32At(body, 4) != CN_VAL_PROC then None
    else EventOf(U32At(body, SIZE_CN_MSG), U32At(body, SIZE_CN_MSG + 16))
  }

  predicate IsControl(kind: nat) { kind == NLMSG_NOOP || kind == NLMSG_OVERRUN || kind == NLMSG_ERROR }

  /** An error acknowledgement with a code ends the datagram. */
  predicate Aborts(kind: nat, body: seq<Byte>) {
    kind == NLMSG_ERROR && |body| >= 4 && U32At(body, 0) != 0
  }

  /** What the visitor is called with for one message. */
  function VisitsOf(kind: nat, body: seq<Byte>): (visits: seq<Visit>)
    ensures |visits| <= 1
  {
    if IsControl(kind) || |body| < SIZE_CN_MSG + 8 then []
    else if U32At(body, 0) != CN_IDX_PROC || U32At(body, 4) != CN_VAL_PROC then []
    else [Visit(U32At(body, 24), U32At(body, 8), ParseProcEvent(body))]
  }

  datatype Framed = Framed(kind: nat, body: seq<Byte>, next: nat)

  /** The message at `offset`, unless the walk ends there: short, malformed or an error. */
  function MessageAt(buf: seq<Byte>, offset: nat): (m: Option<Framed>)
    requires offset <= |buf|
    ensures m.Some? ==> offset < m.value.next <= |buf|
  {
    if |buf| - offset < SIZE_NLMSGHDR then None
    else
      var len := U32At(buf, offset);
      if len < SIZE_NLMSGHDR || |buf| - offset < len then None
      else
        var kind, body := U16At(buf, offset + 4), buf[offset + SIZE_NLMSGHDR..offset + len];
        if Aborts(kind, body) then None else Some(Framed(kind, body, offset + len))
  }

  /** Every visit of a datagram, in order. */
  function Visits(buf: seq<Byte>, offset: nat): seq<Visit>
    requires offset <= |buf|
    decreases |buf| - offset
  {
    match MessageAt(buf, offset)
    case None => []
    case Some(m) => VisitsOf(m.kind, m.body) + Visits(buf, m.next)
  }

  // ---------------------------------------------------------------- loss accounting

  /** The counter's state: the last value per CPU, and the total missed. */
  datatype Tally = Tally(last: map<nat, nat>, missed: nat)

  /** Values a wrapping counter at `last` skipped before `sequence`. */
  function Distance(last: nat, sequence: nat): nat
    requires last < TWO_32 && sequence < TWO_32
  {
    (sequence - last - 1) % TWO_32
  }

  /** What one observation adds: forward jumps count, backward ones re-anchor. */
  function Counted(last: nat, sequence: nat): nat
    requires last < TWO_32 && sequence < TWO_32
  {
    if Distance(last, sequence) <= (TWO_32 - 1) / 2 then Distance(last, sequence) else 0
  }

  ghost predicate Counters(last: map<nat, nat>) {
    forall cpu :: cpu in last ==> last[cpu] < TWO_32
  }

  function Noted(t: Tally, cpu: nat, sequence: nat): Tally
    requires sequence < TWO_32 && (cpu in t.last ==> t.last[cpu] < TWO_32)
  {
    Tally(t.last[cpu := sequence],
          if cpu in t.last then Min(t.missed + Counted(t.last[cpu], sequence), U64_MAX) else t.missed)
  }

  class SeqTracker {
    var last: map<nat, nat>
    var missed: nat

    ghost predicate Valid()
      reads this
    {
      Counters(last) && missed <= U64_MAX
    }

    ghost function Tallied(): Tally
      reads this
    {
      Tally(last, missed)
    }

    constructor ()
      ensures Valid() && Tallied() == Tally(map[], 0)
    {
      last, missed := map[], 0;
    }

    method Note(cpu: nat, sequence: nat) returns (gap: nat)
      requires Valid() && sequence < TWO_32
      modifies this
      ensures Valid() && Tallied() == Noted(old(Tallied()), cpu, sequence)
      ensures gap == if cpu in old(last) then Counted(old(last)[cpu], sequence) else 0
    {
      if cpu !in last {
        last := last[cpu := sequence];
        return 0;
      }
      var expected := (last[cpu] + 1) % TWO_32;
      WrappingDistance(last[cpu], sequence);
      if sequence == expected {
        last := last[cpu := sequence];
        return 0;
      }
      var jumped := (sequence - expected) % TWO_32;
      last := last[cpu := sequence];
      if jumped <= (TWO_32 - 1) / 2 {
        missed := Min(missed + jumped, U64_MAX);
        return jumped;
      }
      return 0;
    }
  }

  lemma WrappingDistance(last: nat, sequence: nat)
    requires last < TWO_32 && sequence < TWO_32
    ensures (sequence - (last + 1) % TWO_32) % TWO_32 == Distance(last, sequence)
    ensures sequence == (last + 1) % TWO_32 <==> Distance(last, sequence) == 0
  {
  }

  // ---------------------------------------------------------------- forwarding

  function Lifecycle(visits: seq<Visit>): seq<ProcEvent> {
    if visits == [] then []
    else
      var v := visits[|visits| - 1];
      Lifecycle(visits[..|visits| - 1]) + if v.event.Some? then [v.event.value] else []
  }

  function NotedAll(t: Tally, visits: seq<Visit>): Tally
    requires Counters(t.last) && forall v :: v in visits ==> v.sequence < TWO_32
    ensures Counters(NotedAll(t, visits).last)
  {
    if visits == [] then t
    else
      var n := |visits| - 1;
      Noted(NotedAll(t, visits[..n]), visits[n].cpu, visits[n].sequence)
  }

  lemma {:induction false} VisitedSequences(buf: seq<Byte>, offset: nat)
    requires offset <= |buf|
    ensures Fit(Visits(buf, offset))
    decreases |buf| - offset
  {
    if MessageAt(buf, offset).Some? {
      VisitedSequences(buf, MessageAt(buf, offset).value.next);
    }
  }

  lemma LifecycleNext(visits: seq<Visit>, v: Visit)
    ensures Lifecycle(visits + [v]) == Lifecycle(visits) + if v.event.Some? then [v.event.value] else []
  {
    assert (visits + [v])[..|visits|] == visits;
  }

  lemma NotedNext(t: Tally, visits: seq<Visit>, v: Visit)
    requires Counters(t.last) && forall w :: w in visits + [v] ==> w.sequence < TWO_32
    ensures (forall w :: w in visits ==> w.sequence < TWO_32) && v.sequence < TWO_32
    ensures NotedAll(t, visits + [v]) == Noted(NotedAll(t, visits), v.cpu, v.sequence)
  {
    assert (visits + [v])[..|visits|] == visits && v in visits + [v];
    forall w | w in visits ensures w.sequence < TWO_32 { assert w in visits + [v]; }
  }

  lemma {:induction false} LifecycleJoins(a: seq<Visit>, b: seq<Visit>)
    ensures Lifecycle(a + b) == Lifecycle(a) + Lifecycle(b)
    decreases |b|
  {
    if b == [] {
      assert a + b == a;
    } else {
      var n := |b| - 1;
      LifecycleJoins(a, b[..n]);
      LifecycleNext(a + b[..n], b[n]);
      assert a + b == (a + b[..n]) + [b[n]];
    }
  }

  lemma {:induction false} LifecyclePrefix(all: seq<Visit>, k: nat)
    requires k <= |all|
    ensures Lifecycle(all[..k]) <= Lifecycle(all)
    decreases |all| - k
  {
    if k == |all| {
      assert all[..k] == all;
    } else {
      assert all[..k + 1] == all[..k] + [all[k]];
      LifecycleNext(all[..k], all[k]);
      LifecyclePrefix(all, k + 1);
    }
  }

  /** All sequence numbers fit. */
  ghost predicate Fit(visits: seq<Visit>) { forall v :: v in visits ==> v.sequence < TWO_32 }

  /** The first `k` visits have been noted and their events forwarded. */
  ghost predicate Handled(all: seq<Visit>, k: nat, before: Tally, after: Tally, events: seq<ProcEvent>) {
    && k <= |all| && Counters(before.last) && Fit(all[..k])
    && after == NotedAll(before, all[..k]) && events == Lifecycle(all[..k])
  }

  lemma HandledNext(all: seq<Visit>, k: nat, before: Tally, after: Tally, events: seq<ProcEvent>)
    requires Handled(all, k, before, after, events) && k < |all| && Fit(all)
    ensures InRange(after.last, all[k].cpu) && all[k].sequence < TWO_32
    ensures Handled(all, k + 1, before, Noted(after, all[k].cpu, all[k].sequence),
                    events + if all[k].event.Some? then [all[k].event.value] else [])
  {
    assert all[k] in all && all[..k + 1] == all[..k] + [all[k]];
    assert Fit(all[..k + 1]);
    NotedNext(before, all[..k], all[k]);
    LifecycleNext(all[..k], all[k]);
  }

  ghost predicate InRange(last: map<nat, nat>, cpu: nat) { cpu in last ==> last[cpu] < TWO_32 }

  /** What the receiver's channel says to one event: taken, shed at its cap, or the receiver is gone. */
  datatype Answer = Sent | Shed | Closed

  /** How many of `n` events are offered and not met by a gone receiver; `answer` is asked from `from` on. */
  function Reach(answer: nat -> Answer, from: nat, n: nat): (k: nat)
    ensures k <= n && NoneClosed(answer, from, k) && (k < n ==> answer(from + k).Closed?)
    decreases n
  {
    if n == 0 || answer(from).Closed? then 0 else 1 + Reach(answer, from + 1, n - 1)
  }

  predicate NoneClosed(answer: nat -> Answer, from: nat, n: nat) {
    forall i :: from <= i < from + n ==> !answer(i).Closed?
  }

  lemma {:induction false} ReachIs(answer: nat -> Answer, from: nat, n: nat, k: nat)
    requires k <= n && NoneClosed(answer, from, k) && (k < n ==> answer(from + k).Closed?)
    ensures Reach(answer, from, n) == k
    ensures NoneClosed(answer, from, n) <==> k == n
    decreases k
  {
    if k > 0 { ReachIs(answer, from + 1, n - 1, k - 1); }
  }

  /** Events stop at a gone receiver: what was forwarded are the first ones. */
  lemma StoppedAt(all: seq<Visit>, k: nat, events: seq<ProcEvent>, e: ProcEvent)
    requires k <= |all| && Lifecycle(all[..k]) == events + [e]
    ensures |events| < |Lifecycle(all)| && events == Lifecycle(all)[..|events|]
  {
    LifecyclePrefix(all, k);
    assert (events + [e])[..|events|] == events;
  }

  /**
   One datagram's outcome: the first `k` visits were noted, all of them unless the receiver is gone; the events
   offered to it are all of the datagram's, or the first ones up to the one that finds it gone.
   */
  ghost predicate Offered(all: seq<Visit>, k: nat, before: Tally, after: Tally, events: seq<ProcEvent>, gone: bool,
                          answer: nat -> Answer, from: nat)
  {
    && k <= |all| && Counters(before.last) && Fit(all[..k]) && after == NotedAll(before, all[..k])
    && events == Lifecycle(all)[..Reach(answer, from, |Lifecycle(all)|)]
    && (gone <==> !NoneClosed(answer, from, |Lifecycle(all)|))
    && (!gone ==> k == |all|)
  }

  lemma OfferedAll(all: seq<Visit>, k: nat, before: Tally, after: Tally, events: seq<ProcEvent>,
                   answer: nat -> Answer, from: nat)
    requires Handled(all, k, before, after, events) && k == |all| && NoneClosed(answer, from, |events|)
    ensures Offered(all, k, before, after, events, false, answer, from)
  {
    hide Lifecycle, NotedAll, Fit, NoneClosed, Reach;
    assert all[..k] == all;
    ReachIs(answer, from, |events|, |events|);
  }

  lemma OfferedUntilGone(all: seq<Visit>, k: nat, before: Tally, after: Tally, events: seq<ProcEvent>, e: ProcEvent,
                         answer: nat -> Answer, from: nat)
    requires Handled(all, k, before, after, events + [e]) && NoneClosed(answer, from, |events|)
    requires answer(from + |events|).Closed?
    ensures Offered(all, k, before, after, events, true, answer, from)
  {
    hide Lifecycle, NotedAll, Fit, NoneClosed, Reach;
    StoppedAt(all, k, events, e);
    ReachIs(answer, from, |Lifecycle(all)|, |events|);
  }

  /** The visitor: note the sequence, then forward the event unless the receiver is gone. */
  method Observe(v: Visit, seqs: SeqTracker, so: seq<ProcEvent>, answer: nat -> Answer, from: nat,
                 ghost all: seq<Visit>, ghost k: nat, ghost before: Tally)
    returns (stop: bool, events: seq<ProcEvent>)
    requires seqs.Valid() && Fit(all) && k < |all| && all[k] == v && NoneClosed(answer, from, |so|)
    requires Handled(all, k, before, seqs.Tallied(), so)
    modifies seqs
    ensures seqs.Valid()
    ensures !stop ==> Handled(all, k + 1, before, seqs.Tallied(), events) && NoneClosed(answer, from, |events|)
    ensures stop ==> Offered(all, k + 1, before, seqs.Tallied(), events, true, answer, from)
  {
    hide Offered, Lifecycle, NotedAll;
    HandledNext(all, k, before, seqs.Tallied(), so);
    var gap := seqs.Note(v.cpu, v.sequence);
    stop, events := false, so;
    if v.event.Some? {
      if answer(from + |so|).Closed? {
        stop := true;
        OfferedUntilGone(all, k + 1, before, seqs.Tallied(), so, v.event.value, answer, from);
      } else {
        events := so + [v.event.value];
      }
    }
  }

  lemma NextVisit(all: seq<Visit>, k: nat, v: Visit, others: seq<Visit>)
    requires k <= |all| && all[k..] == [v] + others
    ensures k < |all| && all[k] == v && all[k + 1..] == others
  {
    assert all[k..][0] == v && all[k..][1..] == others;
  }

  /**
   One datagram: every visit is noted, every lifecycle event forwarded in order, until the receiver is
   gone. `answer` is asked for one event after the other, from `from` on.
   */
  method ForwardProcEvents(buf: seq<Byte>, seqs: SeqTracker, answer: nat -> Answer, from: nat)
    returns (events: seq<ProcEvent>, gone: bool, ghost k: nat)
    requires seqs.Valid()
    modifies seqs
    ensures seqs.Valid()
    ensures Offered(Visits(buf, 0), k, old(seqs.Tallied()), seqs.Tallied(), events, gone, answer, from)
  {
    ghost var all, before := Visits(buf, 0), seqs.Tallied();
    events, gone, k := [], false, 0;
    var offset := 0;
    HandledNothing(all, before);
    VisitedSequences(buf, 0);
    assert all[0..] == all && NoneClosed(answer, from, 0);
    hide VisitsOf, Handled, Offered, Fit, NoneClosed;
    while true
      invariant offset <= |buf| && seqs.Valid() && NoneClosed(answer, from, |events|)
      invariant Handled(all, k, before, seqs.Tallied(), events) && k <= |all| && all[k..] == Visits(buf, offset)
      decreases |buf| - offset
    {
      var message := MessageAt(buf, offset);
      if message.None? { break; }
      var visits := VisitsOf(message.value.kind, message.value.body);
      if visits != [] {
        assert visits == [visits[0]];
        NextVisit(all, k, visits[0], Visits(buf, message.value.next));
        gone, events := Observe(visits[0], seqs, events, answer, from, all, k, before);
        k := k + 1;
        if gone { return; }
      }
      offset := message.value.next;
    }
    gone := false;
    OfferedAll(all, k, before, seqs.Tallied(), events, answer, from);
  }

  lemma HandledNothing(all: seq<Visit>, before: Tally)
    requires Counters(before.last)
    ensures Handled(all, 0, before, before, [])
  {
    assert all[..0] == [];
  }

  // ---------------------------------------------------------------- the true counters

  /** The kernel's own counters behind a sequence of observations, and how many values went unseen. */
  datatype Truth = Truth(last: map<nat, nat>, skipped: nat)

  function TruthOf(cpus: seq<nat>, counts: seq<nat>): Truth
    requires |cpus| == |counts|
  {
    if cpus == [] then Truth(map[], 0)
    else
      var n := |cpus| - 1;
      var t := TruthOf(cpus[..n], counts[..n]);
      Truth(t.last[cpus[n] := counts[n]],
            t.skipped + if cpus[n] in t.last && counts[n] > t.last[cpus[n]] then counts[n] - t.last[cpus[n]] - 1 else 0)
  }

  /** Each counter moves forward, by less than half its range at a time. */
  ghost predicate SmallGaps(cpus: seq<nat>, counts: seq<nat>)
    requires |cpus| == |counts|
  {
    cpus != [] ==>
      var n := |cpus| - 1;
      var t := TruthOf(cpus[..n], counts[..n]);
      && SmallGaps(cpus[..n], counts[..n])
      && (cpus[n] in t.last ==> t.last[cpus[n]] < counts[n] <= t.last[cpus[n]] + 0x8000_0000)
  }

  lemma DistanceIsGap(before: nat, now: nat)
    requires before < now
    ensures Distance(before % TWO_32, now % TWO_32) == (now - before - 1) % TWO_32
  {
    var a, b := before / TWO_32, now / TWO_32;
    assert now - before - 1 == (b - a) * TWO_32 + (now % TWO_32 - before % TWO_32 - 1);
    ModShift(now % TWO_32 - before % TWO_32 - 1, b - a);
  }

  lemma ModShift(x: int, k: int)
    ensures (k * TWO_32 + x) % TWO_32 == x % TWO_32
  {
    var q := x / TWO_32;
    assert k * TWO_32 + x == (k + q) * TWO_32 + x % TWO_32;
    SmallRemainder(k + q, x % TWO_32);
  }

  lemma SmallRemainder(q: int, r: int)
    requires 0 <= r < TWO_32
    ensures (q * TWO_32 + r) % TWO_32 == r
  {
  }

  /** A gap is counted exactly if and only if it is below half the counter's range. */
  lemma CountedIffSmall(before: nat, now: nat)
    requires before < now
    ensures Counted(before % TWO_32, now % TWO_32) == now - before - 1 <==> now - before - 1 < 0x8000_0000
  {
    DistanceIsGap(before, now);
  }

  function Wrapped(last: map<nat, nat>): map<nat, nat> {
    map cpu | cpu in last :: last[cpu] % TWO_32
  }

  ghost predicate Observes(visits: seq<Visit>, cpus: seq<nat>, counts: seq<nat>) {
    && |visits| == |cpus| == |counts|
    && forall i :: 0 <= i < |visits| ==> visits[i].cpu == cpus[i] && visits[i].sequence == counts[i] % TWO_32
  }

  /**
   The loss count is right across wrap-around: whenever each gap stays below half the counter's range,
   the total missed is the number of counter values skipped on all CPUs (capped at the counter's own width).
   */
  lemma {:induction false} MissedIsSkipped(visits: seq<Visit>, cpus: seq<nat>, counts: seq<nat>)
    requires Observes(visits, cpus, counts) && SmallGaps(cpus, counts) && Fit(visits)
    ensures var t := TruthOf(cpus, counts);
            NotedAll(Tally(map[], 0), visits) == Tally(Wrapped(t.last), Min(t.skipped, U64_MAX))
    decreases |visits|
  {
    if visits != [] {
      var n := |visits| - 1;
      assert Fit(visits[..n]);
      MissedIsSkipped(visits[..n], cpus[..n], counts[..n]);
      var t := TruthOf(cpus[..n], counts[..n]);
      TallyStep(t, cpus[n], counts[n]);
    }
  }

  lemma TallyStep(t: Truth, cpu: nat, count: nat)
    requires cpu in t.last ==> t.last[cpu] < count <= t.last[cpu] + 0x8000_0000
    ensures Noted(Tally(Wrapped(t.last), Min(t.skipped, U64_MAX)), cpu, count % TWO_32) ==
            Tally(Wrapped(t.last[cpu := count]),
                  Min(t.skipped + if cpu in t.last then count - t.last[cpu] - 1 else 0, U64_MAX))
  {
    if cpu in t.last { CountedIffSmall(t.last[cpu], count); }
    assert Wrapped(t.last[cpu := count]) == Wrapped(t.last)[cpu := count % TWO_32];
  }

  // ---------------------------------------------------------------- the watch

  /** What one receive brings, and whether the shutdown flag was up behind it. */
  datatype Receipt =
    | Bytes(bytes: seq<Byte>, stop: bool)
    | Deadline(stop: bool)
    | Again                               // interrupted, overrun or empty: stay subscribed
    | Failed

  predicate Goes(r: Receipt) {
    match r
    case Bytes(_, stop) => !stop
    case Deadline(stop) => !stop
    case Again => true
    case Failed => false
  }

  /** Every visit of the datagrams up to the end of the watch. */
  function AllVisits(receipts: seq<Receipt>): seq<Visit> {
    if receipts == [] || !Goes(receipts[0]) then []
    else (if receipts[0].Bytes? then Visits(receipts[0].bytes, 0) else []) + AllVisits(receipts[1..])
  }

  lemma {:induction false} NotedJoins(t: Tally, a: seq<Visit>, b: seq<Visit>)
    requires Counters(t.last) && Fit(a) && Fit(b)
    ensures Fit(a + b) && NotedAll(t, a + b) == NotedAll(NotedAll(t, a), b)
    decreases |b|
  {
    if b == [] {
      assert a + b == a;
    } else {
      var n := |b| - 1;
      assert Fit(b[..n]) && b[n] in b;
      NotedJoins(t, a, b[..n]);
      assert a + b == (a + b[..n]) + [b[n]];
      NotedNext(t, a + b[..n], b[n]);
    }
  }

  /** The visits so far, noted and forwarded. */
  ghost predicate Caught(done: seq<Visit>, tally: Tally, events: seq<ProcEvent>) {
    Fit(done) && tally == NotedAll(Tally(map[], 0), done) && events == Lifecycle(done)
  }

  lemma CaughtMore(done: seq<Visit>, tally: Tally, events: seq<ProcEvent>, more: seq<Visit>)
    requires Caught(done, tally, events) && Fit(more)
    ensures Counters(tally.last) && Caught(done + more, NotedAll(tally, more), events + Lifecycle(more))
  {
    NotedJoins(Tally(map[], 0), done, more);
    LifecycleJoins(done, more);
  }

  /** The loss count is the number of counter values skipped, whenever each gap stays below half the range. */
  ghost predicate CountsLosses(visits: seq<Visit>, missed: nat) {
    forall cpus, counts :: Observes(visits, cpus, counts) && SmallGaps(cpus, counts) ==>
      missed == Min(TruthOf(cpus, counts).skipped, U64_MAX)
  }

  lemma CaughtCounts(done: seq<Visit>, tally: Tally, events: seq<ProcEvent>)
    requires Caught(done, tally, events)
    ensures CountsLosses(done, tally.missed)
  {
    forall cpus, counts | Observes(done, cpus, counts) && SmallGaps(cpus, counts)
      ensures tally.missed == Min(TruthOf(cpus, counts).skipped, U64_MAX)
    {
      hide NotedAll, TruthOf, SmallGaps, Observes, Lifecycle;
      MissedIsSkipped(done, cpus, counts);
    }
  }

  /** Where the receiver goes away, what was offered are the first events of the watch. */
  lemma GoneAt(done: seq<Visit>, more: seq<Visit>, others: seq<Visit>, answer: nat -> Answer)
    requires NoneClosed(answer, 0, |Lifecycle(done)|)
    requires !NoneClosed(answer, |Lifecycle(done)|, |Lifecycle(more)|)
    ensures var all, k := Lifecycle(done + (more + others)), Reach(answer, |Lifecycle(done)|, |Lifecycle(more)|);
            && Reach(answer, 0, |all|) == |Lifecycle(done)| + k
            && all[..|Lifecycle(done)| + k] == Lifecycle(done) + Lifecycle(more)[..k]
            && !NoneClosed(answer, 0, |all|)
  {
    LifecycleJoins(more, others);
    LifecycleJoins(done, more + others);
    hide Lifecycle;
    var m, k := |Lifecycle(done)|, Reach(answer, |Lifecycle(done)|, |Lifecycle(more)|);
    assert answer(m + k).Closed?;
    ReachIs(answer, 0, |Lifecycle(done + (more + others))|, m + k);
  }

  /** Of the events offered, those the channel took; a shed one is lost and the next may still be taken. */
  function Received(offered: seq<ProcEvent>, answer: nat -> Answer): seq<ProcEvent> {
    if offered == [] then []
    else
      var n := |offered| - 1;
      Received(offered[..n], answer) + if answer(n).Sent? then [offered[n]] else []
  }

  /** The same, from an offset. */
  function ReceivedFrom(offered: seq<ProcEvent>, answer: nat -> Answer, from: nat): seq<ProcEvent> {
    if offered == [] then []
    else (if answer(from).Sent? then [offered[0]] else []) + ReceivedFrom(offered[1..], answer, from + 1)
  }

  lemma {:induction false} ReceivedJoins(first: seq<ProcEvent>, second: seq<ProcEvent>, answer: nat -> Answer)
    ensures Received(first + second, answer) == Received(first, answer) + ReceivedFrom(second, answer, |first|)
    decreases |second|
  {
    if second == [] {
      assert first + second == first;
    } else {
      var one := [second[0]];
      Text.Regroup(first, one, second[1..]);
      assert second == one + second[1..];
      ReceivedJoins(first + one, second[1..], answer);
      assert (first + one)[..|first|] == first;
      Text.Regroup(Received(first, answer), if answer(|first|).Sent? then one else [],
                   ReceivedFrom(second[1..], answer, |first| + 1));
    }
  }

  /** The receiver has all that was offered if and only if nothing was shed. */
  lemma {:induction false} ReceivedAllIff(offered: seq<ProcEvent>, answer: nat -> Answer)
    ensures |Received(offered, answer)| <= |offered|
    ensures Received(offered, answer) == offered <==> forall i :: 0 <= i < |offered| ==> answer(i).Sent?
  {
    if offered != [] {
      var n := |offered| - 1;
      ReceivedAllIff(offered[..n], answer);
      SameEnd(Received(offered[..n], answer), offered[..n], offered[n]);
      assert offered[..n] + [offered[n]] == offered;
    }
  }

  lemma SameEnd(a: seq<ProcEvent>, b: seq<ProcEvent>, e: ProcEvent)
    ensures a + [e] == b + [e] <==> a == b
  {
    if a + [e] == b + [e] { assert (a + [e])[..|a|] == (b + [e])[..|b|]; }
  }

  /** What a watch over these visits comes to. */
  ghost predicate WatchResult(visits: seq<Visit>, answer: nat -> Answer, offered: seq<ProcEvent>,
                              received: seq<ProcEvent>, missed: nat)
  {
    var all := Lifecycle(visits);
    && offered == all[..Reach(answer, 0, |all|)] && received == Received(offered, answer)
    && (NoneClosed(answer, 0, |all|) ==> CountsLosses(visits, missed))
  }

  /** The visits so far, noted and offered, and the receiver still there. */
  ghost predicate Watched(done: seq<Visit>, tally: Tally, offered: seq<ProcEvent>, received: seq<ProcEvent>,
                          answer: nat -> Answer)
  {
    Caught(done, tally, offered) && NoneClosed(answer, 0, |offered|) && received == Received(offered, answer)
  }

  lemma WatchedMore(done: seq<Visit>, tally: Tally, offered: seq<ProcEvent>, received: seq<ProcEvent>,
                    answer: nat -> Answer, more: seq<Visit>, k: nat, tally': Tally, forwarded: seq<ProcEvent>)
    requires Watched(done, tally, offered, received, answer) && Fit(more)
    requires Offered(more, k, tally, tally', forwarded, false, answer, |offered|)
    ensures Watched(done + more, tally', offered + forwarded, received + ReceivedFrom(forwarded, answer, |offered|),
                    answer)
  {
    hide Lifecycle, NotedAll, Received, ReceivedFrom, Fit, Counters, Reach;
    ReachIs(answer, |offered|, |Lifecycle(more)|, |Lifecycle(more)|);
    assert more[..k] == more && forwarded == Lifecycle(more);
    CaughtMore(done, tally, offered, more);
    ReceivedJoins(offered, forwarded, answer);
  }

  lemma WatchedGone(done: seq<Visit>, tally: Tally, offered: seq<ProcEvent>, received: seq<ProcEvent>,
                    answer: nat -> Answer, more: seq<Visit>, k: nat, tally': Tally, forwarded: seq<ProcEvent>,
                    others: seq<Visit>)
    requires Watched(done, tally, offered, received, answer)
    requires Offered(more, k, tally, tally', forwarded, true, answer, |offered|)
    ensures WatchResult(done + (more + others), answer, offered + forwarded,
                        received + ReceivedFrom(forwarded, answer, |offered|), tally'.missed)
  {
    hide Lifecycle, NotedAll, Received, ReceivedFrom, Fit, Counters, Reach, NoneClosed;
    GoneAt(done, more, others, answer);
    ReceivedJoins(offered, forwarded, answer);
  }

  lemma WatchedAll(done: seq<Visit>, tally: Tally, offered: seq<ProcEvent>, received: seq<ProcEvent>,
                   answer: nat -> Answer)
    requires Watched(done, tally, offered, received, answer)
    ensures WatchResult(done, answer, offered, received, tally.missed)
  {
    hide Lifecycle, NotedAll, Received, Fit, Counters, Reach, NoneClosed, CountsLosses;
    ReachIs(answer, 0, |offered|, |offered|);
    CaughtCounts(done, tally, offered);
  }

  lemma NothingWatched(answer: nat -> Answer)
    ensures Watched([], Tally(map[], 0), [], [], answer)
  {
  }

  /**
   The watch: one counter over all datagrams, and one answer of the receiver's channel per lifecycle event.
   Every event is offered, in order, up to the first one that finds the receiver gone; the receiver holds exactly
   those that were not shed; and while it stays, the losses counted are those that happened, across datagrams and
   wrap-around.
   */
  method Watch(receipts: seq<Receipt>, answer: nat -> Answer)
    returns (received: seq<ProcEvent>, missed: nat, ghost offered: seq<ProcEvent>)
    ensures WatchResult(AllVisits(receipts), answer, offered, received, missed)
  {
    hide WatchResult, Watched, Offered, Visits, Fit, ReceivedFrom;
    var seqs := new SeqTracker();
    ghost var done := [];
    var count := 0;
    offered, received := [], [];
    NothingWatched(answer);
    for i := 0 to |receipts|
      invariant seqs.Valid() && fresh(seqs) && count == |offered|
      invariant Watched(done, seqs.Tallied(), offered, received, answer)
      invariant AllVisits(receipts) == done + AllVisits(receipts[i..])
    {
      var r := receipts[i];
      assert receipts[i..][0] == r && receipts[i..][1..] == receipts[i + 1..];
      if !Goes(r) {
        assert AllVisits(receipts[i..]) == [] && done + [] == done;
        break;
      }
      if !r.Bytes? {
        assert [] + AllVisits(receipts[i + 1..]) == AllVisits(receipts[i + 1..]);
        continue;
      }
      ghost var more, others, before := Visits(r.bytes, 0), AllVisits(receipts[i + 1..]), seqs.Tallied();
      VisitedSequences(r.bytes, 0);
      Text.Regroup(done, more, others);
      var forwarded, gone;
      ghost var k;
      forwarded, gone, k := ForwardProcEvents(r.bytes, seqs, answer, count);
      missed := seqs.missed;
      if gone {
        WatchedGone(done, before, offered, received, answer, more, k, seqs.Tallied(), forwarded, others);
      } else {
        WatchedMore(done, before, offered, received, answer, more, k, seqs.Tallied(), forwarded);
      }
      received, offered := received + ReceivedFrom(forwarded, answer, count), offered + forwarded;
      if gone { return; }
      count, done := count + |forwarded|, done + more;
    }
    assert done + [] == done && receipts[|receipts|..] == [];
    missed := seqs.missed;
    WatchedAll(done, seqs.Tallied(), offered, received, answer);
  }
}
