/**
 Directed shutdown: three workers that register, check a flag and park, against `signal`, which sets the
 flag, unparks every registered thread under the registry lock and then the scan thread's slot.
 */
module Shutdown {

  datatype Worker = Refresher | Watcher | Scanner

  /** Where a worker is: what it will do next. */
  datatype Place =
    | Registering
      // the refresh thread
    | PrimeCheck | Priming | HourCheck | HourPark | WokenCheck | Fetching | TrimCheck | TrimPark | TrimmedCheck
    | Trimming
      // the proc-events watcher
    | WatchCheck | Watching | RetryCheck | RetryPark
      // the scan thread
    | ScanCheck | Scanning | ErrorPark | Delivering | CadenceCheck | CadencePark | AwakeCheck
    | Exited
  {
    predicate Parks() { this in {HourPark, TrimPark, RetryPark, ErrorPark, CadencePark} }

    predicate Checks() {
      this in {PrimeCheck, HourCheck, WokenCheck, TrimCheck, TrimmedCheck, WatchCheck, RetryCheck,
               ScanCheck, CadenceCheck, AwakeCheck}
    }

    /** A park can be reached from here without passing a flag check first. */
    predicate Exposed() { Parks() || Scanning? }
  }

  /** Where a place leads: what lies behind it when the flag is down, or whatever its work comes to. */
  function Leads(w: Worker, p: Place): set<Place> {
    match p
    case Registering => {match w case Refresher => PrimeCheck case Watcher => WatchCheck case Scanner => ScanCheck}
    case PrimeCheck => {Priming}
    case Priming => {HourCheck}
    case HourCheck => {HourPark}
    case HourPark => {WokenCheck}
    case WokenCheck => {Fetching}
    case Fetching => {HourCheck, TrimCheck}        // only an installed update trims
    case TrimCheck => {TrimPark}
    case TrimPark => {TrimmedCheck}
    case TrimmedCheck => {Trimming}
    case Trimming => {HourCheck}
    case WatchCheck => {Watching}
    case Watching => {Exited, RetryCheck}          // receiver gone or stopped; watcher failed
    case RetryCheck => {RetryPark}
    case RetryPark => {WatchCheck}
    case ScanCheck => {Scanning}
    case Scanning => {Delivering, ErrorPark}       // a failed scan parks without a check
    case ErrorPark => {ScanCheck}
    case Delivering => {Exited, CadenceCheck}      // receiver gone
    case CadenceCheck => {CadencePark}
    case CadencePark => {AwakeCheck}
    case AwakeCheck => {ScanCheck}
    case Exited => {}
  }

  datatype Signaler = Waiting | FlagSet | Walking(next: nat) | Walked | Done

  datatype State = State(flag: bool, signaler: Signaler, registry: seq<Worker>, scanSlot: bool,
                         refresher: Place, watcher: Place, scanner: Place, permits: set<Worker>)
  {
    function At(w: Worker): Place {
      match w case Refresher => refresher case Watcher => watcher case Scanner => scanner
    }

    function Moved(w: Worker, p: Place): State {
      match w
      case Refresher => this.(refresher := p)
      case Watcher => this.(watcher := p)
      case Scanner => this.(scanner := p)
    }
  }

  const Start := State(false, Waiting, [], false, Registering, Registering, Registering, {})

  datatype Step =
    | Own(w: Worker, to: Place, timedOut: bool)
    | SetFlag
    | Lock
    | UnparkNext
    | Unlock
    | WakeScan
    | OtherUnpark(woken: Worker)     // an EXIT wake, a failed watcher, another signal
    | OtherFlag                      // another signal

  predicate Enabled(s: State, step: Step) {
    match step
    case Own(w, to, timedOut) =>
      var p := s.At(w);
      && (if p.Checks() && s.flag then to == Exited else to in Leads(w, p))
      && (p.Registering? && w != Scanner ==> !s.signaler.Walking?)      // the registry lock is held meanwhile
      && (p.Parks() ==> w in s.permits || timedOut)
    case SetFlag => s.signaler.Waiting?
    case Lock => s.signaler.FlagSet?
    case UnparkNext => s.signaler.Walking? && s.signaler.next < |s.registry|
    case Unlock => s.signaler.Walking? && s.signaler.next >= |s.registry|
    case WakeScan => s.signaler.Walked?
    case _ => true
  }

  function Next(s: State, step: Step): State
    requires Enabled(s, step)
  {
    match step
    case Own(w, to, _) =>
      var moved := s.Moved(w, to);
      if s.At(w).Parks() then moved.(permits := s.permits - {w})
      else if s.At(w).Registering? then
        if w.Scanner? then moved.(scanSlot := true) else moved.(registry := s.registry + [w])
      else moved
    case SetFlag => s.(flag := true, signaler := FlagSet)
    case Lock => s.(signaler := Walking(0))
    case UnparkNext =>
      s.(permits := s.permits + {s.registry[s.signaler.next]}, signaler := Walking(s.signaler.next + 1))
    case Unlock => s.(signaler := Walked)
    case WakeScan => s.(signaler := Done, permits := if s.scanSlot then s.permits + {Scanner} else s.permits)
    case OtherUnpark(w) => s.(permits := s.permits + {w})
    case OtherFlag => s.(flag := true)
  }

  // ---------------------------------------------------------------- no lost wakeup

  /** The signal has gone past this worker's handle, whether it found it there or not. */
  predicate Passed(s: State, w: Worker) {
    match s.signaler
    case Waiting => false
    case FlagSet => false
    case Walking(k) => !w.Scanner? && k <= |s.registry| && w in s.registry[..k]
    case Walked => !w.Scanner?
    case Done => true
  }

  predicate Listed(s: State, w: Worker) {
    if w.Scanner? then s.scanSlot else w in s.registry
  }

  ghost predicate WorkerInv(s: State, w: Worker) {
    && (s.At(w).Registering? || Listed(s, w))
    && (Passed(s, w) && s.At(w).Exposed() ==> w in s.permits)
  }

  ghost predicate Inv(s: State) {
    && (!s.signaler.Waiting? ==> s.flag)
    && (s.signaler.Walking? ==> s.signaler.next <= |s.registry|)
    && forall w :: WorkerInv(s, w)
  }

  /** A worker gets into an exposed place only from one, or past a check that saw the flag down; never by parking. */
  lemma Exposure(w: Worker, p: Place, to: Place)
    requires to in Leads(w, p) && to.Exposed()
    ensures p.Checks() || (p.Scanning? && !p.Parks())
  {
  }

  /** The worker that steps: what it was passed over for it still holds, or it was not exposed. */
  lemma MoverKeepsInv(s: State, step: Step)
    requires Inv(s) && step.Own? && Enabled(s, step)
    ensures WorkerInv(Next(s, step), step.w)
  {
    assert WorkerInv(s, step.w);
    if step.to.Exposed() { Exposure(step.w, s.At(step.w), step.to); }
    hide Leads;
    SamePassed(s, step);
  }

  lemma BystanderKeepsInv(s: State, step: Step, w: Worker)
    requires Inv(s) && step.Own? && Enabled(s, step) && w != step.w
    ensures WorkerInv(Next(s, step), w)
  {
    assert WorkerInv(s, w);
    hide Leads;
    SamePassed(s, step);
  }

  /** A worker's own step moves the signal past nobody. */
  lemma SamePassed(s: State, step: Step)
    requires Inv(s) && step.Own? && Enabled(s, step)
    ensures forall w :: Passed(Next(s, step), w) ==> Passed(s, w)
  {
    hide Leads, WorkerInv;
    var s' := Next(s, step);
    if s'.signaler.Walking? && s'.signaler.next <= |s.registry| {
      assert s'.registry[..s'.signaler.next] == s.registry[..s'.signaler.next];
    }
  }

  lemma OwnStepKeepsInv(s: State, step: Step, w: Worker)
    requires Inv(s) && step.Own? && Enabled(s, step)
    ensures WorkerInv(Next(s, step), w)
  {
    if w == step.w { MoverKeepsInv(s, step); } else { BystanderKeepsInv(s, step, w); }
  }

  lemma SignalStepKeepsInv(s: State, step: Step, w: Worker)
    requires Inv(s) && !step.Own? && Enabled(s, step)
    ensures WorkerInv(Next(s, step), w)
  {
    assert WorkerInv(s, w);
    if step.UnparkNext? {
      var k := s.signaler.next;
      assert s.registry[..k + 1] == s.registry[..k] + [s.registry[k]];
    }
    if step.Unlock? && Listed(s, w) && !w.Scanner? {
      assert s.registry[..|s.registry|] == s.registry;
    }
  }

  ghost predicate IsRun(states: seq<State>, steps: seq<Step>) {
    && |states| == |steps| + 1
    && forall i {:trigger steps[i]} :: 0 <= i < |steps| ==>
         Enabled(states[i], steps[i]) && states[i + 1] == Next(states[i], steps[i])
  }

  lemma RunKeepsInv(states: seq<State>, steps: seq<Step>, n: nat)
    requires IsRun(states, steps) && states[0] == Start && n <= |steps|
    ensures Inv(states[n])
  {
    for i := 0 to n
      invariant Inv(states[i])
    {
      var s, step, s' := states[i], steps[i], states[i + 1];
      assert s' == Next(s, step);
      forall w ensures WorkerInv(s', w) {
        if step.Own? { OwnStepKeepsInv(s, step, w); } else { SignalStepKeepsInv(s, step, w); }
      }
    }
  }

  /** Once the signal is through, no worker is parked without a permit, in any interleaving. */
  lemma NoLostWakeup(states: seq<State>, steps: seq<Step>, n: nat, w: Worker)
    requires IsRun(states, steps) && states[0] == Start && n <= |steps|
    requires states[n].signaler.Done?
    ensures states[n].flag
    ensures states[n].At(w).Parks() ==> w in states[n].permits
  {
    RunKeepsInv(states, steps, n);
    assert WorkerInv(states[n], w);
  }

  // ---------------------------------------------------------------- every worker exits

  /** How many of its own steps separate a worker from its exit once the flag is up. */
  function Rank(p: Place): nat {
    if p.Exited? then 0
    else if p.Checks() then 1
    else if p.Scanning? then 3
    else 2
  }

  /** A worker that has not exited can always move, without waiting for a timeout. */
  lemma NeverStuck(s: State, w: Worker) returns (step: Step)
    requires Inv(s) && s.signaler.Done? && !s.At(w).Exited?
    ensures Enabled(s, step) && step.Own? && step.w == w && !step.timedOut
  {
    assert WorkerInv(s, w);
    var p := s.At(w);
    if p.Checks() && s.flag {
      step := Own(w, Exited, false);
    } else {
      assert Leads(w, p) != {};
      var to :| to in Leads(w, p);
      step := Own(w, to, false);
    }
  }

  /** With the flag up, each of a worker's own steps brings it closer to its exit; nobody else moves it. */
  lemma StepsApproachExit(s: State, step: Step, w: Worker)
    requires s.flag && Enabled(s, step)
    ensures var s' := Next(s, step);
            && s'.flag
            && Rank(s'.At(w)) <= Rank(s.At(w))
            && (step.Own? && step.w == w ==> Rank(s'.At(w)) < Rank(s.At(w)))
  {
  }

  function OwnSteps(steps: seq<Step>, w: Worker): nat {
    if steps == [] then 0
    else
      var last := steps[|steps| - 1];
      OwnSteps(steps[..|steps| - 1], w) + if last.Own? && last.w == w then 1 else 0
  }

  /** After the flag is up, a worker has exited by its third own step, whatever the others do. */
  lemma {:induction false} WorkersExit(states: seq<State>, steps: seq<Step>, n: nat, w: Worker)
    requires IsRun(states, steps) && states[0].flag && n <= |steps|
    ensures states[n].flag && Rank(states[n].At(w)) + OwnSteps(steps[..n], w) <= Rank(states[0].At(w)) <= 3
    ensures OwnSteps(steps[..n], w) >= 3 ==> states[n].At(w).Exited?
  {
    if n > 0 {
      WorkersExit(states, steps, n - 1, w);
      assert steps[..n][..n - 1] == steps[..n - 1];
      assert states[n] == Next(states[n - 1], steps[n - 1]);
      StepsApproachExit(states[n - 1], steps[n - 1], w);
    }
  }
}
