/**
 The detection database: writers serialize on a lock, rebuild from the current generation and swap it in;
 readers load it without locking.
 */
module Generations {
  import opened Presence
  import opened Bundle

  datatype Edit = Refresh(main: seq<Entry>) | Append(entries: seq<Entry>) | Remove(name: string)

  /** The two lists a generation is built from. */
  datatype Lists = Lists(main: seq<Entry>, custom: seq<Entry>)

  function Without(entries: seq<Entry>, name: string): (r: seq<Entry>)
    ensures forall e :: e in r <==> e in entries && e.name != name
    ensures |r| <= |entries|
  {
    if entries == [] then []
    else
      var n := |entries| - 1;
      assert entries == entries[..n] + [entries[n]];
      Without(entries[..n], name) + if entries[n].name == name then [] else [entries[n]]
  }

  lemma WithoutNext(a: seq<Entry>, e: Entry, name: string)
    ensures Without(a + [e], name) == Without(a, name) + if e.name == name then [] else [e]
  {
    assert (a + [e])[..|a|] == a;
  }

  /** What is left keeps its order and its repetitions. */
  lemma {:induction false} WithoutJoins(a: seq<Entry>, b: seq<Entry>, name: string)
    ensures Without(a + b, name) == Without(a, name) + Without(b, name)
    decreases |b|
  {
    hide Without;
    if b == [] {
      NoneLeft(name);
      assert a + b == a && Without(a, name) + [] == Without(a, name);
    } else {
      var n := |b| - 1;
      var last := if b[n].name == name then [] else [b[n]];
      WithoutJoins(a, b[..n], name);
      assert b == b[..n] + [b[n]];
      assert a + b == (a + b[..n]) + [b[n]];
      WithoutNext(a + b[..n], b[n], name);
      WithoutNext(b[..n], b[n], name);
      assert (Without(a, name) + Without(b[..n], name)) + last == Without(a, name) + (Without(b[..n], name) + last);
    }
  }

  lemma NoneLeft(name: string)
    ensures Without([], name) == []
  {
  }

  function Apply(edit: Edit, l: Lists): Lists {
    match edit
    case Refresh(main) => Lists(main, l.custom)
    case Append(entries) => Lists(l.main, l.custom + entries)
    case Remove(name) => Lists(l.main, Without(l.custom, name))
  }

  function ListsOf(g: Generation): Lists { Lists(g.list, g.custom) }

  // ---------------------------------------------------------------- one writer, under the lock

  class Database {
    const platform: Platform
    var current: Generation

    ghost predicate Valid()
      reads this
    {
      WellBuilt(current, platform)
    }

    constructor (main: seq<Entry>, custom: seq<Entry>, platform: Platform)
      requires Fits(main) && Fits(custom)
      ensures Valid() && ListsOf(current) == Lists(main, custom)
    {
      var g := BuildGeneration(main, custom, platform);
      this.platform, this.current := platform, g;
    }

    /** A rebuild that fails keeps the current generation. */
    method EditCustom(custom: seq<Entry>, fails: bool)
      requires Valid() && Fits(current.list) && Fits(custom)
      modifies this
      ensures Valid()
      ensures if fails then current == old(current) else ListsOf(current) == Lists(old(current).list, custom)
    {
      if !fails {
        current := BuildGeneration(current.list, custom, platform);
      }
    }

    /** An empty or failing update keeps the current generation, and says so. */
    method UpdateMainDetectables(main: seq<Entry>, fails: bool) returns (swapped: bool)
      requires Valid() && Fits(main) && Fits(current.custom)
      modifies this
      ensures Valid() && swapped == (main != [] && !fails)
      ensures if swapped then current.list == main && current.custom == old(current).custom else current == old(current)
      ensures swapped ==> ListsOf(current) == Apply(Refresh(main), ListsOf(old(current)))
    {
      if main == [] || fails { return false; }
      current := BuildGeneration(main, current.custom, platform);
      return true;
    }

    method AppendDetectables(entries: seq<Entry>, fails: bool)
      requires Valid() && Fits(current.list) && Fits(current.custom + entries)
      modifies this
      ensures Valid()
      ensures if fails then current == old(current)
              else current.list == old(current).list && current.custom == old(current).custom + entries
      ensures !fails ==> ListsOf(current) == Apply(Append(entries), ListsOf(old(current)))
    {
      EditCustom(current.custom + entries, fails);
    }

    method RemoveDetectableByName(name: string, fails: bool)
      requires Valid() && Fits(current.list) && Fits(Without(current.custom, name))
      modifies this
      ensures Valid()
      ensures fails ==> current == old(current)
      ensures !fails ==> current.list == old(current).list
      ensures !fails ==> forall e :: e in current.custom <==> e in old(current).custom && e.name != name
      ensures !fails ==> ListsOf(current) == Apply(Remove(name), ListsOf(old(current)))
    {
      EditCustom(Without(current.custom, name), fails);
    }
  }

  // ---------------------------------------------------------------- many writers, lock-free readers

  datatype Writer =
    | Resting
    | Waiting(edit: Edit)                       // wants the lock
    | Holding(edit: Edit)                       // has it, about to load
    | Loaded(edit: Edit, seen: Lists)           // building from what it loaded
    | Done                                      // stored or refused, about to release

  /** `acquired`, `accepted` and `observed` are bookkeeping of the model. */
  datatype System = System(current: Generation, lock: Option<nat>, writers: seq<Writer>,
                           acquired: seq<Edit>, accepted: seq<bool>, observed: seq<Generation>)

  datatype Step =
    | Ask(i: nat, edit: Edit)
    | Acquire(i: nat)
    | Load(i: nat)
    | Store(i: nat, built: Generation)
    | Refuse(i: nat)                            // the build failed
    | Release(i: nat)
    | Read                                      // any reader, at any time

  /** An empty refresh is turned away before the lock. */
  predicate Enters(edit: Edit) { !(edit.Refresh? && edit.main == []) }

  ghost predicate Enabled(s: System, step: Step, platform: Platform) {
    match step
    case Ask(i, _) => i < |s.writers| && s.writers[i].Resting?
    case Acquire(i) => i < |s.writers| && s.writers[i].Waiting? && s.lock.None?
    case Load(i) => i < |s.writers| && s.writers[i].Holding?
    case Store(i, built) =>
      && i < |s.writers| && s.writers[i].Loaded?
      && WellBuilt(built, platform) && ListsOf(built) == Apply(s.writers[i].edit, s.writers[i].seen)
    case Refuse(i) => i < |s.writers| && s.writers[i].Loaded?
    case Release(i) => i < |s.writers| && s.writers[i].Done?
    case Read => true
  }

  ghost function Next(s: System, step: Step, platform: Platform): System
    requires Enabled(s, step, platform)
  {
    match step
    case Ask(i, edit) => if Enters(edit) then s.(writers := s.writers[i := Waiting(edit)]) else s
    case Acquire(i) =>
      var edit := s.writers[i].edit;
      s.(lock := Some(i), writers := s.writers[i := Holding(edit)], acquired := s.acquired + [edit])
    case Load(i) => s.(writers := s.writers[i := Loaded(s.writers[i].edit, ListsOf(s.current))])
    case Store(i, built) => s.(current := built, writers := s.writers[i := Done], accepted := s.accepted + [true])
    case Refuse(i) => s.(writers := s.writers[i := Done], accepted := s.accepted + [false])
    case Release(i) => s.(lock := None, writers := s.writers[i := Resting])
    case Read => s.(observed := s.observed + [s.current])
  }

  /** The accepted edits, in the order their writers got the lock. */
  function Folded(start: Lists, acquired: seq<Edit>, accepted: seq<bool>): Lists
    requires |accepted| <= |acquired|
    decreases |accepted|
  {
    if accepted == [] then start
    else
      var n := |accepted| - 1;
      var before := Folded(start, acquired, accepted[..n]);
      if accepted[n] then Apply(acquired[n], before) else before
  }

  /** Whoever is between acquire and release holds the lock; the decided edits are all but perhaps its own. */
  ghost predicate LockInv(s: System) {
    && (forall i :: 0 <= i < |s.writers| ==>
          (s.writers[i].Holding? || s.writers[i].Loaded? || s.writers[i].Done? <==> s.lock == Some(i)))
    && match s.lock
       case None => |s.accepted| == |s.acquired|
       case Some(h) =>
         && h < |s.writers|
         && (if s.writers[h].Done? then |s.accepted| == |s.acquired|
             else |s.accepted| + 1 == |s.acquired| && s.acquired[|s.accepted|] == s.writers[h].edit)
         && (s.writers[h].Loaded? ==> s.writers[h].seen == ListsOf(s.current))
  }

  ghost predicate Inv(s: System, start: Lists, platform: Platform) {
    && LockInv(s) && |s.accepted| <= |s.acquired|
    && ListsOf(s.current) == Folded(start, s.acquired, s.accepted)
    && WellBuilt(s.current, platform)
    && (forall k :: 0 <= k < |s.observed| ==> Observed(s.observed[k], start, s.acquired, s.accepted, platform))
  }

  /** A generation some reader saw: well indexed, and the outcome of a prefix of the edits. */
  ghost predicate Observed(g: Generation, start: Lists, acquired: seq<Edit>, accepted: seq<bool>, platform: Platform) {
    && WellBuilt(g, platform)
    && exists n :: 0 <= n <= |accepted| <= |acquired| && ListsOf(g) == Folded(start, acquired, accepted[..n])
  }

  lemma {:induction false} FoldedIgnoresRest(start: Lists, acquired: seq<Edit>, more: seq<Edit>, accepted: seq<bool>)
    requires |accepted| <= |acquired|
    ensures Folded(start, acquired + more, accepted) == Folded(start, acquired, accepted)
    decreases |accepted|
  {
    if accepted != [] {
      FoldedIgnoresRest(start, acquired, more, accepted[..|accepted| - 1]);
    }
  }

  lemma FoldedNext(start: Lists, acquired: seq<Edit>, accepted: seq<bool>, yes: bool)
    requires |accepted| < |acquired|
    ensures Folded(start, acquired, accepted + [yes]) ==
            var before := Folded(start, acquired, accepted);
            if yes then Apply(acquired[|accepted|], before) else before
  {
    assert (accepted + [yes])[..|accepted|] == accepted;
  }

  lemma StillObserved(g: Generation, start: Lists, acquired: seq<Edit>, accepted: seq<bool>, platform: Platform,
                      edits: seq<Edit>, decided: seq<bool>)
    requires Observed(g, start, acquired, accepted, platform) && |accepted + decided| <= |acquired + edits|
    ensures Observed(g, start, acquired + edits, accepted + decided, platform)
  {
    var n :| 0 <= n <= |accepted| <= |acquired| && ListsOf(g) == Folded(start, acquired, accepted[..n]);
    FoldedIgnoresRest(start, acquired, edits, accepted[..n]);
    assert (accepted + decided)[..n] == accepted[..n];
  }

  lemma StepKeepsLock(s: System, step: Step, platform: Platform)
    requires LockInv(s) && Enabled(s, step, platform)
    ensures LockInv(Next(s, step, platform))
  {
  }

  lemma StepKeepsCurrent(s: System, step: Step, start: Lists, platform: Platform)
    requires Inv(s, start, platform) && Enabled(s, step, platform)
    ensures var s' := Next(s, step, platform);
            && |s'.accepted| <= |s'.acquired| && WellBuilt(s'.current, platform)
            && ListsOf(s'.current) == Folded(start, s'.acquired, s'.accepted)
  {
    match step
    case Acquire(i) => FoldedIgnoresRest(start, s.acquired, [s.writers[i].edit], s.accepted);
    case Store(i, _) => FoldedNext(start, s.acquired, s.accepted, true);
    case Refuse(i) => FoldedNext(start, s.acquired, s.accepted, false);
    case _ =>
  }

  lemma StepKeepsObserved(s: System, step: Step, start: Lists, platform: Platform, k: nat)
    requires Inv(s, start, platform) && Enabled(s, step, platform) && k < |Next(s, step, platform).observed|
    ensures var s' := Next(s, step, platform); Observed(s'.observed[k], start, s'.acquired, s'.accepted, platform)
  {
    var s' := Next(s, step, platform);
    if step.Read? && k == |s.observed| {
      assert s.accepted[..|s.accepted|] == s.accepted;
    } else {
      assert Observed(s.observed[k], start, s.acquired, s.accepted, platform);
      var edits := s'.acquired[|s.acquired|..];
      var decided := s'.accepted[|s.accepted|..];
      assert s'.acquired == s.acquired + edits && s'.accepted == s.accepted + decided;
      StepKeepsCurrent(s, step, start, platform);
      StillObserved(s.observed[k], start, s.acquired, s.accepted, platform, edits, decided);
    }
  }

  ghost predicate IsRun(systems: seq<System>, steps: seq<Step>, platform: Platform) {
    && |systems| == |steps| + 1
    && forall i {:trigger steps[i]} :: 0 <= i < |steps| ==>
         Enabled(systems[i], steps[i], platform) && systems[i + 1] == Next(systems[i], steps[i], platform)
  }

  function Fresh(g: Generation, writers: nat): System {
    System(g, None, seq(writers, _ => Resting), [], [], [])
  }

  /**
   Generation swaps lose no update, in any interleaving of any number of writers with lock-free readers: the
   current lists are the accepted edits in lock order, refused ones change nothing, and whatever a reader
   observed is a well-indexed generation of some prefix of them.
   */
  lemma NoUpdateIsLost(systems: seq<System>, steps: seq<Step>, g: Generation, writers: nat, platform: Platform, n: nat)
    requires IsRun(systems, steps, platform) && systems[0] == Fresh(g, writers) && WellBuilt(g, platform)
    requires n <= |steps|
    ensures Inv(systems[n], ListsOf(g), platform)
  {
    for k := 0 to n
      invariant Inv(systems[k], ListsOf(g), platform)
    {
      var s, step, s' := systems[k], steps[k], systems[k + 1];
      assert s' == Next(s, step, platform);
      StepKeepsLock(s, step, platform);
      StepKeepsCurrent(s, step, ListsOf(g), platform);
      forall j | 0 <= j < |s'.observed|
        ensures Observed(s'.observed[j], ListsOf(g), s'.acquired, s'.accepted, platform)
      {
        StepKeepsObserved(s, step, ListsOf(g), platform, j);
      }
    }
  }
}
