/**
 The SteamAppId memo shared by two threads: the scan thread sweeps and reads, the dispatch thread
 invalidates and reads. The environ read itself runs outside the lock; sequence numbers decide whether
 its result may still be stored.
 */
module AppIdMemo {
  import opened Presence

  type Seq = n: nat | n < TWO_64

  datatype Memo = Absent(sequence: Seq) | Present(sequence: Seq, id: AppId) | Stale(sequence: Seq) {
    /** What a lookup answers without reading the environ. */
    function Verified(): Option<Option<AppId>> {
      match this
      case Absent(_) => Some(None)
      case Present(_, id) => Some(Some(id))
      case Stale(_) => None
    }
  }

  // ---------------------------------------------------------------- the lock sections

  function Bumped(sequence: Seq): Seq {
    if sequence + 1 == TWO_64 then 0 else sequence + 1
  }

  function MemoOf(sequence: Seq, id: Option<AppId>): Memo {
    match id
    case Some(app) => Present(sequence, app)
    case None => Absent(sequence)
  }

  /** The sequence a missing lookup remembers. */
  function SeqAt(memos: map<Pid, Memo>, pid: Pid): Seq {
    if pid in memos then memos[pid].sequence else 0
  }

  predicate StillFresh(memos: map<Pid, Memo>, pid: Pid, seq0: Seq) {
    if pid in memos then memos[pid] == Stale(seq0) else seq0 == 0
  }

  class AppIdCache {
    var memos: map<Pid, Memo>

    constructor ()
      ensures memos == map[]
    {
      memos := map[];
    }

    /** First section of `cached_app_id`: a verified memo answers; otherwise the sequence to compare later. */
    method Lookup(pid: Pid) returns (hit: Option<Option<AppId>>, seq0: Seq)
      ensures hit == if pid in memos then memos[pid].Verified() else None
      ensures hit.None? ==> seq0 == SeqAt(memos, pid)
    {
      if pid !in memos { return None, 0; }
      match memos[pid] {
        case Present(sequence, id) => return Some(Some(id)), sequence;
        case Absent(sequence) => return Some(None), sequence;
        case Stale(sequence) => return None, sequence;
      }
    }

    /** Second section: the environ's answer is stored only if nothing invalidated the pid since. */
    method Store(pid: Pid, seq0: Seq, id: Option<AppId>)
      modifies this
      ensures memos == if StillFresh(old(memos), pid, seq0) then old(memos)[pid := MemoOf(seq0, id)] else old(memos)
    {
      var current := false;
      if pid in memos {
        match memos[pid] {
          case Stale(sequence) => current := sequence == seq0;
          case _ =>
        }
      } else {
        current := seq0 == 0;
      }
      if current {
        match id {
          case Some(app) => memos := memos[pid := Present(seq0, app)];
          case None => memos := memos[pid := Absent(seq0)];
        }
      }
    }

    method SweepDead(processes: seq<Pid>)
      modifies this
      ensures memos == map p | p in old(memos) && p in processes :: old(memos)[p]
    {
      var live := {};
      for i := 0 to |processes|
        invariant live == set p | p in processes[..i]
        invariant memos == old(memos)
      {
        live := live + {processes[i]};
      }
      assert processes[..|processes|] == processes;
      memos := map p | p in memos && p in live :: memos[p];
    }

    /** Leaves a stale entry with a new sequence, creating one if need be. */
    method DropAppId(pid: Pid)
      modifies this
      ensures memos == old(memos)[pid := Stale(Bumped(SeqAt(old(memos), pid)))]
    {
      if pid in memos {
        var sequence := match memos[pid] case Absent(s) => s case Present(s, _) => s case Stale(s) => s;
        memos := memos[pid := Stale(Bumped(sequence))];
      } else {
        memos := memos[pid := Stale(1)];
      }
    }
  }

  // ---------------------------------------------------------------- two threads

  datatype Thread = Scanner | Dispatcher

  /** A read under way; `begun` counts the pid's drops so far (bookkeeping of the model). */
  datatype Read = Read(pid: Pid, seq0: Seq, begun: nat)

  /** The read behind a stored memo (bookkeeping of the model). */
  datatype Origin = Origin(begun: nat, id: Option<AppId>)

  datatype System = System(memos: map<Pid, Memo>, scan: Option<Read>, dispatch: Option<Read>,
                           drops: map<Pid, nat>, origins: map<Pid, Origin>)
  {
    function ReadOf(t: Thread): Option<Read> { if t.Scanner? then scan else dispatch }

    function WithRead(t: Thread, read: Option<Read>): System {
      if t.Scanner? then this.(scan := read) else this.(dispatch := read)
    }

    function Drops(pid: Pid): nat { if pid in drops then drops[pid] else 0 }
  }

  const Idle := System(map[], None, None, map[], map[])

  datatype Action =
    | Begin(t: Thread, pid: Pid)               // lookup, and on a miss start reading the environ
    | Finish(t: Thread, id: Option<AppId>)     // the read is done; store it if still fresh
    | Sweep(processes: seq<Pid>)               // scan thread, between reads
    | DropMemo(dropped: Pid)                   // dispatch thread, between reads

  predicate Enabled(s: System, action: Action) {
    match action
    case Begin(t, _) => s.ReadOf(t).None?
    case Finish(t, _) => s.ReadOf(t).Some?
    case Sweep(_) => s.scan.None?
    case DropMemo(_) => s.dispatch.None?
  }

  function Next(s: System, action: Action): System
    requires Enabled(s, action)
  {
    match action
    case Begin(t, pid) =>
      if pid in s.memos && !s.memos[pid].Stale? then s
      else s.WithRead(t, Some(Read(pid, SeqAt(s.memos, pid), s.Drops(pid))))
    case Finish(t, id) =>
      var r := s.ReadOf(t).value;
      var done := s.WithRead(t, None);
      if StillFresh(s.memos, r.pid, r.seq0)
      then done.(memos := s.memos[r.pid := MemoOf(r.seq0, id)], origins := s.origins[r.pid := Origin(r.begun, id)])
      else done
    case Sweep(processes) => s.(memos := map p | p in s.memos && p in processes :: s.memos[p])
    case DropMemo(pid) =>
      s.(memos := s.memos[pid := Stale(Bumped(SeqAt(s.memos, pid)))], drops := s.drops[pid := s.Drops(pid) + 1])
  }

  /** The stored memo is the answer of a read that began after the latest drop. */
  ghost predicate Fresh(s: System, pid: Pid) {
    pid in s.memos && !s.memos[pid].Stale? ==>
      && pid in s.origins && s.origins[pid].begun == s.Drops(pid)
      && s.memos[pid].Verified() == Some(s.origins[pid].id)
  }

  /**
   The entry of a pid the scan thread is reading runs ahead of the remembered sequence by exactly the
   drops since, modulo 2^64, and while it is missing there were none. The dispatch thread drops nothing
   while it reads.
   */
  ghost predicate ReadsInv(s: System) {
    && (s.scan.Some? ==>
          var r := s.scan.value;
          && r.begun <= s.Drops(r.pid)
          && (if r.pid in s.memos then s.memos[r.pid].sequence == (r.seq0 + (s.Drops(r.pid) - r.begun)) % TWO_64
              else r.seq0 == 0 && s.Drops(r.pid) == r.begun))
    && (s.dispatch.Some? ==> s.dispatch.value.begun == s.Drops(s.dispatch.value.pid))
  }

  ghost predicate Inv(s: System) {
    ReadsInv(s) && forall pid :: Fresh(s, pid)
  }

  /** Fewer than 2^64 drops of the pid fall into a scan-thread read. */
  ghost predicate NoWrap(s: System) {
    s.scan.Some? ==> s.Drops(s.scan.value.pid) < s.scan.value.begun + TWO_64
  }

  lemma WrapIsWhole(seq0: Seq, drops: nat)
    ensures (seq0 + drops) % TWO_64 == seq0 <==> drops % TWO_64 == 0
  {
  }

  lemma ActionKeepsReads(s: System, action: Action)
    requires ReadsInv(s) && Enabled(s, action)
    ensures ReadsInv(Next(s, action))
  {
    if action.DropMemo? && s.scan.Some? && s.scan.value.pid == action.dropped {
      BumpAdds(s.scan.value.seq0, s.Drops(action.dropped) - s.scan.value.begun);
    }
  }

  lemma BumpAdds(seq0: Seq, drops: nat)
    ensures Bumped((seq0 + drops) % TWO_64) == (seq0 + drops + 1) % TWO_64
  {
  }

  lemma ActionKeepsFresh(s: System, action: Action, pid: Pid)
    requires ReadsInv(s) && Fresh(s, pid) && NoWrap(s) && Enabled(s, action)
    ensures Fresh(Next(s, action), pid)
  {
    if action.Finish? && action.t.Scanner? {
      WrapIsWhole(s.scan.value.seq0, s.Drops(s.scan.value.pid) - s.scan.value.begun);
    }
  }

  ghost predicate IsRun(systems: seq<System>, actions: seq<Action>) {
    && |systems| == |actions| + 1
    && forall i {:trigger actions[i]} :: 0 <= i < |actions| ==>
         Enabled(systems[i], actions[i]) && systems[i + 1] == Next(systems[i], actions[i])
  }

  /**
   Memo freshness, in every interleaving at lock granularity: whatever is stored as present or absent was
   read from an environ whose read began after the latest invalidation of that pid.
   */
  lemma MemosAreFresh(systems: seq<System>, actions: seq<Action>, n: nat)
    requires IsRun(systems, actions) && systems[0] == Idle && n <= |actions|
    requires forall i :: 0 <= i <= n ==> NoWrap(systems[i])
    ensures Inv(systems[n])
  {
    for i := 0 to n
      invariant Inv(systems[i])
    {
      var next := systems[i + 1];
      assert next == Next(systems[i], actions[i]);
      ActionKeepsReads(systems[i], actions[i]);
      forall pid ensures Fresh(next, pid) {
        ActionKeepsFresh(systems[i], actions[i], pid);
      }
    }
  }

  /** The bound is exact: a finishing read breaks freshness only if a positive multiple of 2^64 drops overtook it. */
  lemma StaleStoreIff(s: System, id: Option<AppId>)
    requires Inv(s) && s.scan.Some?
    ensures var r := s.scan.value;
            var overtaken := s.Drops(r.pid) - r.begun;
            Fresh(Next(s, Finish(Scanner, id)), r.pid) <==>
            !(overtaken > 0 && overtaken % TWO_64 == 0 && r.pid in s.memos && s.memos[r.pid].Stale?)
  {
    var r := s.scan.value;
    WrapIsWhole(r.seq0, s.Drops(r.pid) - r.begun);
    assert Fresh(s, r.pid);
  }
}
