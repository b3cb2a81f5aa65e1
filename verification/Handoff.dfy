/**
 IPC-wins handoff: which game process owns each application's slot, and which game the scanner
 would put back there. Both tables are bounded; the last publisher of an application wins.
 */
module Handoff {
  import opened Presence

  const MAX_HANDOFF_ENTRIES: nat := 64

  function Retain<K, V>(table: map<K, V>, keep: V -> bool): (kept: map<K, V>) {
    map k | k in table && keep(table[k]) :: table[k]
  }

  /**
   What a bounded insertion may leave: when the table was full, entries `keep` rejects are purged
   first; then the pair is stored; then arbitrary victims (the new pair included) go until it fits.
   */
  ghost predicate Inserted<V>(before: map<AppId, V>, key: AppId, value: V, keep: V -> bool, after: map<AppId, V>) {
    var purged := if |before| >= MAX_HANDOFF_ENTRIES then Retain(before, keep) else before;
    var full := purged[key := value];
    Submap(after, full) && |after| == Min(|full|, MAX_HANDOFF_ENTRIES)
  }

  /** The insertion shared by `note_publish`, `note_scan` and `track_process_publication`. */
  method InsertBounded<V>(before: map<AppId, V>, key: AppId, value: V, keep: V -> bool) returns (after: map<AppId, V>)
    ensures Inserted(before, key, value, keep, after)
    ensures Stored(before, key, value, after)
  {
    after := before;
    if |after| >= MAX_HANDOFF_ENTRIES {
      after := Retain(after, keep);
    }
    after := after[key := value];
    ghost var full := after;
    while |after| > MAX_HANDOFF_ENTRIES
      invariant Submap(after, full)
      invariant |after| >= Min(|full|, MAX_HANDOFF_ENTRIES)
      decreases |after|
    {
      var victim :| victim in after;
      ghost var keys := after.Keys;
      after := after - {victim};
      assert after.Keys == keys - {victim};
    }
    SubmapSize(after, full);
    InsertedIsStored(before, key, value, keep, after);
  }

  /** The same whatever the liveness probes answered and whichever victims were picked. */
  ghost predicate Stored<V>(before: map<AppId, V>, key: AppId, value: V, after: map<AppId, V>) {
    && Submap(after, before[key := value]) && |after| <= MAX_HANDOFF_ENTRIES
    && (|before| < MAX_HANDOFF_ENTRIES ==> after == before[key := value])
  }

  lemma InsertedIsStored<V>(before: map<AppId, V>, key: AppId, value: V, keep: V -> bool, after: map<AppId, V>)
    requires Inserted(before, key, value, keep, after)
    ensures Stored(before, key, value, after)
  {
    assert Submap(after, before[key := value]);
    if |before| < MAX_HANDOFF_ENTRIES {
      assert (before[key := value]).Keys == before.Keys + {key};
      SubmapSize(after, before[key := value]);
    }
  }

  class HandoffState {
    var liveIpc: map<AppId, Pid>
    var lastScans: map<AppId, Game>

    constructor ()
      ensures liveIpc == map[] && lastScans == map[]
    {
      liveIpc, lastScans := map[], map[];
    }

    method NotePublish(app: AppId, pid: Pid, alive: Pid -> bool)
      modifies this`liveIpc
      ensures OwnersStep(old(liveIpc), Publish(app, pid), liveIpc)
      ensures Inserted(old(liveIpc), app, pid, alive, liveIpc)
    {
      liveIpc := InsertBounded(liveIpc, app, pid, alive);
    }

    method NoteClear(app: AppId, pid: Pid) returns (released: bool)
      modifies this`liveIpc
      ensures OwnersStep(old(liveIpc), Clear(app, pid), liveIpc)
      ensures released <==> app in old(liveIpc) && old(liveIpc)[app] == pid
      ensures liveIpc == if released then old(liveIpc) - {app} else old(liveIpc)
    {
      if app in liveIpc && liveIpc[app] == pid {
        liveIpc := liveIpc - {app};
        return true;
      }
      return false;
    }

    /** Releases every slot of `pid` and lists them in no particular order. */
    method NoteClearPid(pid: Pid) returns (released: seq<AppId>)
      modifies this`liveIpc
      ensures OwnersStep(old(liveIpc), ClearPid(pid), liveIpc)
      ensures liveIpc == Retain(old(liveIpc), owner => owner != pid)
      ensures forall a :: a in released <==> a in old(liveIpc) && old(liveIpc)[a] == pid
      ensures forall i, j :: 0 <= i < j < |released| ==> released[i] != released[j]
    {
      released := [];
      var rest := liveIpc.Keys;
      while rest != {}
        invariant rest <= liveIpc.Keys
        invariant liveIpc == old(liveIpc)
        invariant forall a :: a in released <==> a in liveIpc && a !in rest && liveIpc[a] == pid
        invariant forall i, j :: 0 <= i < j < |released| ==> released[i] != released[j]
        decreases rest
      {
        var a :| a in rest;
        rest := rest - {a};
        if liveIpc[a] == pid {
          released := released + [a];
        }
      }
      liveIpc := Retain(liveIpc, owner => owner != pid);
    }

    method NoteScan(game: Option<Game>, alive: Pid -> bool)
      modifies this`lastScans
      ensures game.None? ==> lastScans == map[]
      ensures game.Some? ==>
                Stored(old(lastScans), game.value.id, game.value, lastScans)
    {
      match game
      case None => lastScans := map[];
      case Some(g) => lastScans := InsertBounded(lastScans, g.id, g, (g: Game) => alive(g.pid));
    }

    method NoteRemove(app: AppId, pid: Pid) returns (forgotten: Option<Game>)
      modifies this`lastScans
      ensures lastScans == Forget(old(lastScans), app, pid)
      ensures forgotten.Some? <==> app in old(lastScans) && app !in lastScans
      ensures forgotten.Some? ==> forgotten.value == old(lastScans)[app]
    {
      if app in lastScans && lastScans[app].pid == pid {
        forgotten := Some(lastScans[app]);
        lastScans := lastScans - {app};
      } else {
        forgotten := None;
      }
    }
  }

  /** A stale removal, naming another pid than the stored one, forgets nothing. */
  function Forget(scans: map<AppId, Game>, app: AppId, pid: Pid): map<AppId, Game> {
    if app in scans && scans[app].pid == pid then scans - {app} else scans
  }

  // ---------------------------------------------------------------- ownership over whole histories

  datatype OwnerOp = Publish(app: AppId, pid: Pid) | Clear(app: AppId, pid: Pid) | ClearPid(pid: Pid)

  ghost predicate OwnersStep(before: map<AppId, Pid>, op: OwnerOp, after: map<AppId, Pid>) {
    match op
    case Publish(app, pid) => Stored(before, app, pid, after)
    case Clear(app, pid) => after == if app in before && before[app] == pid then before - {app} else before
    case ClearPid(pid) => after == Retain(before, owner => owner != pid)
  }

  ghost predicate IsOwnerRun(tables: seq<map<AppId, Pid>>, ops: seq<OwnerOp>) {
    && |tables| == |ops| + 1 && tables[0] == map[]
    && forall i {:trigger ops[i]} :: 0 <= i < |ops| ==> OwnersStep(tables[i], ops[i], tables[i + 1])
  }

  /** Reference: without bounds, `pid` owns `app` when it published it last and has not taken it back. */
  ghost predicate Owns(ops: seq<OwnerOp>, app: AppId, pid: Pid) {
    exists i :: OwnsSince(ops, i, app, pid)
  }

  ghost predicate OwnsSince(ops: seq<OwnerOp>, i: int, app: AppId, pid: Pid) {
    && 0 <= i < |ops| && ops[i] == Publish(app, pid)
    && forall j :: i < j < |ops| ==>
         && !(ops[j].Publish? && ops[j].app == app)
         && ops[j] != Clear(app, pid)
         && ops[j] != ClearPid(pid)
  }

  predicate Ends(op: OwnerOp, app: AppId, pid: Pid) {
    (op.Publish? && op.app == app) || op == Clear(app, pid) || op == ClearPid(pid)
  }

  lemma OwnsNext(ops: seq<OwnerOp>, op: OwnerOp, app: AppId, pid: Pid)
    ensures Owns(ops + [op], app, pid) <==> op == Publish(app, pid) || (Owns(ops, app, pid) && !Ends(op, app, pid))
  {
    var all := ops + [op];
    assert all[|ops|] == op;
    if op == Publish(app, pid) {
      assert OwnsSince(all, |ops|, app, pid);
    } else if Owns(all, app, pid) {
      var i :| OwnsSince(all, i, app, pid);
      forall j | i < j < |ops| ensures !Ends(ops[j], app, pid) { assert all[j] == ops[j]; }
      assert OwnsSince(ops, i, app, pid);
    } else if Owns(ops, app, pid) && !Ends(op, app, pid) {
      var i :| OwnsSince(ops, i, app, pid);
      assert OwnsSince(all, i, app, pid);
    }
  }

  lemma StepKeepsOwners(before: map<AppId, Pid>, op: OwnerOp, after: map<AppId, Pid>)
    requires OwnersStep(before, op, after)
    ensures |after| <= MAX_HANDOFF_ENTRIES || |after| <= |before|
    ensures forall app :: app in after ==>
              || op == Publish(app, after[app])
              || (app in before && before[app] == after[app] && !Ends(op, app, after[app]))
  {
    if !op.Publish? {
      SubmapSize(after, before);
    }
  }

  /**
   Ownership never lies: in every run, whatever was purged or evicted, a recorded owner is the
   latest publisher of the application and has not cleared it since, by application or by pid.
   The table never exceeds its bound.
   */
  lemma {:induction false} OwnershipNeverLies(tables: seq<map<AppId, Pid>>, ops: seq<OwnerOp>, n: nat, app: AppId)
    requires IsOwnerRun(tables, ops) && n <= |ops|
    ensures app in tables[n] ==> Owns(ops[..n], app, tables[n][app])
    ensures |tables[n]| <= MAX_HANDOFF_ENTRIES
  {
    if n > 0 {
      OwnershipNeverLies(tables, ops, n - 1, app);
      assert OwnersStep(tables[n - 1], ops[n - 1], tables[n]);
      StepKeepsOwners(tables[n - 1], ops[n - 1], tables[n]);
      if app in tables[n] {
        assert ops[..n] == ops[..n - 1] + [ops[n - 1]];
        OwnsNext(ops[..n - 1], ops[n - 1], app, tables[n][app]);
      }
    }
  }

  /** Owners are unique in the reference, so the recorded one is *the* owner. */
  lemma OwnerIsUnique(ops: seq<OwnerOp>, app: AppId, p: Pid, q: Pid)
    requires Owns(ops, app, p) && Owns(ops, app, q)
    ensures p == q
  {
    var i :| OwnsSince(ops, i, app, p);
    var j :| OwnsSince(ops, j, app, q);
  }

  ghost predicate NeverFull(tables: seq<map<AppId, Pid>>, ops: seq<OwnerOp>) {
    forall i {:trigger ops[i]} :: 0 <= i < |ops| && i < |tables| && ops[i].Publish? ==>
      |tables[i]| < MAX_HANDOFF_ENTRIES
  }

  /** As long as no publication met a full table, the table is the reference, in both directions. */
  lemma {:induction false} UnboundedTableIsExact(tables: seq<map<AppId, Pid>>, ops: seq<OwnerOp>, n: nat,
                                                 app: AppId, pid: Pid)
    requires IsOwnerRun(tables, ops) && NeverFull(tables, ops) && n <= |ops|
    ensures app in tables[n] && tables[n][app] == pid <==> Owns(ops[..n], app, pid)
  {
    if n > 0 {
      UnboundedTableIsExact(tables, ops, n - 1, app, pid);
      assert OwnersStep(tables[n - 1], ops[n - 1], tables[n]);
      assert ops[..n] == ops[..n - 1] + [ops[n - 1]];
      OwnsNext(ops[..n - 1], ops[n - 1], app, pid);
    }
  }
}
