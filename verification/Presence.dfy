/** Entities shared by the scanner and the bridge. */
module Presence {
  const TWO_64: nat := 0x1_0000_0000_0000_0000

  datatype Option<+T> = None | Some(value: T)

  type AppId = string

  /** Operating-system process id (`u64` in the daemon; never computed with). */
  type Pid = nat

  /** One row of a detection snapshot. */
  datatype Pair = Pair(id: AppId, pid: Pid)

  /** A detected game; `detail` stands for its name, start time and matcher, which no decision reads. */
  datatype Game = Game(id: AppId, pid: Pid, detail: nat) {
    function Row(): Pair { Pair(id, pid) }
  }

  /** What the scanner sends to the bridge. */
  datatype Event = Detected(game: Game) | Removed(id: AppId, pid: Pid) | Cleared

  ghost predicate Submap<K, V>(small: map<K, V>, big: map<K, V>) {
    small.Keys <= big.Keys && forall k :: k in small ==> small[k] == big[k]
  }

  function Min(a: nat, b: nat): nat { if a <= b then a else b }

  lemma SubsetSize<T>(small: set<T>, big: set<T>)
    requires small <= big
    ensures |small| <= |big|
    ensures |small| == |big| ==> small == big
  {
    assert big == small + (big - small);
  }

  lemma SubmapSize<K, V>(small: map<K, V>, big: map<K, V>)
    requires Submap(small, big)
    ensures |small| <= |big|
    ensures |small| == |big| ==> small == big
  {
    assert |small.Keys| == |small| && |big.Keys| == |big|;
    SubsetSize(small.Keys, big.Keys);
  }

  lemma OneLonger<T>(s: seq<T>, i: nat)
    requires i < |s|
    ensures s[..i + 1] == s[..i] + [s[i]]
  {
  }
}
