/** One database generation: which executables feed which automaton, and the index pairs back to them. */
module Bundle {
  import opened Presence
  import opened Text

  const U32_MAX: nat := 0xffff_ffff

  datatype Os = Win32 | Linux | Darwin | Empty | Other(tag: string)

  datatype Platform = OnWindows | OnMac | OnLinux | Elsewhere

  datatype Executable = Executable(name: string, os: Os, isLauncher: bool)

  datatype Entry = Entry(name: string, aliases: seq<string>, executables: seq<Executable>)

  /** Position of an executable: entry, then executable within it. */
  datatype Ref = Ref(entry: nat, exe: nat)

  /** The patterns handed to Aho-Corasick, with the index pair of each. */
  datatype Automaton = Automaton(patterns: seq<string>, indexes: seq<Ref>)

  datatype Tier = Native | Proton | Custom

  predicate OsMatches(platform: Platform, os: Os) {
    match platform
    case OnWindows => os.Win32?
    case OnMac => os.Darwin?
    case OnLinux => os.Linux?
    case Elsewhere => true
  }

  /** Which tag a tier carries: this platform's or none, `win32` under Proton on Linux, anything for user entries. */
  predicate CarriesOs(tier: Tier, platform: Platform, os: Os) {
    match tier
    case Native => os.Empty? || OsMatches(platform, os)
    case Proton => platform.OnLinux? && os.Win32?
    case Custom => true
  }

  /** A declared name as a path suffix: separators folded, with a leading `/` (which `>` becomes). */
  function Forward(name: string): (pattern: string)
    ensures StartsWith(pattern, '/')
  {
    var s := Slashed(name);
    if StartsWith(s, '>') then "/" + s[1..]
    else if StartsWith(s, '/') then s
    else "/" + s
  }

  /** The pattern the automaton holds: it is run over reversed paths. */
  function NormalizeExePattern(name: string): string {
    Reverse(Forward(name))
  }

  predicate IsRef(entries: seq<Entry>, r: Ref) {
    r.entry < |entries| && r.exe < |entries[r.entry].executables|
  }

  function ExeAt(entries: seq<Entry>, r: Ref): Executable
    requires IsRef(entries, r)
  {
    entries[r.entry].executables[r.exe]
  }

  predicate Keeps(tier: Tier, platform: Platform, x: Executable) {
    !x.isLauncher && CarriesOs(tier, platform, x.os) && NormalizeExePattern(x.name) != "/"
  }

  predicate Eligible(entries: seq<Entry>, tier: Tier, platform: Platform, r: Ref) {
    IsRef(entries, r) && Keeps(tier, platform, ExeAt(entries, r))
  }

  /** Exactly the names that name no file: nothing, a lone separator, a bare launcher mark. */
  lemma DroppedIff(name: string)
    ensures NormalizeExePattern(name) == "/" <==> name in ["", "/", "\\", ">"]
  {
    var pattern := NormalizeExePattern(name);
    assert |pattern| == |Forward(name)| && (|pattern| == 1 ==> pattern[0] == Forward(name)[0]);
    if |name| == 1 { assert name == [name[0]]; }
  }

  /** No executable is in both automata of the public database, on any platform. */
  lemma TiersAreDisjoint(platform: Platform, x: Executable)
    ensures !(Keeps(Native, platform, x) && Keeps(Proton, platform, x))
  {
  }

  // ---------------------------------------------------------------- collecting patterns

  predicate Before(r: Ref, i: nat, j: nat) {
    r.entry < i || (r.entry == i && r.exe < j)
  }

  /** Every pattern is that of the executable its pair points at, in database order. */
  ghost predicate Resolves(a: Automaton, entries: seq<Entry>, tier: Tier, platform: Platform) {
    && |a.patterns| == |a.indexes|
    && (forall k :: 0 <= k < |a.indexes| ==>
          Eligible(entries, tier, platform, a.indexes[k]) &&
          a.patterns[k] == NormalizeExePattern(ExeAt(entries, a.indexes[k]).name))
    && (forall k, l :: 0 <= k < l < |a.indexes| ==> Before(a.indexes[k], a.indexes[l].entry, a.indexes[l].exe))
  }

  /** The walk has collected exactly the eligible executables before position (i, j). */
  ghost predicate Collected(a: Automaton, entries: seq<Entry>, tier: Tier, platform: Platform, i: nat, j: nat) {
    && Resolves(a, entries, tier, platform)
    && (forall k :: 0 <= k < |a.indexes| ==> Before(a.indexes[k], i, j))
    && (forall r :: Eligible(entries, tier, platform, r) && Before(r, i, j) ==> r in a.indexes)
  }

  /** Exactly the eligible executables, in database order. */
  ghost predicate WellIndexed(a: Automaton, entries: seq<Entry>, tier: Tier, platform: Platform) {
    && Resolves(a, entries, tier, platform)
    && (forall r :: Eligible(entries, tier, platform, r) <==> r in a.indexes)
  }

  function Pushed(a: Automaton, pattern: string, r: Ref): Automaton {
    Automaton(a.patterns + [pattern], a.indexes + [r])
  }

  lemma CollectedNext(a: Automaton, entries: seq<Entry>, tier: Tier, platform: Platform, i: nat, j: nat)
    requires IsRef(entries, Ref(i, j)) && Collected(a, entries, tier, platform, i, j)
    ensures var x := ExeAt(entries, Ref(i, j));
            var a' := if Keeps(tier, platform, x) then Pushed(a, NormalizeExePattern(x.name), Ref(i, j)) else a;
            Collected(a', entries, tier, platform, i, j + 1)
  {
    if Eligible(entries, tier, platform, Ref(i, j)) {
      CollectedPush(a, entries, tier, platform, i, j);
    } else {
      hide Resolves, Keeps;
      assert forall r :: Before(r, i, j + 1) ==> Before(r, i, j) || r == Ref(i, j);
    }
  }

  lemma ResolvesPush(a: Automaton, entries: seq<Entry>, tier: Tier, platform: Platform, r: Ref, a': Automaton)
    requires Resolves(a, entries, tier, platform) && Eligible(entries, tier, platform, r)
    requires forall k :: 0 <= k < |a.indexes| ==> Before(a.indexes[k], r.entry, r.exe)
    requires a' == Pushed(a, NormalizeExePattern(ExeAt(entries, r).name), r)
    ensures Resolves(a', entries, tier, platform)
  {
    hide Eligible, NormalizeExePattern, ExeAt, Before;
  }

  lemma CollectedPush(a: Automaton, entries: seq<Entry>, tier: Tier, platform: Platform, i: nat, j: nat)
    requires Eligible(entries, tier, platform, Ref(i, j)) && Collected(a, entries, tier, platform, i, j)
    ensures Collected(Pushed(a, NormalizeExePattern(ExeAt(entries, Ref(i, j)).name), Ref(i, j)),
                      entries, tier, platform, i, j + 1)
  {
    var a' := Pushed(a, NormalizeExePattern(ExeAt(entries, Ref(i, j)).name), Ref(i, j));
    ResolvesPush(a, entries, tier, platform, Ref(i, j), a');
    hide Resolves, Eligible, NormalizeExePattern, ExeAt;
    assert a'.indexes[|a.indexes|] == Ref(i, j);
    assert forall r :: r in a.indexes ==> r in a'.indexes;
    assert forall r :: Before(r, i, j + 1) ==> Before(r, i, j) || r == Ref(i, j);
  }

  lemma CollectedRow(a: Automaton, entries: seq<Entry>, tier: Tier, platform: Platform, i: nat)
    requires i < |entries| && Collected(a, entries, tier, platform, i, |entries[i].executables|)
    ensures Collected(a, entries, tier, platform, i + 1, 0)
  {
  }

  lemma CollectedAll(a: Automaton, entries: seq<Entry>, tier: Tier, platform: Platform)
    requires Collected(a, entries, tier, platform, |entries|, 0)
    ensures WellIndexed(a, entries, tier, platform)
  {
  }

  /** The database fits the 32-bit index pairs. */
  predicate Fits(entries: seq<Entry>) {
    |entries| < U32_MAX && forall i :: 0 <= i < |entries| ==> |entries[i].executables| < U32_MAX
  }

  /** Saturates; exact on a database that fits. */
  function PatternIndex(entry: nat, exe: nat): Ref {
    Ref(Min(entry, U32_MAX), Min(exe, U32_MAX))
  }

  /** One walk feeds both main automata. */
  method CollectSplitPatterns(entries: seq<Entry>, platform: Platform) returns (native: Automaton, proton: Automaton)
    requires Fits(entries)
    ensures WellIndexed(native, entries, Native, platform) && WellIndexed(proton, entries, Proton, platform)
  {
    native, proton := Automaton([], []), Automaton([], []);
    hide NormalizeExePattern;
    for i := 0 to |entries|
      invariant Collected(native, entries, Native, platform, i, 0)
      invariant Collected(proton, entries, Proton, platform, i, 0)
    {
      var exes := entries[i].executables;
      for j := 0 to |exes|
        invariant Collected(native, entries, Native, platform, i, j)
        invariant Collected(proton, entries, Proton, platform, i, j)
      {
        CollectedNext(native, entries, Native, platform, i, j);
        CollectedNext(proton, entries, Proton, platform, i, j);
        if exes[j].isLauncher { continue; }
        var isNative := exes[j].os.Empty? || OsMatches(platform, exes[j].os);
        var isProton := platform.OnLinux? && exes[j].os.Win32?;
        if !isNative && !isProton { continue; }
        var pattern := NormalizeExePattern(exes[j].name);
        if pattern == "/" { continue; }
        if isNative { native := Pushed(native, pattern, PatternIndex(i, j)); }
        if isProton { proton := Pushed(proton, pattern, PatternIndex(i, j)); }
      }
      CollectedRow(native, entries, Native, platform, i);
      CollectedRow(proton, entries, Proton, platform, i);
    }
    CollectedAll(native, entries, Native, platform);
    CollectedAll(proton, entries, Proton, platform);
  }

  /** The walk behind user overrides, where no tag is refused. */
  method BuildPatterns(entries: seq<Entry>, platform: Platform, enforceOs: bool) returns (a: Automaton)
    requires Fits(entries)
    ensures WellIndexed(a, entries, if enforceOs then Native else Custom, platform)
  {
    ghost var tier := if enforceOs then Native else Custom;
    a := Automaton([], []);
    for i := 0 to |entries|
      invariant Collected(a, entries, tier, platform, i, 0)
    {
      var exes := entries[i].executables;
      for j := 0 to |exes|
        invariant Collected(a, entries, tier, platform, i, j)
      {
        CollectedNext(a, entries, tier, platform, i, j);
        if exes[j].isLauncher { continue; }
        if enforceOs && !exes[j].os.Empty? && !OsMatches(platform, exes[j].os) { continue; }
        var pattern := NormalizeExePattern(exes[j].name);
        if pattern == "/" { continue; }
        a := Pushed(a, pattern, PatternIndex(i, j));
      }
      CollectedRow(a, entries, tier, platform, i);
    }
    CollectedAll(a, entries, tier, platform);
  }

  // ---------------------------------------------------------------- one generation

  /** Without patterns, or without user entries, there is no automaton at all. */
  datatype Generation = Generation(list: seq<Entry>, native: Automaton, proton: Option<Automaton>,
                                   custom: seq<Entry>, customAutomaton: Option<Automaton>)

  const Nothing := Automaton([], [])

  function OrNothing(a: Option<Automaton>): Automaton { if a.Some? then a.value else Nothing }

  ghost predicate WellBuilt(g: Generation, platform: Platform) {
    && WellIndexed(g.native, g.list, Native, platform)
    && WellIndexed(OrNothing(g.proton), g.list, Proton, platform)
    && WellIndexed(OrNothing(g.customAutomaton), g.custom, Custom, platform)
    && (g.customAutomaton.None? <==> g.custom == [])
  }

  method BuildGeneration(list: seq<Entry>, custom: seq<Entry>, platform: Platform) returns (g: Generation)
    requires Fits(list) && Fits(custom)
    ensures g.list == list && g.custom == custom && WellBuilt(g, platform)
  {
    var native, proton := CollectSplitPatterns(list, platform);
    if proton.patterns == [] { assert proton == Nothing; }
    var protonAutomaton := if proton.patterns == [] then None else Some(proton);
    var customAutomaton := None;
    if custom != [] {
      var a := BuildPatterns(custom, platform, false);
      customAutomaton := Some(a);
    }
    g := Generation(list, native, protonAutomaton, custom, customAutomaton);
  }

  /**
   Exactly which executables an automaton holds. On Linux the native one holds those without a platform tag or tagged
   `linux`, and the Proton one those tagged `win32`; users' own entries count whatever their tag. Launchers and names
   that name no file are in none.
   */
  lemma HeldIff(a: Automaton, entries: seq<Entry>, tier: Tier, platform: Platform, r: Ref)
    requires WellIndexed(a, entries, tier, platform)
    ensures r in a.indexes <==>
            && IsRef(entries, r) && !ExeAt(entries, r).isLauncher && ExeAt(entries, r).name !in ["", "/", "\\", ">"]
            && match (tier, platform)
               case (Custom, _) => true
               case (Proton, OnLinux) => ExeAt(entries, r).os == Win32
               case (Proton, _) => false
               case (Native, OnLinux) => ExeAt(entries, r).os in {Empty, Linux}
               case (Native, OnWindows) => ExeAt(entries, r).os in {Empty, Win32}
               case (Native, OnMac) => ExeAt(entries, r).os in {Empty, Darwin}
               case (Native, Elsewhere) => true
  {
    if IsRef(entries, r) { DroppedIff(ExeAt(entries, r).name); }
    hide Resolves, NormalizeExePattern;
    assert Eligible(entries, tier, platform, r) <==> r in a.indexes;
  }

  /** Index tables are a function of the lists: two builds of the same lists are the same generation. */
  lemma WellIndexedIsUnique(a: Automaton, b: Automaton, entries: seq<Entry>, tier: Tier, platform: Platform)
    requires WellIndexed(a, entries, tier, platform) && WellIndexed(b, entries, tier, platform)
    ensures a == b
  {
    SameOrder(a.indexes, b.indexes);
  }

  ghost predicate Ascending(refs: seq<Ref>) {
    forall k, l :: 0 <= k < l < |refs| ==> Before(refs[k], refs[l].entry, refs[l].exe)
  }

  lemma HasFirst(refs: seq<Ref>)
    ensures refs == [] || exists r :: r in refs
  {
    if refs != [] { assert refs[0] in refs; }
  }

  lemma {:induction false} SameOrder(a: seq<Ref>, b: seq<Ref>)
    requires Ascending(a) && Ascending(b) && forall r :: r in a <==> r in b
    ensures a == b
    decreases |a|
  {
    HasFirst(b);
    if a != [] {
      assert a[0] in a && a[0] in b;
      var m, n := |a| - 1, |b| - 1;
      assert a[m] in b && b[n] in a;
      assert a[m] == b[n];
      forall r ensures r in a[..m] <==> r in b[..n] {
        if r in a[..m] { assert r in b && r != a[m]; }
        if r in b[..n] { assert r in a && r != b[n]; }
      }
      SameOrder(a[..m], b[..n]);
    }
  }
}
