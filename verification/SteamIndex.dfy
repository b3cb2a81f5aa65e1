/** The Steam library index: canonical install-dir prefixes, refreshed incrementally, and the longest-prefix lookup. */
module SteamIndex {
  import opened Presence

  type Lib = string
  type Fingerprint = nat

  const MAX_SCAN_ENTRIES: nat := 4096

  // ---------------------------------------------------------------- canonical paths

  /** Unicode lower-casing, one character to one or more; lower-case ASCII letters and `/` stand for themselves. */
  type Folding = char -> string

  ghost predicate Folds(fold: Folding) {
    && (forall c :: fold(c) != [])
    && (forall c :: Plain(c) ==> fold(c) == [c])
  }

  predicate Plain(c: char) { 'a' <= c <= 'z' || c == '/' }

  /** Lower-cased, with `/` separators. */
  function Lowered(s: string, fold: Folding): string {
    if s == [] then []
    else
      Lowered(s[..|s| - 1], fold) + LoweredChar(s[|s| - 1], fold)
  }

  function LoweredChar(c: char, fold: Folding): string {
    if c == '\\' then "/" else fold(c)
  }

  function Rooted(s: string): (r: string)
    ensures r != [] && r[0] == '/'
  {
    if s != [] && s[0] == '/' then s else "/" + s
  }

  function Canonical(s: string, fold: Folding): (r: string)
    ensures r != [] && r[0] == '/'
  {
    Rooted(Lowered(s, fold))
  }

  function Slashed(s: string): string {
    if s != [] && s[|s| - 1] == '/' then s else s + "/"
  }

  const STEAMAPPS := "steamapps/"

  /** Where a library's keys all begin. */
  function LibraryPrefix(lib: Lib, fold: Folding): string {
    Slashed(Canonical(lib, fold)) + STEAMAPPS
  }

  /** A path below the library's `steamapps`, formatted and then canonicalized as a whole. */
  function Below(lib: Lib, rest: string, fold: Folding): string {
    Canonical(lib + "/" + STEAMAPPS + rest, fold)
  }

  function CommonPrefix(lib: Lib, installdir: string, fold: Folding): string {
    Slashed(Below(lib, "common/" + installdir, fold))
  }

  function CompatPrefix(lib: Lib, name: string, fold: Folding): string {
    Below(lib, "compatdata/" + name + "/", fold)
  }

  // ---------------------------------------------------------------- scanning a library

  /** What the scan makes of a directory entry. */
  datatype DirEntry = Prefix(name: string) | Manifest(appid: string, installdir: string) | Ignored

  type Dirs = map<string, string>

  /** An existing key wins. */
  function OrInsert(dirs: Dirs, key: string, value: string): Dirs {
    if key in dirs then dirs else dirs[key := value]
  }

  function Scanned(lib: Lib, entry: DirEntry, dirs: Dirs, fold: Folding): Dirs {
    match entry
    case Prefix(name) => OrInsert(dirs, CompatPrefix(lib, name, fold), name)
    case Manifest(appid, installdir) => OrInsert(dirs, CommonPrefix(lib, installdir, fold), appid)
    case Ignored => dirs
  }

  /** A fresh scan: the first `n` entries into an empty map. */
  function ScanOf(lib: Lib, entries: seq<DirEntry>, n: nat, fold: Folding): Dirs
    requires n <= |entries|
  {
    if n == 0 then map[] else Scanned(lib, entries[n - 1], ScanOf(lib, entries, n - 1, fold), fold)
  }

  function FreshScan(lib: Lib, entries: seq<DirEntry>, fold: Folding): Dirs {
    ScanOf(lib, entries, Min(|entries|, MAX_SCAN_ENTRIES), fold)
  }

  lemma ScannedOver(lib: Lib, entry: DirEntry, scan: Dirs, dirs: Dirs, fold: Folding)
    ensures Scanned(lib, entry, scan + dirs, fold) == Scanned(lib, entry, scan, fold) + dirs
  {
  }

  /** Scanning into a map adds what it does not have. */
  method ScanLibraryInto(lib: Lib, entries: seq<DirEntry>, dirs: Dirs, fold: Folding) returns (more: Dirs)
    ensures more == FreshScan(lib, entries, fold) + dirs
  {
    more := dirs;
    var seen := 0;
    while seen < |entries|
      invariant seen <= |entries| && seen <= MAX_SCAN_ENTRIES
      invariant more == ScanOf(lib, entries, seen, fold) + dirs
    {
      if seen + 1 > MAX_SCAN_ENTRIES { break; }
      ScannedOver(lib, entries[seen], ScanOf(lib, entries, seen, fold), dirs, fold);
      more := Scanned(lib, entries[seen], more, fold);
      seen := seen + 1;
    }
  }

  // ---------------------------------------------------------------- refreshing

  /** What a library with a given fingerprint holds: fingerprints tell contents apart. */
  type Disk = (Lib, Fingerprint) -> seq<DirEntry>

  /** The cached index: its keys, and the fingerprints they were scanned under. */
  datatype Index = Index(dirs: Dirs, prints: map<Lib, Fingerprint>)

  predicate SameLib(prints: map<Lib, Fingerprint>, lib: Lib, live: Lib -> Option<Fingerprint>) {
    lib in prints && live(lib) == Some(prints[lib])
  }

  function Kept(dirs: Dirs, owned: string): Dirs {
    map key | key in dirs && owned <= key :: dirs[key]
  }

  /** An unchanged library keeps the cached keys below its prefix; any other is scanned. */
  function Added(index: Index, lib: Lib, fp: Fingerprint, into: Dirs, disk: Disk, fold: Folding): Dirs {
    if lib in index.prints && index.prints[lib] == fp then into + Kept(index.dirs, LibraryPrefix(lib, fold))
    else FreshScan(lib, disk(lib, fp), fold) + into
  }

  /** Library by library, the first `n` of them. */
  function Rebuilt(index: Index, libs: seq<Lib>, n: nat, live: Lib -> Option<Fingerprint>, disk: Disk,
                   fold: Folding): Dirs
    requires n <= |libs|
  {
    if n == 0 then map[]
    else
      var before := Rebuilt(index, libs, n - 1, live, disk, fold);
      match live(libs[n - 1])
      case None => before
      case Some(fp) => Added(index, libs[n - 1], fp, before, disk, fold)
  }

  /** The live libraries among those known, with their fingerprints. */
  function LiveOf(libs: seq<Lib>, live: Lib -> Option<Fingerprint>): map<Lib, Fingerprint> {
    map lib | lib in libs && live(lib).Some? :: live(lib).value
  }

  predicate AllSame(prints: map<Lib, Fingerprint>, libs: seq<Lib>, live: Lib -> Option<Fingerprint>) {
    forall i :: 0 <= i < |libs| ==> SameLib(prints, libs[i], live)
  }

  /** The whole refresh: nothing when nothing moved; otherwise rebuild, and swap when it may differ. */
  function Refreshed(index: Index, libs: seq<Lib>, live: Lib -> Option<Fingerprint>, disk: Disk, fold: Folding): Index {
    if |libs| == |index.prints| && AllSame(index.prints, libs, live) then index
    else
      var rebuilt := Rebuilt(index, libs, |libs|, live, disk, fold);
      Index(if !AllSame(index.prints, libs, live) || |rebuilt| != |index.dirs| then rebuilt else index.dirs,
            LiveOf(libs, live))
  }

  class SteamLibraries {
    var dirs: Dirs
    var fingerprints: map<Lib, Fingerprint>

    constructor ()
      ensures dirs == map[] && fingerprints == map[]
    {
      dirs, fingerprints := map[], map[];
    }

    function Held(): Index
      reads this
    {
      Index(dirs, fingerprints)
    }

    /** The cached keys below one prefix. */
    method CopyOwned(owned: string, into: Dirs) returns (more: Dirs)
      ensures more == into + Kept(dirs, owned)
    {
      more := into;
      var rest := dirs.Keys;
      ghost var taken := map[];
      while rest != {}
        invariant rest <= dirs.Keys
        invariant more == into + taken
        invariant taken == map key | key in dirs && owned <= key && key !in rest :: dirs[key]
        decreases rest
      {
        var key :| key in rest;
        rest := rest - {key};
        if owned <= key {
          more, taken := more[key := dirs[key]], taken[key := dirs[key]];
        }
      }
      assert taken == Kept(dirs, owned);
    }

    method AddLibrary(lib: Lib, fp: Fingerprint, into: Dirs, disk: Disk, fold: Folding) returns (same: bool, more: Dirs)
      ensures same <==> lib in fingerprints && fingerprints[lib] == fp
      ensures more == Added(Held(), lib, fp, into, disk, fold)
    {
      same := lib in fingerprints && fingerprints[lib] == fp;
      if same {
        more := CopyOwned(LibraryPrefix(lib, fold), into);
      } else {
        more := ScanLibraryInto(lib, disk(lib, fp), into, fold);
      }
    }

    /** The incremental refresh of the index. */
    method RefreshIfStale(libs: seq<Lib>, live: Lib -> Option<Fingerprint>, disk: Disk, fold: Folding)
      modifies this
      ensures Held() == Refreshed(old(Held()), libs, live, disk, fold)
    {
      if |libs| == |fingerprints| && AllSame(fingerprints, libs, live) {
        return;
      }
      var freshDirs, freshPrints, changed := Rebuild(libs, live, disk, fold);
      fingerprints := freshPrints;
      if changed || |freshDirs| != |dirs| {
        dirs := freshDirs;
      }
    }

    method Rebuild(libs: seq<Lib>, live: Lib -> Option<Fingerprint>, disk: Disk, fold: Folding)
      returns (freshDirs: Dirs, freshPrints: map<Lib, Fingerprint>, changed: bool)
      ensures freshPrints == LiveOf(libs, live) && freshDirs == Rebuilt(Held(), libs, |libs|, live, disk, fold)
      ensures changed <==> !AllSame(fingerprints, libs, live)
    {
      hide Added;
      changed := false;
      freshDirs, freshPrints := map[], map[];
      for i := 0 to |libs|
        invariant freshPrints == LiveOf(libs[..i], live) && freshDirs == Rebuilt(Held(), libs, i, live, disk, fold)
        invariant changed <==> !AllSame(fingerprints, libs[..i], live)
      {
        var lib := libs[i];
        LiveNext(libs, i, live);
        SameNext(fingerprints, libs, i, live);
        match live(lib) {
          case None => changed := true;
          case Some(fp) =>
            var same;
            same, freshDirs := AddLibrary(lib, fp, freshDirs, disk, fold);
            changed := changed || !same;
            freshPrints := freshPrints[lib := fp];
        }
      }
      assert libs[..|libs|] == libs;
    }
  }

  lemma LiveNext(libs: seq<Lib>, i: nat, live: Lib -> Option<Fingerprint>)
    requires i < |libs|
    ensures LiveOf(libs[..i + 1], live) ==
            var before := LiveOf(libs[..i], live);
            if live(libs[i]).Some? then before[libs[i] := live(libs[i]).value] else before
  {
    OneLonger(libs, i);
  }

  lemma SameNext(prints: map<Lib, Fingerprint>, libs: seq<Lib>, i: nat, live: Lib -> Option<Fingerprint>)
    requires i < |libs|
    ensures AllSame(prints, libs[..i + 1], live) <==> AllSame(prints, libs[..i], live) && SameLib(prints, libs[i], live)
  {
    OneLonger(libs, i);
    assert libs[..i + 1][i] == libs[i];
  }

  // ---------------------------------------------------------------- looking up

  /** The key is a prefix of the path, and every other such key is a shorter one. */
  ghost predicate IsLongest(dirs: Dirs, path: string, key: string) {
    && key in dirs && key != [] && key <= path
    && forall other :: other in dirs && other != key && other <= path ==> |other| < |key|
  }

  /** The value of the one longest key that is a prefix of the path, or nothing if no key is. */
  ghost predicate IsAnswer(dirs: Dirs, raw: string, fold: Folding, best: Option<string>) {
    match best
    case Some(value) => exists key :: IsLongest(dirs, Canonical(raw, fold), key) && dirs[key] == value
    case None => forall key :: key in dirs && key <= Canonical(raw, fold) ==> key == []
  }

  /** Whatever order the map is walked in, the one longest prefix wins. */
  method MatchPrefix(dirs: Dirs, raw: string, fold: Folding) returns (best: Option<string>, ghost key: string)
    ensures best.Some? ==> IsLongest(dirs, Canonical(raw, fold), key) && best.value == dirs[key]
    ensures best.None? ==> forall other :: other in dirs && other <= Canonical(raw, fold) ==> other == []
    ensures IsAnswer(dirs, raw, fold, best)
  {
    var path := Canonical(raw, fold);
    best, key := None, [];
    var bestLen := 0;
    var rest := dirs.Keys;
    while rest != {}
      invariant rest <= dirs.Keys && bestLen == |key| && key <= path
      invariant best.None? <==> key == []
      invariant best.Some? ==> key in dirs && best.value == dirs[key]
      invariant forall other :: other in dirs && other !in rest && other <= path ==> |other| < |key| || other == key
      decreases rest
    {
      var prefix :| prefix in rest;
      rest := rest - {prefix};
      if |prefix| > bestLen && prefix <= path {
        best, key, bestLen := Some(dirs[prefix]), prefix, |prefix|;
      } else if prefix <= path && |prefix| == |key| {
        assert prefix == path[..|prefix|] == key;
      }
    }
  }
}
