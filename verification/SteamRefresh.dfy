/**
 When an incremental refresh of the Steam index equals a full rescan: exactly, over all libraries, fingerprints
 and spellings of library paths.
 */
module SteamRefresh {
  import opened Presence
  import opened SteamIndex
  import Text

  // ---------------------------------------------------------------- where a library's keys begin

  lemma {:induction false} LoweredJoins(a: string, b: string, fold: Folding)
    ensures Lowered(a + b, fold) == Lowered(a, fold) + Lowered(b, fold)
    decreases |b|
  {
    if b == [] {
      assert a + b == a;
    } else {
      var n, c := |b| - 1, b[|b| - 1];
      LoweredJoins(a, b[..n], fold);
      assert a + b == (a + b[..n]) + [c];
      LoweredNext(a + b[..n], c, fold);
      Text.Regroup(Lowered(a, fold), Lowered(b[..n], fold), LoweredChar(c, fold));
    }
  }

  lemma LoweredNext(s: string, c: char, fold: Folding)
    ensures Lowered(s + [c], fold) == Lowered(s, fold) + LoweredChar(c, fold)
  {
    assert (s + [c])[..|s|] == s;
  }

  /** Text in lower-case ASCII letters and separators is its own lower-cased form. */
  lemma {:induction false} LoweredPlain(s: string, fold: Folding)
    requires Folds(fold) && forall i :: 0 <= i < |s| ==> Plain(s[i])
    ensures Lowered(s, fold) == s
  {
    if s != [] {
      var before, c := s[..|s| - 1], s[|s| - 1];
      assert Plain(c);
      LoweredPlain(before, fold);
      LastBack(s);
    }
  }

  lemma LastBack(s: string)
    requires s != []
    ensures s[..|s| - 1] + [s[|s| - 1]] == s
  {
  }

  /** The library path does not end in a separator. */
  predicate Tidy(lib: Lib, fold: Folding) {
    var s := Lowered(lib, fold);
    s == [] || s[|s| - 1] != '/'
  }

  lemma PlainSteamapps(fold: Folding)
    requires Folds(fold)
    ensures Lowered("/" + STEAMAPPS, fold) == "/" + STEAMAPPS
  {
    LoweredPlain("/" + STEAMAPPS, fold);
  }

  /** Where a library's keys really begin: the path below it, canonicalized as a whole. */
  function Root(lib: Lib, fold: Folding): string { Below(lib, "", fold) }

  lemma KeyOf(lib: Lib, rest: string, fold: Folding)
    requires Folds(fold)
    ensures Below(lib, rest, fold) == Rooted(Lowered(lib, fold) + ("/" + STEAMAPPS) + Lowered(rest, fold))
  {
    assert lib + "/" + STEAMAPPS + rest == (lib + ("/" + STEAMAPPS)) + rest;
    LoweredJoins(lib + ("/" + STEAMAPPS), rest, fold);
    LoweredJoins(lib, "/" + STEAMAPPS, fold);
    PlainSteamapps(fold);
  }

  lemma RootedJoins(s: string, tail: string)
    requires s != []
    ensures Rooted(s + tail) == Rooted(s) + tail
  {
    Text.Regroup("/", s, tail);
  }

  lemma RootIs(lib: Lib, fold: Folding)
    requires Folds(fold)
    ensures Root(lib, fold) == Rooted(Lowered(lib, fold) + ("/" + STEAMAPPS))
  {
    KeyOf(lib, "", fold);
    assert Lowered("", fold) == "";
    var s := Lowered(lib, fold) + ("/" + STEAMAPPS);
    assert s + "" == s;
  }

  lemma KeyIsRooted(lib: Lib, rest: string, fold: Folding)
    requires Folds(fold)
    ensures Below(lib, rest, fold) == Root(lib, fold) + Lowered(rest, fold)
  {
    KeyOf(lib, rest, fold);
    RootIs(lib, fold);
    RootedJoins(Lowered(lib, fold) + ("/" + STEAMAPPS), Lowered(rest, fold));
  }

  /** The library's prefix is where its keys begin exactly when its path has no trailing separator. */
  lemma PrefixIsRootIff(lib: Lib, fold: Folding)
    requires Folds(fold)
    ensures |LibraryPrefix(lib, fold)| <= |Root(lib, fold)|
    ensures LibraryPrefix(lib, fold) <= Root(lib, fold) <==> Tidy(lib, fold)
    ensures Tidy(lib, fold) ==> LibraryPrefix(lib, fold) == Root(lib, fold)
  {
    var s := Lowered(lib, fold);
    RootIs(lib, fold);
    if s == [] {
      assert s + ("/" + STEAMAPPS) == "/" + STEAMAPPS && Slashed(Rooted(s)) == "/";
    } else {
      RootedJoins(s, "/" + STEAMAPPS);
      LastOfRooted(s);
      Spellings(Rooted(s));
    }
  }

  lemma LastOfRooted(s: string)
    requires s != []
    ensures Rooted(s)[|Rooted(s)| - 1] == s[|s| - 1]
  {
  }

  lemma Spellings(r: string)
    requires r != []
    ensures var prefix, root := Slashed(r) + STEAMAPPS, r + ("/" + STEAMAPPS);
            if r[|r| - 1] == '/' then |prefix| <= |root| && !(prefix <= root) else prefix == root
  {
    if r[|r| - 1] == '/' {
      var prefix, root := r + STEAMAPPS, r + ("/" + STEAMAPPS);
      assert prefix[|r|] == STEAMAPPS[0] == 's' && root[|r|] == '/';
    } else {
      Text.Regroup(r, "/", STEAMAPPS);
    }
  }

  /** A key of the library: below its root, and below its prefix exactly when the path is tidy. */
  ghost predicate IsKeyOf(key: string, lib: Lib, fold: Folding) {
    Root(lib, fold) <= key && (LibraryPrefix(lib, fold) <= key <==> Tidy(lib, fold))
  }

  lemma BelowRoot(lib: Lib, tail: string, fold: Folding)
    requires Folds(fold)
    ensures IsKeyOf(Root(lib, fold) + tail, lib, fold)
  {
    PrefixIsRootIff(lib, fold);
    hide LibraryPrefix, Tidy, Root;
    ShorterPrefix(LibraryPrefix(lib, fold), Root(lib, fold), tail);
  }

  lemma ShorterPrefix(p: string, s: string, tail: string)
    requires |p| <= |s|
    ensures p <= s + tail <==> p <= s
  {
    assert (s + tail)[..|p|] == s[..|p|];
  }

  lemma SlashedTail(s: string, tail: string) returns (more: string)
    ensures Slashed(s + tail) == s + more
  {
    more := if Slashed(s + tail) == s + tail then tail else tail + "/";
    Text.Regroup(s, tail, "/");
  }

  lemma NewKeyIsOwn(lib: Lib, entry: DirEntry, dirs: Dirs, fold: Folding, key: string)
    requires Folds(fold) && key !in dirs && key in Scanned(lib, entry, dirs, fold)
    ensures IsKeyOf(key, lib, fold)
  {
    hide IsKeyOf, Below, Lowered, Root;
    match entry
    case Prefix(name) =>
      var rest := "compatdata/" + name + "/";
      KeyIsRooted(lib, rest, fold);
      BelowRoot(lib, Lowered(rest, fold), fold);
    case Manifest(_, installdir) =>
      var rest := "common/" + installdir;
      KeyIsRooted(lib, rest, fold);
      var tail := SlashedTail(Root(lib, fold), Lowered(rest, fold));
      BelowRoot(lib, tail, fold);
  }

  lemma {:induction false} ScanIsOwn(lib: Lib, entries: seq<DirEntry>, n: nat, fold: Folding, key: string)
    requires Folds(fold) && n <= |entries| && key in ScanOf(lib, entries, n, fold)
    ensures IsKeyOf(key, lib, fold)
  {
    if key in ScanOf(lib, entries, n - 1, fold) {
      ScanIsOwn(lib, entries, n - 1, fold, key);
    } else {
      NewKeyIsOwn(lib, entries[n - 1], ScanOf(lib, entries, n - 1, fold), fold, key);
    }
  }

  // ---------------------------------------------------------------- unions of scans

  ghost function Contents(lib: Lib, fp: Fingerprint, disk: Disk, fold: Folding): Dirs {
    FreshScan(lib, disk(lib, fp), fold)
  }

  lemma ContentsAreOwn(lib: Lib, fp: Fingerprint, disk: Disk, fold: Folding)
    requires Folds(fold)
    ensures AllKeysOf(Contents(lib, fp, disk, fold), lib, fold)
  {
    var entries := disk(lib, fp);
    forall key | key in Contents(lib, fp, disk, fold) ensures IsKeyOf(key, lib, fold) {
      ScanIsOwn(lib, entries, Min(|entries|, MAX_SCAN_ENTRIES), fold, key);
    }
  }

  ghost predicate AllKeysOf(dirs: Dirs, lib: Lib, fold: Folding) {
    forall key :: key in dirs ==> IsKeyOf(key, lib, fold)
  }

  predicate Nested(p: string, q: string) { p <= q || q <= p }

  /** No library lies below another's `steamapps`, however their paths are spelled. */
  ghost predicate Apart(libs: set<Lib>, fold: Folding) {
    forall a, b :: a in libs && b in libs && a != b ==>
      !Nested(Root(a, fold), Root(b, fold)) && !Nested(LibraryPrefix(a, fold), Root(b, fold))
  }

  ghost function PartsOf(fps: map<Lib, Fingerprint>, disk: Disk, fold: Folding): map<Lib, Dirs> {
    map lib | lib in fps :: Contents(lib, fps[lib], disk, fold)
  }

  /** Everything in the parts, and nothing else. */
  ghost predicate IsUnion(dirs: Dirs, parts: map<Lib, Dirs>) {
    && (forall lib :: lib in parts ==> Submap(parts[lib], dirs))
    && (forall key :: key in dirs ==> InSome(parts, key))
  }

  ghost predicate InSome(parts: map<Lib, Dirs>, key: string) {
    exists lib :: lib in parts && key in parts[lib]
  }

  /** The index is the union of rebuilt scans of these libraries. */
  ghost predicate Exact(dirs: Dirs, fps: map<Lib, Fingerprint>, disk: Disk, fold: Folding) {
    IsUnion(dirs, PartsOf(fps, disk, fold))
  }

  lemma OneOwner(p: string, q: string, key: string)
    requires p <= key && q <= key
    ensures p <= q || q <= p
  {
    if |p| <= |q| { assert q[..|p|] == key[..|p|] == p; } else { assert p[..|q|] == key[..|q|] == q; }
  }

  lemma Summed(dirs: Dirs, part: Dirs)
    requires part.Keys !! dirs.Keys
    ensures part + dirs == dirs + part && (dirs + part).Keys == dirs.Keys + part.Keys
    ensures Submap(dirs, dirs + part) && Submap(part, dirs + part)
  {
  }

  lemma SubmapChain(a: Dirs, b: Dirs, c: Dirs)
    requires Submap(a, b) && Submap(b, c)
    ensures Submap(a, c)
  {
    forall k | k in a ensures k in c && a[k] == c[k] { assert k in b; }
  }

  lemma UnionGrows(dirs: Dirs, parts: map<Lib, Dirs>, lib: Lib, part: Dirs, sum: Dirs)
    requires IsUnion(dirs, parts) && lib !in parts && sum.Keys == dirs.Keys + part.Keys
    requires Submap(dirs, sum) && Submap(part, sum)
    ensures IsUnion(sum, parts[lib := part])
  {
    var more := parts[lib := part];
    forall other | other in more ensures Submap(more[other], sum) {
      if other != lib { SubmapChain(parts[other], dirs, sum); }
    }
    forall key | key in sum ensures InSome(more, key) {
      InMore(parts, lib, part, key);
    }
  }

  lemma InMore(parts: map<Lib, Dirs>, lib: Lib, part: Dirs, key: string)
    requires lib !in parts && (key in part || InSome(parts, key))
    ensures InSome(parts[lib := part], key)
  {
    var more := parts[lib := part];
    if key in part {
      assert lib in more && key in more[lib];
    } else {
      var other :| other in parts && key in parts[other];
      assert other in more && key in more[other];
    }
  }

  /** A key has one owner. */
  lemma OwnerIsUnique(libs: set<Lib>, a: Lib, b: Lib, fold: Folding, key: string)
    requires Apart(libs, fold) && a in libs && b in libs && IsKeyOf(key, b, fold)
    requires IsKeyOf(key, a, fold) || LibraryPrefix(a, fold) <= key
    ensures a == b
  {
    hide Root, LibraryPrefix;
    if LibraryPrefix(a, fold) <= key { OneOwner(LibraryPrefix(a, fold), Root(b, fold), key); }
    if IsKeyOf(key, a, fold) { OneOwner(Root(a, fold), Root(b, fold), key); }
  }

  ghost predicate PartsAreOwn(parts: map<Lib, Dirs>, fold: Folding) {
    forall lib :: lib in parts ==> AllKeysOf(parts[lib], lib, fold)
  }

  /** What a rebuild copies for a library: all of its keys when its path is tidy, none otherwise. */
  lemma KeptIs(dirs: Dirs, parts: map<Lib, Dirs>, lib: Lib, fold: Folding)
    requires IsUnion(dirs, parts) && PartsAreOwn(parts, fold) && lib in parts && Apart(parts.Keys, fold)
    ensures Kept(dirs, LibraryPrefix(lib, fold)) == if Tidy(lib, fold) then parts[lib] else map[]
  {
    var kept := Kept(dirs, LibraryPrefix(lib, fold));
    hide Apart, Tidy, Root, LibraryPrefix;
    forall key | key in kept ensures key in parts[lib] && Tidy(lib, fold) {
      var other :| other in parts && key in parts[other];
      assert AllKeysOf(parts[other], other, fold);
      OwnerIsUnique(parts.Keys, lib, other, fold, key);
    }
    assert Submap(parts[lib], dirs) && AllKeysOf(parts[lib], lib, fold);
  }

  lemma PartsAre(fps: map<Lib, Fingerprint>, disk: Disk, fold: Folding)
    requires Folds(fold)
    ensures PartsAreOwn(PartsOf(fps, disk, fold), fold)
  {
    hide AllKeysOf, Contents;
    forall lib | lib in fps ensures AllKeysOf(Contents(lib, fps[lib], disk, fold), lib, fold) {
      ContentsAreOwn(lib, fps[lib], disk, fold);
    }
  }

  /**
   Exactly when a rebuild keeps what it cached of an unchanged library: when the library's path has no trailing
   separator, or there was nothing to keep.
   */
  lemma KeptIsContentsIff(dirs: Dirs, fps: map<Lib, Fingerprint>, disk: Disk, fold: Folding, lib: Lib)
    requires Folds(fold) && Exact(dirs, fps, disk, fold) && Apart(fps.Keys, fold) && lib in fps
    ensures Kept(dirs, LibraryPrefix(lib, fold)) == Contents(lib, fps[lib], disk, fold) <==>
            Tidy(lib, fold) || Contents(lib, fps[lib], disk, fold) == map[]
  {
    hide Contents, Kept, Tidy, LibraryPrefix, Apart;
    var parts := PartsOf(fps, disk, fold);
    PartsAre(fps, disk, fold);
    assert parts.Keys == fps.Keys;
    KeptIs(dirs, parts, lib, fold);
  }

  // ---------------------------------------------------------------- the rebuild

  function LibSet(libs: seq<Lib>): set<Lib> { set lib | lib in libs }

  ghost predicate AllDifferent(libs: seq<Lib>) {
    forall i, j :: 0 <= i < j < |libs| ==> libs[i] != libs[j]
  }

  predicate Unchanged(index: Index, lib: Lib, fp: Fingerprint) { lib in index.prints && index.prints[lib] == fp }

  /** What the rebuild takes of one library. */
  ghost function Part(index: Index, lib: Lib, fp: Fingerprint, disk: Disk, fold: Folding): Dirs {
    if Unchanged(index, lib, fp) then Kept(index.dirs, LibraryPrefix(lib, fold)) else Contents(lib, fp, disk, fold)
  }

  ghost function PartsAfter(index: Index, fps: map<Lib, Fingerprint>, disk: Disk, fold: Folding): map<Lib, Dirs> {
    map lib | lib in fps :: Part(index, lib, fps[lib], disk, fold)
  }

  /** The index is exact, and known and resolved libraries are apart. */
  ghost predicate Ready(index: Index, libs: set<Lib>, disk: Disk, fold: Folding) {
    Folds(fold) && Exact(index.dirs, index.prints, disk, fold) && Apart(index.prints.Keys + libs, fold)
  }

  lemma ApartNarrows(libs: set<Lib>, some: set<Lib>, fold: Folding)
    requires Apart(libs, fold) && some <= libs
    ensures Apart(some, fold)
  {
  }

  /** All of the library, unless it is unchanged and untidy: then nothing. */
  lemma PartIs(index: Index, libs: set<Lib>, lib: Lib, fp: Fingerprint, disk: Disk, fold: Folding)
    requires Ready(index, libs, disk, fold)
    ensures Part(index, lib, fp, disk, fold) ==
            if Unchanged(index, lib, fp) && !Tidy(lib, fold) then map[] else Contents(lib, fp, disk, fold)
    ensures AllKeysOf(Part(index, lib, fp, disk, fold), lib, fold)
  {
    hide Contents, Kept, Tidy, LibraryPrefix, Apart, AllKeysOf;
    ContentsAreOwn(lib, fp, disk, fold);
    NoKeys(lib, fold);
    if Unchanged(index, lib, fp) {
      var parts := PartsOf(index.prints, disk, fold);
      PartsAre(index.prints, disk, fold);
      ApartNarrows(index.prints.Keys + libs, index.prints.Keys, fold);
      assert parts.Keys == index.prints.Keys;
      KeptIs(index.dirs, parts, lib, fold);
    }
  }

  lemma NoKeys(lib: Lib, fold: Folding)
    ensures AllKeysOf(map[], lib, fold)
  {
  }

  lemma Disjoint(dirs: Dirs, parts: map<Lib, Dirs>, libs: set<Lib>, lib: Lib, part: Dirs, fold: Folding)
    requires IsUnion(dirs, parts) && PartsAreOwn(parts, fold) && lib !in parts && AllKeysOf(part, lib, fold)
    requires Apart(libs, fold) && parts.Keys + {lib} <= libs
    ensures part.Keys !! dirs.Keys
  {
    hide Apart;
    forall key | key in dirs && key in part ensures false {
      var other :| other in parts && key in parts[other];
      assert AllKeysOf(parts[other], other, fold);
      OwnerIsUnique(libs, lib, other, fold, key);
    }
  }

  lemma PartsAfterAre(index: Index, libs: set<Lib>, fps: map<Lib, Fingerprint>, disk: Disk, fold: Folding)
    requires Ready(index, libs, disk, fold)
    ensures PartsAreOwn(PartsAfter(index, fps, disk, fold), fold)
  {
    hide AllKeysOf, Part, Ready;
    forall lib | lib in fps ensures AllKeysOf(Part(index, lib, fps[lib], disk, fold), lib, fold) {
      PartIs(index, libs, lib, fps[lib], disk, fold);
    }
  }

  lemma AddsPart(index: Index, libs: set<Lib>, fps: map<Lib, Fingerprint>, dirs: Dirs, lib: Lib, fp: Fingerprint,
                 disk: Disk, fold: Folding)
    requires Ready(index, libs, disk, fold) && fps.Keys + {lib} <= libs && lib !in fps
    requires IsUnion(dirs, PartsAfter(index, fps, disk, fold))
    ensures IsUnion(Added(index, lib, fp, dirs, disk, fold), PartsAfter(index, fps[lib := fp], disk, fold))
  {
    var parts, part := PartsAfter(index, fps, disk, fold), Part(index, lib, fp, disk, fold);
    assert PartsAfter(index, fps[lib := fp], disk, fold) == parts[lib := part];
    assert Added(index, lib, fp, dirs, disk, fold) == dirs + part ||
           Added(index, lib, fp, dirs, disk, fold) == part + dirs;
    assert parts.Keys == fps.Keys && Apart(index.prints.Keys + libs, fold);
    hide PartsAfter, Part, IsUnion, PartsAreOwn, AllKeysOf, Added, Apart, Ready;
    PartsAfterAre(index, libs, fps, disk, fold);
    PartIs(index, libs, lib, fp, disk, fold);
    Disjoint(dirs, parts, index.prints.Keys + libs, lib, part, fold);
    Summed(dirs, part);
    UnionGrows(dirs, parts, lib, part, dirs + part);
  }

  lemma LiveSoFar(libs: seq<Lib>, i: nat, live: Lib -> Option<Fingerprint>)
    requires i < |libs| && AllDifferent(libs)
    ensures libs[i] !in LiveOf(libs[..i], live) && LiveOf(libs[..i], live).Keys + {libs[i]} <= LibSet(libs)
  {
    assert libs[i] in libs;
  }

  ghost predicate UnionSoFar(index: Index, libs: seq<Lib>, n: nat, live: Lib -> Option<Fingerprint>, disk: Disk,
                             fold: Folding)
    requires n <= |libs|
  {
    IsUnion(Rebuilt(index, libs, n, live, disk, fold), PartsAfter(index, LiveOf(libs[..n], live), disk, fold))
  }

  lemma UnionNext(index: Index, libs: seq<Lib>, i: nat, live: Lib -> Option<Fingerprint>, disk: Disk, fold: Folding)
    requires Ready(index, LibSet(libs), disk, fold) && AllDifferent(libs) && i < |libs|
    requires UnionSoFar(index, libs, i, live, disk, fold)
    ensures UnionSoFar(index, libs, i + 1, live, disk, fold)
  {
    LiveNext(libs, i, live);
    LiveSoFar(libs, i, live);
    hide Ready, IsUnion, PartsAfter, Added, LiveOf, AllDifferent, LibSet;
    if live(libs[i]).Some? {
      AddsPart(index, LibSet(libs), LiveOf(libs[..i], live), Rebuilt(index, libs, i, live, disk, fold), libs[i],
               live(libs[i]).value, disk, fold);
    }
  }

  /** The rebuild is the union of what it takes of each live library. */
  lemma RebuiltIsUnion(index: Index, libs: seq<Lib>, live: Lib -> Option<Fingerprint>, disk: Disk, fold: Folding)
    requires Ready(index, LibSet(libs), disk, fold) && AllDifferent(libs)
    ensures IsUnion(Rebuilt(index, libs, |libs|, live, disk, fold), PartsAfter(index, LiveOf(libs, live), disk, fold))
  {
    StartsEmpty(index, libs, live, disk, fold);
    assert libs[..|libs|] == libs && UnionSoFar(index, libs, 0, live, disk, fold);
    hide Ready, Rebuilt, IsUnion, PartsAfter, LiveOf, AllDifferent, LibSet;
    for i := 0 to |libs|
      invariant UnionSoFar(index, libs, i, live, disk, fold)
    {
      hide UnionSoFar;
      UnionNext(index, libs, i, live, disk, fold);
    }
  }

  lemma StartsEmpty(index: Index, libs: seq<Lib>, live: Lib -> Option<Fingerprint>, disk: Disk, fold: Folding)
    ensures UnionSoFar(index, libs, 0, live, disk, fold)
  {
  }

  // ---------------------------------------------------------------- the refresh

  lemma {:induction false} SetSize(libs: seq<Lib>)
    requires AllDifferent(libs)
    ensures |LibSet(libs)| == |libs|
  {
    if libs != [] {
      var n := |libs| - 1;
      SetSize(libs[..n]);
      assert LibSet(libs) == LibSet(libs[..n]) + {libs[n]} by { assert libs == libs[..n] + [libs[n]]; }
    }
  }

  /** As many libraries as known ones, each with its known fingerprint: they are the known ones. */
  lemma SameLibraries(libs: seq<Lib>, known: map<Lib, Fingerprint>, live: Lib -> Option<Fingerprint>)
    requires AllDifferent(libs) && |libs| == |known| && AllSame(known, libs, live)
    ensures known == LiveOf(libs, live)
  {
    SetSize(libs);
    SubsetSize(LibSet(libs), known.Keys);
    assert |known.Keys| == |known|;
  }

  /** Nothing to do: the known libraries, all unchanged. */
  predicate UpToDate(index: Index, libs: seq<Lib>, live: Lib -> Option<Fingerprint>) {
    |libs| == |index.prints| && AllSame(index.prints, libs, live)
  }

  /** A rebuild loses this library: unchanged, spelled with a trailing separator, and not empty. */
  ghost predicate Loses(index: Index, lib: Lib, live: Lib -> Option<Fingerprint>, disk: Disk, fold: Folding) {
    && SameLib(index.prints, lib, live) && !Tidy(lib, fold)
    && Contents(lib, index.prints[lib], disk, fold) != map[]
  }

  lemma PartsUnlessLost(index: Index, libs: seq<Lib>, live: Lib -> Option<Fingerprint>, disk: Disk, fold: Folding)
    requires Ready(index, LibSet(libs), disk, fold)
    requires forall lib :: lib in libs ==> !Loses(index, lib, live, disk, fold)
    ensures PartsAfter(index, LiveOf(libs, live), disk, fold) == PartsOf(LiveOf(libs, live), disk, fold)
  {
    hide Ready, Contents, Tidy, Part;
    var fps := LiveOf(libs, live);
    forall lib | lib in fps
      ensures Part(index, lib, fps[lib], disk, fold) == Contents(lib, fps[lib], disk, fold)
    {
      PartIs(index, LibSet(libs), lib, fps[lib], disk, fold);
      assert !Loses(index, lib, live, disk, fold);
    }
  }

  /** Without a change, everything rebuilt was cached. */
  lemma RebuiltWasCached(index: Index, libs: seq<Lib>, live: Lib -> Option<Fingerprint>, disk: Disk, fold: Folding)
    requires Ready(index, LibSet(libs), disk, fold) && AllDifferent(libs) && AllSame(index.prints, libs, live)
    ensures Submap(Rebuilt(index, libs, |libs|, live, disk, fold), index.dirs)
  {
    var rebuilt, fps := Rebuilt(index, libs, |libs|, live, disk, fold), LiveOf(libs, live);
    var parts := PartsAfter(index, fps, disk, fold);
    RebuiltIsUnion(index, libs, live, disk, fold);
    forall lib | lib in parts ensures Submap(parts[lib], index.dirs) {
      CachedPart(index, libs, live, disk, fold, lib);
    }
    hide Ready, Rebuilt, PartsAfter;
    forall key | key in rebuilt ensures key in index.dirs && rebuilt[key] == index.dirs[key] {
      var lib :| lib in parts && key in parts[lib];
      assert Submap(parts[lib], rebuilt);
    }
  }

  lemma CachedPart(index: Index, libs: seq<Lib>, live: Lib -> Option<Fingerprint>, disk: Disk, fold: Folding, lib: Lib)
    requires AllSame(index.prints, libs, live) && lib in LiveOf(libs, live)
    ensures Submap(PartsAfter(index, LiveOf(libs, live), disk, fold)[lib], index.dirs)
  {
    hide Contents;
    assert SameLib(index.prints, lib, live);
  }

  /** A lost library's keys are not rebuilt. */
  lemma LostIsNotRebuilt(index: Index, libs: seq<Lib>, live: Lib -> Option<Fingerprint>, disk: Disk, fold: Folding,
                         lib: Lib, key: string)
    requires Ready(index, LibSet(libs), disk, fold) && AllDifferent(libs)
    requires lib in libs && Loses(index, lib, live, disk, fold) && key in Contents(lib, index.prints[lib], disk, fold)
    ensures key !in Rebuilt(index, libs, |libs|, live, disk, fold)
  {
    var rebuilt, fps := Rebuilt(index, libs, |libs|, live, disk, fold), LiveOf(libs, live);
    var parts := PartsAfter(index, fps, disk, fold);
    RebuiltIsUnion(index, libs, live, disk, fold);
    if key in rebuilt {
      var other :| other in parts && key in parts[other];
      hide Rebuilt, IsUnion, Part, Contents, Tidy, Apart;
      PartIs(index, LibSet(libs), other, fps[other], disk, fold);
      ContentsAreOwn(lib, index.prints[lib], disk, fold);
      OwnerIsUnique(index.prints.Keys + LibSet(libs), lib, other, fold, key);
      assert false;
    }
  }

  /**
   Exactly when the incremental refresh equals a full rescan, whatever the known and the newly resolved libraries
   are and whichever of them changed, vanished or stayed: when there is nothing to do, or no unchanged library
   with something in it is spelled with a trailing separator.
   */
  lemma RefreshIsRescanIff(index: Index, libs: seq<Lib>, live: Lib -> Option<Fingerprint>, disk: Disk, fold: Folding)
    requires Ready(index, LibSet(libs), disk, fold) && AllDifferent(libs)
    ensures var next := Refreshed(index, libs, live, disk, fold);
            && next.prints == LiveOf(libs, live)
            && (Exact(next.dirs, next.prints, disk, fold) <==>
                UpToDate(index, libs, live) || forall lib :: lib in libs ==> !Loses(index, lib, live, disk, fold))
  {
    if UpToDate(index, libs, live) {
      SameLibraries(libs, index.prints, live);
    } else if lib :| lib in libs && Loses(index, lib, live, disk, fold) {
      LostRefresh(index, libs, live, disk, fold, lib);
    } else {
      CleanRefresh(index, libs, live, disk, fold);
    }
  }

  lemma CleanRefresh(index: Index, libs: seq<Lib>, live: Lib -> Option<Fingerprint>, disk: Disk, fold: Folding)
    requires Ready(index, LibSet(libs), disk, fold) && AllDifferent(libs) && !UpToDate(index, libs, live)
    requires forall lib :: lib in libs ==> !Loses(index, lib, live, disk, fold)
    ensures Exact(Refreshed(index, libs, live, disk, fold).dirs, LiveOf(libs, live), disk, fold)
  {
    hide Ready, Loses, IsUnion, PartsAfter, PartsOf, Rebuilt;
    var rebuilt := Rebuilt(index, libs, |libs|, live, disk, fold);
    RebuiltIsUnion(index, libs, live, disk, fold);
    PartsUnlessLost(index, libs, live, disk, fold);
    if AllSame(index.prints, libs, live) {
      RebuiltWasCached(index, libs, live, disk, fold);
      SubmapSize(rebuilt, index.dirs);
    }
  }

  lemma LostRefresh(index: Index, libs: seq<Lib>, live: Lib -> Option<Fingerprint>, disk: Disk, fold: Folding, lib: Lib)
    requires Ready(index, LibSet(libs), disk, fold) && AllDifferent(libs) && !UpToDate(index, libs, live)
    requires lib in libs && Loses(index, lib, live, disk, fold)
    ensures !Exact(Refreshed(index, libs, live, disk, fold).dirs, LiveOf(libs, live), disk, fold)
  {
    var rebuilt, part := Rebuilt(index, libs, |libs|, live, disk, fold), Contents(lib, index.prints[lib], disk, fold);
    var key :| key in part;
    hide Rebuilt, Contents, Tidy, Apart;
    LostIsNotRebuilt(index, libs, live, disk, fold, lib, key);
    assert PartsOf(index.prints, disk, fold)[lib] == part && Submap(part, index.dirs);
    if AllSame(index.prints, libs, live) {
      RebuiltWasCached(index, libs, live, disk, fold);
      SubmapSize(rebuilt, index.dirs);
    }
    assert PartsOf(LiveOf(libs, live), disk, fold)[lib] == part;
  }

  /** No library ends in a separator or lies below another's `steamapps`. */
  ghost predicate Separate(libs: set<Lib>, fold: Folding) {
    && (forall a :: a in libs ==> Tidy(a, fold))
    && (forall a, b :: a in libs && b in libs && a != b ==> !(LibraryPrefix(a, fold) <= LibraryPrefix(b, fold)))
  }

  /** So among separate libraries every refresh is a rescan. */
  lemma RefreshIsRescan(index: Index, libs: seq<Lib>, live: Lib -> Option<Fingerprint>, disk: Disk, fold: Folding)
    requires Folds(fold) && Exact(index.dirs, index.prints, disk, fold) && AllDifferent(libs)
    requires Separate(index.prints.Keys + LibSet(libs), fold)
    ensures var next := Refreshed(index, libs, live, disk, fold);
            next.prints == LiveOf(libs, live) && Exact(next.dirs, next.prints, disk, fold)
  {
    var all := index.prints.Keys + LibSet(libs);
    hide LibraryPrefix, Root, Tidy, Exact, Refreshed;
    forall a | a in all ensures LibraryPrefix(a, fold) == Root(a, fold) { PrefixIsRootIff(a, fold); }
    assert Apart(all, fold);
    forall lib | lib in libs ensures !Loses(index, lib, live, disk, fold) { assert lib in all; }
    RefreshIsRescanIff(index, libs, live, disk, fold);
  }

  // ---------------------------------------------------------------- an index that loses a library

  lemma PlainLibrary(lib: Lib, fold: Folding)
    requires Folds(fold) && lib != [] && lib[0] == '/' && forall i :: 0 <= i < |lib| ==> Plain(lib[i])
    ensures Lowered(lib, fold) == lib && lib <= Root(lib, fold) && lib <= LibraryPrefix(lib, fold)
  {
    LoweredPlain(lib, fold);
    RootIs(lib, fold);
    RootedJoins(lib, "/" + STEAMAPPS);
  }

  lemma DifferEarly(a: Lib, p: string, b: Lib, q: string)
    requires |a| > 1 && |b| > 1 && a[1] != b[1] && a <= p && b <= q
    ensures !Nested(p, q)
  {
    assert p[1] == a[1] && q[1] == b[1];
  }

  /** Absolute paths in lower case whose first letters differ are apart. */
  lemma PlainApart(a: Lib, b: Lib, fold: Folding)
    requires Folds(fold) && |a| > 1 && |b| > 1 && a[0] == b[0] == '/' && a[1] != b[1]
    requires (forall i :: 0 <= i < |a| ==> Plain(a[i])) && (forall i :: 0 <= i < |b| ==> Plain(b[i]))
    ensures Apart({a, b}, fold)
  {
    hide Root, LibraryPrefix, Nested, Lowered, Plain, Folds;
    PlainLibrary(a, fold);
    PlainLibrary(b, fold);
    DifferEarly(a, Root(a, fold), b, Root(b, fold));
    DifferEarly(b, Root(b, fold), a, Root(a, fold));
    DifferEarly(a, LibraryPrefix(a, fold), b, Root(b, fold));
    DifferEarly(b, LibraryPrefix(b, fold), a, Root(a, fold));
  }

  /**
   Any refresh that loses a library: `a`, spelled with a trailing separator, is unchanged while `b` has changed.
   The exact index of both before it holds what is in `a`; the index after it is not the rescan.
   */
  lemma RefreshLosesLibrary(a: Lib, b: Lib, index: Index, live: Lib -> Option<Fingerprint>, disk: Disk, fold: Folding)
    requires Folds(fold) && Exact(index.dirs, index.prints, disk, fold) && index.prints.Keys == {a, b}
    requires a != b && Apart({a, b}, fold) && !Tidy(a, fold)
    requires SameLib(index.prints, a, live) && Contents(a, index.prints[a], disk, fold) != map[]
    requires live(b).Some? && live(b).value != index.prints[b]
    ensures var next := Refreshed(index, [a, b], live, disk, fold);
            !Exact(next.dirs, next.prints, disk, fold)
  {
    var libs := [a, b];
    assert index.prints.Keys + LibSet(libs) == {a, b};
    hide Apart, Exact, Contents, Tidy, Refreshed, Folds;
    assert libs[0] == a && libs[1] == b && a in libs;
    assert Loses(index, a, live, disk, fold) && !SameLib(index.prints, libs[1], live);
    RefreshIsRescanIff(index, libs, live, disk, fold);
  }

  lemma SlashedBesidePlain(fold: Folding)
    requires Folds(fold)
    ensures Apart({"/a/", "/b"}, fold) && !Tidy("/a/", fold)
  {
    PlainApart("/a/", "/b", fold);
    PlainLibrary("/a/", fold);
  }

  /** `/a/` holds one manifest and `/b` nothing, whatever their fingerprints. */
  function OneGame(lib: Lib, fp: Fingerprint): seq<DirEntry> {
    if lib == "/a/" then [Manifest("1", "game")] else []
  }

  lemma OneGameContents(fp: Fingerprint, fold: Folding)
    ensures Contents("/a/", fp, OneGame, fold) == map[CommonPrefix("/a/", "game", fold) := "1"] != map[]
    ensures Contents("/b", fp, OneGame, fold) == map[]
  {
    hide CommonPrefix;
    assert ScanOf("/a/", OneGame("/a/", fp), 0, fold) == map[];
    assert ScanOf("/b", OneGame("/b", fp), 0, fold) == map[];
    assert CommonPrefix("/a/", "game", fold) in map[CommonPrefix("/a/", "game", fold) := "1"];
  }

  function OneGameIndex(fold: Folding): Index {
    Index(map[CommonPrefix("/a/", "game", fold) := "1"], map["/a/" := 0, "/b" := 0])
  }

  function SecondMoved(lib: Lib): Option<Fingerprint> { Some(if lib == "/a/" then 0 else 1) }

  lemma OneGameIsExact(fold: Folding)
    ensures Exact(OneGameIndex(fold).dirs, OneGameIndex(fold).prints, OneGame, fold)
  {
    OneGameContents(0, fold);
    hide CommonPrefix, Contents;
    var parts := PartsOf(OneGameIndex(fold).prints, OneGame, fold);
    assert "/a/" in parts && "/b" in parts;
    assert InSome(parts, CommonPrefix("/a/", "game", fold));
  }

  lemma OneGameLoses(fold: Folding)
    ensures var prints := OneGameIndex(fold).prints;
            && prints.Keys == {"/a/", "/b"} && SameLib(prints, "/a/", SecondMoved)
            && Contents("/a/", prints["/a/"], OneGame, fold) != map[]
            && SecondMoved("/b").Some? && SecondMoved("/b").value != prints["/b"]
  {
    hide Contents, CommonPrefix;
    OneGameContents(0, fold);
    assert "/a/" != "/b";
  }

  /**
   Such a refresh: `/a/` with one game, unchanged, beside an empty `/b` whose fingerprint moves from 0 to 1. The
   index is exact before it and not after it.
   */
  lemma OneGameIsLost(fold: Folding)
    requires Folds(fold)
    ensures Exact(OneGameIndex(fold).dirs, OneGameIndex(fold).prints, OneGame, fold)
    ensures var next := Refreshed(OneGameIndex(fold), ["/a/", "/b"], SecondMoved, OneGame, fold);
            !Exact(next.dirs, next.prints, OneGame, fold)
  {
    hide OneGameIndex, Contents, Exact, Apart, Tidy, Folds, Refreshed, SecondMoved, SameLib;
    SlashedBesidePlain(fold);
    OneGameIsExact(fold);
    OneGameLoses(fold);
    assert "/a/" != "/b";
    RefreshLosesLibrary("/a/", "/b", OneGameIndex(fold), SecondMoved, OneGame, fold);
  }
}
