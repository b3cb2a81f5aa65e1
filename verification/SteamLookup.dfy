/**
 Which game a path is looked up as, in terms of the directories Steam puts games in: the install directory a manifest
 names and the Proton prefix of an application id.
 */
module SteamLookup {
  import opened Presence
  import opened SteamIndex
  import opened SteamRefresh
  import Text

  // ---------------------------------------------------------------- the directory an entry stands for

  /** The directory an entry stands for, in canonical form with a separator at its end; nothing for other files. */
  function DirOf(lib: Lib, entry: DirEntry, fold: Folding): Option<string> {
    match entry
    case Manifest(_, installdir) => Some(Slashed(Canonical(lib + "/steamapps/common/" + installdir, fold)))
    case Prefix(name) => Some(Canonical(lib + "/steamapps/compatdata/" + name + "/", fold))
    case Ignored => None
  }

  /** The application id it stands for. */
  function IdOf(entry: DirEntry): string {
    match entry case Manifest(appid, _) => appid case Prefix(name) => name case Ignored => ""
  }

  lemma ScannedIs(lib: Lib, entry: DirEntry, dirs: Dirs, fold: Folding)
    ensures Scanned(lib, entry, dirs, fold) ==
            match DirOf(lib, entry, fold)
            case Some(key) => if key in dirs then dirs else dirs[key := IdOf(entry)]
            case None => dirs
  {
    hide Canonical;
    match entry
    case Manifest(_, installdir) =>
      assert lib + "/" + STEAMAPPS + ("common/" + installdir) == lib + "/steamapps/common/" + installdir;
    case Prefix(name) =>
      assert lib + "/" + STEAMAPPS + ("compatdata/" + name + "/") == lib + "/steamapps/compatdata/" + name + "/";
    case Ignored =>
  }

  /** The first of the entries to stand for this directory. */
  ghost predicate IsFirst(lib: Lib, entries: seq<DirEntry>, j: nat, key: string, fold: Folding) {
    && j < |entries| && DirOf(lib, entries[j], fold) == Some(key)
    && forall i :: 0 <= i < j ==> DirOf(lib, entries[i], fold) != Some(key)
  }

  ghost predicate Stands(lib: Lib, entries: seq<DirEntry>, n: nat, key: string, fold: Folding)
    requires n <= |entries|
  {
    exists j :: 0 <= j < n && DirOf(lib, entries[j], fold) == Some(key)
  }

  lemma StandsNext(lib: Lib, entries: seq<DirEntry>, n: nat, key: string, fold: Folding)
    requires n < |entries|
    ensures Stands(lib, entries, n + 1, key, fold) <==>
            Stands(lib, entries, n, key, fold) || DirOf(lib, entries[n], fold) == Some(key)
  {
    hide DirOf;
  }

  lemma {:induction false} FirstExists(lib: Lib, entries: seq<DirEntry>, n: nat, key: string, fold: Folding)
    returns (j: nat)
    requires n <= |entries| && Stands(lib, entries, n, key, fold)
    ensures j < n && IsFirst(lib, entries, j, key, fold)
  {
    hide DirOf;
    if n > 0 && Stands(lib, entries, n - 1, key, fold) {
      j := FirstExists(lib, entries, n - 1, key, fold);
    } else {
      j := n - 1;
    }
  }

  lemma ScanNext(lib: Lib, entries: seq<DirEntry>, n: nat, fold: Folding, key: string)
    requires n < |entries|
    ensures var before, after := ScanOf(lib, entries, n, fold), ScanOf(lib, entries, n + 1, fold);
            && (key in after <==> key in before || DirOf(lib, entries[n], fold) == Some(key))
            && (key in after ==> after[key] == if key in before then before[key] else IdOf(entries[n]))
  {
    ScannedIs(lib, entries[n], ScanOf(lib, entries, n, fold), fold);
    hide DirOf, IdOf, Scanned;
  }

  lemma NothingScanned(lib: Lib, entries: seq<DirEntry>, key: string, fold: Folding)
    ensures key !in ScanOf(lib, entries, 0, fold) && !Stands(lib, entries, 0, key, fold)
  {
  }

  /** A fresh scan holds exactly the directories of its entries. */
  lemma {:induction false} ScanHolds(lib: Lib, entries: seq<DirEntry>, n: nat, fold: Folding, key: string)
    requires n <= |entries|
    ensures key in ScanOf(lib, entries, n, fold) <==> Stands(lib, entries, n, key, fold)
  {
    hide DirOf, ScanOf, Stands;
    if n == 0 {
      NothingScanned(lib, entries, key, fold);
    } else {
      ScanHolds(lib, entries, n - 1, fold, key);
      ScanNext(lib, entries, n - 1, fold, key);
      StandsNext(lib, entries, n - 1, key, fold);
    }
  }

  /** Each has the id of the first entry to stand for it. */
  lemma {:induction false} ScanHoldsFirst(lib: Lib, entries: seq<DirEntry>, n: nat, fold: Folding, key: string, j: nat)
    requires j < n <= |entries| && IsFirst(lib, entries, j, key, fold)
    ensures key in ScanOf(lib, entries, n, fold) && ScanOf(lib, entries, n, fold)[key] == IdOf(entries[j])
  {
    hide DirOf, ScanOf, IdOf;
    ScanNext(lib, entries, n - 1, fold, key);
    if j < n - 1 {
      ScanHoldsFirst(lib, entries, n - 1, fold, key, j);
    } else {
      ScanHolds(lib, entries, n - 1, fold, key);
    }
  }

  // ---------------------------------------------------------------- the lookup

  /** The path lies in the directory the entry stands for. */
  ghost predicate LiesIn(lib: Lib, entry: DirEntry, raw: string, fold: Folding) {
    DirOf(lib, entry, fold).Some? && DirOf(lib, entry, fold).value <= Canonical(raw, fold)
  }

  /** The path also lies in the directory of `other`, and that one is deeper. */
  ghost predicate Deeper(lib: Lib, other: DirEntry, entry: DirEntry, raw: string, fold: Folding) {
    && DirOf(lib, entry, fold).Some? && LiesIn(lib, other, raw, fold)
    && |DirOf(lib, other, fold).value| > |DirOf(lib, entry, fold).value|
  }

  /** The path lies in the entry's directory and in no deeper one of the first `n`, and none before has the same. */
  ghost predicate Decides(lib: Lib, entries: seq<DirEntry>, n: nat, j: nat, raw: string, fold: Folding)
    requires n <= |entries|
  {
    && j < n && LiesIn(lib, entries[j], raw, fold)
    && (forall i :: 0 <= i < n ==> !Deeper(lib, entries[i], entries[j], raw, fold))
    && (forall i :: 0 <= i < j ==> DirOf(lib, entries[i], fold) != DirOf(lib, entries[j], fold))
  }

  /** What a path is to be looked up as. */
  ghost predicate IsGame(lib: Lib, entries: seq<DirEntry>, n: nat, raw: string, fold: Folding, best: Option<string>)
    requires n <= |entries|
  {
    match best
    case Some(id) => exists j: nat :: Decides(lib, entries, n, j, raw, fold) && id == IdOf(entries[j])
    case None => forall j :: 0 <= j < n ==> !LiesIn(lib, entries[j], raw, fold)
  }

  /** How many entries of a directory are read. */
  function Read(entries: seq<DirEntry>): (n: nat)
    ensures n <= |entries|
  {
    if |entries| < 4096 then |entries| else 4096
  }

  lemma DirIsNotEmpty(lib: Lib, entry: DirEntry, fold: Folding)
    ensures DirOf(lib, entry, fold).Some? ==> DirOf(lib, entry, fold).value != []
  {
    hide Canonical;
  }

  lemma LongestDecides(lib: Lib, entries: seq<DirEntry>, n: nat, raw: string, fold: Folding, key: string, j: nat)
    requires n <= |entries| && IsLongest(ScanOf(lib, entries, n, fold), Canonical(raw, fold), key)
    requires j < n && IsFirst(lib, entries, j, key, fold)
    ensures Decides(lib, entries, n, j, raw, fold)
  {
    hide DirOf, ScanOf, Canonical;
    forall i | 0 <= i < n ensures !Deeper(lib, entries[i], entries[j], raw, fold) {
      if LiesIn(lib, entries[i], raw, fold) {
        ScanHolds(lib, entries, n, fold, DirOf(lib, entries[i], fold).value);
      }
    }
  }

  lemma NoKeyNoGame(lib: Lib, entries: seq<DirEntry>, n: nat, raw: string, fold: Folding)
    requires n <= |entries|
    requires forall key :: key in ScanOf(lib, entries, n, fold) && key <= Canonical(raw, fold) ==> key == []
    ensures IsGame(lib, entries, n, raw, fold, None)
  {
    hide DirOf, ScanOf, Canonical;
    forall j | 0 <= j < n ensures !LiesIn(lib, entries[j], raw, fold) {
      DirIsNotEmpty(lib, entries[j], fold);
      if DirOf(lib, entries[j], fold).Some? {
        ScanHolds(lib, entries, n, fold, DirOf(lib, entries[j], fold).value);
      }
    }
  }

  lemma KeyIsGame(lib: Lib, entries: seq<DirEntry>, n: nat, raw: string, fold: Folding, key: string)
    requires n <= |entries| && IsLongest(ScanOf(lib, entries, n, fold), Canonical(raw, fold), key)
    ensures IsGame(lib, entries, n, raw, fold, Some(ScanOf(lib, entries, n, fold)[key]))
  {
    hide DirOf, ScanOf, Canonical, Decides, IdOf, Stands;
    ScanHolds(lib, entries, n, fold, key);
    var j := FirstExists(lib, entries, n, key, fold);
    ScanHoldsFirst(lib, entries, n, fold, key, j);
    LongestDecides(lib, entries, n, raw, fold, key, j);
  }

  /**
   Exactly what a path is looked up as, after a fresh scan: nothing if it lies in none of the directories read;
   otherwise the id of the entry with the deepest of them, the first one listed if there are several.
   */
  lemma LookupIsGame(lib: Lib, entries: seq<DirEntry>, raw: string, fold: Folding, best: Option<string>)
    requires IsAnswer(FreshScan(lib, entries, fold), raw, fold, best)
    ensures IsGame(lib, entries, Read(entries), raw, fold, best)
  {
    var n := Read(entries);
    var dirs := ScanOf(lib, entries, n, fold);
    assert dirs == FreshScan(lib, entries, fold);
    hide ScanOf, Canonical, FreshScan, IsGame;
    match best
    case Some(value) =>
      var key :| IsLongest(dirs, Canonical(raw, fold), key) && dirs[key] == value;
      KeyIsGame(lib, entries, n, raw, fold, key);
    case None =>
      NoKeyNoGame(lib, entries, n, raw, fold);
  }

  lemma DecidesUnique(lib: Lib, entries: seq<DirEntry>, n: nat, i: nat, j: nat, raw: string, fold: Folding)
    requires n <= |entries| && Decides(lib, entries, n, i, raw, fold) && Decides(lib, entries, n, j, raw, fold)
    ensures i == j
  {
    hide DirOf, Canonical;
    var path, a, b := Canonical(raw, fold), DirOf(lib, entries[i], fold).value, DirOf(lib, entries[j], fold).value;
    assert !Deeper(lib, entries[i], entries[j], raw, fold) && !Deeper(lib, entries[j], entries[i], raw, fold);
    assert a == path[..|a|] && b == path[..|b|];
  }

  lemma DecidedIs(lib: Lib, entries: seq<DirEntry>, n: nat, k: nat, raw: string, fold: Folding, best: Option<string>)
    requires n <= |entries| && IsGame(lib, entries, n, raw, fold, best) && Decides(lib, entries, n, k, raw, fold)
    ensures best == Some(IdOf(entries[k]))
  {
    hide LiesIn, IdOf;
    if best.Some? {
      var j: nat :| Decides(lib, entries, n, j, raw, fold) && best.value == IdOf(entries[j]);
      DecidesUnique(lib, entries, n, j, k, raw, fold);
    }
  }

  // ---------------------------------------------------------------- paths as they are written

  lemma LoweredSome(s: string, fold: Folding)
    requires Folds(fold) && s != []
    ensures Lowered(s, fold) != []
  {
    assert LoweredChar(s[|s| - 1], fold) != [];
  }

  lemma CanonicalJoins(a: string, b: string, fold: Folding)
    requires Folds(fold) && a != []
    ensures Canonical(a + b, fold) == Canonical(a, fold) + Lowered(b, fold)
  {
    LoweredJoins(a, b, fold);
    LoweredSome(a, fold);
    hide Lowered, Rooted;
    RootedJoins(Lowered(a, fold), Lowered(b, fold));
  }

  lemma LoweredSlash(rest: string, fold: Folding)
    requires Folds(fold)
    ensures Lowered("/" + rest, fold) == "/" + Lowered(rest, fold)
  {
    LoweredJoins("/", rest, fold);
    LoweredPlain("/", fold);
  }

  /** A path written behind a directory lies in it. */
  lemma WrittenBelow(dir: string, rest: string, fold: Folding)
    requires Folds(fold) && dir != []
    ensures Slashed(Canonical(dir, fold)) <= Canonical(dir + "/" + rest, fold)
  {
    var c := Canonical(dir, fold);
    Text.Regroup(dir, "/", rest);
    CanonicalJoins(dir, "/" + rest, fold);
    LoweredSlash(rest, fold);
    hide Canonical, Lowered;
    Text.Regroup(c, "/", Lowered(rest, fold));
  }

  lemma LiesInManifest(lib: Lib, appid: string, installdir: string, rest: string, fold: Folding)
    requires Folds(fold)
    ensures LiesIn(lib, Manifest(appid, installdir), lib + "/steamapps/common/" + installdir + "/" + rest, fold)
  {
    hide Canonical;
    WrittenBelow(lib + "/steamapps/common/" + installdir, rest, fold);
  }

  lemma LiesInPrefix(lib: Lib, name: string, rest: string, fold: Folding)
    requires Folds(fold)
    ensures LiesIn(lib, Prefix(name), lib + "/steamapps/compatdata/" + name + "/" + rest, fold)
  {
    hide Canonical;
    CanonicalJoins(lib + "/steamapps/compatdata/" + name + "/", rest, fold);
  }

  /** Where the entry's files are, as its library spells them. */
  function FileOf(lib: Lib, entry: DirEntry, rest: string): string {
    match entry
    case Manifest(_, installdir) => lib + "/steamapps/common/" + installdir + "/" + rest
    case Prefix(name) => lib + "/steamapps/compatdata/" + name + "/" + rest
    case Ignored => rest
  }

  lemma FileLiesIn(lib: Lib, entry: DirEntry, rest: string, fold: Folding)
    requires Folds(fold) && !entry.Ignored?
    ensures LiesIn(lib, entry, FileOf(lib, entry, rest), fold)
  {
    hide LiesIn;
    match entry
    case Manifest(appid, installdir) => LiesInManifest(lib, appid, installdir, rest, fold);
    case Prefix(name) => LiesInPrefix(lib, name, rest, fold);
  }

  /** The characters differ only in case, or are both separators. */
  ghost predicate SameChar(c: char, d: char, fold: Folding) {
    || c == d
    || (c in "/\\" && d in "/\\")
    || (c != '\\' && d != '\\' && fold(c) == fold(d))
  }

  /** The two name one file: they differ only in case and in which separators they use. */
  ghost predicate SameFile(a: string, b: string, fold: Folding) {
    |a| == |b| && forall i :: 0 <= i < |a| ==> SameChar(a[i], b[i], fold)
  }

  lemma SameCharLowered(c: char, d: char, fold: Folding)
    requires Folds(fold) && SameChar(c, d, fold)
    ensures LoweredChar(c, fold) == LoweredChar(d, fold)
  {
    assert Plain('/');
  }

  lemma {:induction false} SameFileLowered(a: string, b: string, fold: Folding)
    requires Folds(fold) && SameFile(a, b, fold)
    ensures Lowered(a, fold) == Lowered(b, fold)
  {
    hide Folds, LoweredChar, SameChar;
    if a != [] {
      var n := |a| - 1;
      SameFileLowered(a[..n], b[..n], fold);
      SameCharLowered(a[n], b[n], fold);
    }
  }

  /**
   A game is found by its files: those below the directory of a manifest or a Proton prefix, however spelled, are
   looked up as its application id, if no earlier entry has the same directory and no entry's deeper one holds the file.
   */
  lemma FileIsFound(lib: Lib, entries: seq<DirEntry>, k: nat, rest: string, path: string, fold: Folding,
                    best: Option<string>)
    requires Folds(fold) && k < Read(entries) && !entries[k].Ignored?
    requires forall i :: 0 <= i < k ==> DirOf(lib, entries[i], fold) != DirOf(lib, entries[k], fold)
    requires SameFile(path, FileOf(lib, entries[k], rest), fold)
    requires forall i :: 0 <= i < Read(entries) ==> !Deeper(lib, entries[i], entries[k], path, fold)
    requires IsAnswer(FreshScan(lib, entries, fold), path, fold, best)
    ensures best == Some(match entries[k] case Manifest(appid, _) => appid case Prefix(name) => name case Ignored => "")
  {
    hide IsAnswer, FreshScan, IsGame, DirOf, Deeper, FileOf, SameFile, Read, Folds;
    LookupIsGame(lib, entries, path, fold, best);
    FileLiesIn(lib, entries[k], rest, fold);
    SameFileLowered(path, FileOf(lib, entries[k], rest), fold);
    DecidedIs(lib, entries, Read(entries), k, path, fold, best);
  }

  // ---------------------------------------------------------------- paths already in canonical form

  /** The text is spelled in canonical form already. */
  ghost predicate AsIs(s: string, fold: Folding) {
    forall i :: 0 <= i < |s| ==> s[i] != '\\' && fold(s[i]) == [s[i]]
  }

  lemma {:induction false} AsIsLowered(s: string, fold: Folding)
    requires AsIs(s, fold)
    ensures Lowered(s, fold) == s
  {
    if s != [] {
      AsIsLowered(s[..|s| - 1], fold);
      LastBack(s);
    }
  }

  lemma AsIsCanonical(s: string, fold: Folding)
    requires AsIs(s, fold) && s != [] && s[0] == '/'
    ensures Canonical(s, fold) == s
  {
    AsIsLowered(s, fold);
  }

  /** The path is written below the entry's directory. */
  predicate WrittenIn(lib: Lib, entry: DirEntry, path: string) {
    match entry
    case Manifest(_, installdir) =>
      var end := if installdir == [] || installdir[|installdir| - 1] == '/' then "" else "/";
      lib + "/steamapps/common/" + installdir + end <= path
    case Prefix(name) => lib + "/steamapps/compatdata/" + name + "/" <= path
    case Ignored => false
  }

  ghost predicate EntryAsIs(entry: DirEntry, fold: Folding) {
    match entry
    case Manifest(_, installdir) => AsIs(installdir, fold)
    case Prefix(name) => AsIs(name, fold)
    case Ignored => true
  }

  lemma PlainIsAsIs(s: string, fold: Folding)
    requires Folds(fold) && forall i :: 0 <= i < |s| ==> Plain(s[i])
    ensures AsIs(s, fold)
  {
  }

  lemma AsIsJoins(a: string, b: string, fold: Folding)
    requires Folds(fold) && AsIs(a, fold) && (AsIs(b, fold) || forall i :: 0 <= i < |b| ==> Plain(b[i]))
    ensures AsIs(a + b, fold)
    ensures a != [] && a[0] == '/' ==> Canonical(a + b, fold) == a + b
  {
    if !AsIs(b, fold) { PlainIsAsIs(b, fold); }
    if a != [] && a[0] == '/' { AsIsCanonical(a + b, fold); }
  }

  lemma WrittenCanonical(lib: Lib, middle: string, name: string, fold: Folding)
    requires Folds(fold) && AsIs(lib, fold) && lib != [] && lib[0] == '/' && AsIs(name, fold)
    requires forall i :: 0 <= i < |middle| ==> Plain(middle[i])
    ensures AsIs(lib + middle + name, fold) && Canonical(lib + middle + name, fold) == lib + middle + name
  {
    hide AsIs, Canonical, Folds;
    AsIsJoins(lib, middle, fold);
    AsIsJoins(lib + middle, name, fold);
  }

  lemma LiesInIffWritten(lib: Lib, entry: DirEntry, path: string, fold: Folding)
    requires Folds(fold) && AsIs(lib, fold) && lib != [] && lib[0] == '/' && EntryAsIs(entry, fold)
    requires AsIs(path, fold) && path != [] && path[0] == '/'
    ensures LiesIn(lib, entry, path, fold) <==> WrittenIn(lib, entry, path)
  {
    hide AsIs, Canonical, Folds;
    AsIsCanonical(path, fold);
    match entry
    case Manifest(_, installdir) =>
      var dir := lib + "/steamapps/common/" + installdir;
      WrittenCanonical(lib, "/steamapps/common/", installdir, fold);
      assert installdir != [] ==> dir[|dir| - 1] == installdir[|installdir| - 1];
      assert dir + "" == dir;
    case Prefix(name) =>
      WrittenCanonical(lib, "/steamapps/compatdata/", name, fold);
      AsIsJoins(lib + "/steamapps/compatdata/" + name, "/", fold);
    case Ignored =>
  }

  /** So with everything spelled canonically, a path is looked up as nothing exactly if it is written below no game. */
  lemma NothingIff(lib: Lib, entries: seq<DirEntry>, path: string, fold: Folding, best: Option<string>)
    requires Folds(fold) && AsIs(lib, fold) && lib != [] && lib[0] == '/'
    requires AsIs(path, fold) && path != [] && path[0] == '/'
    requires forall i :: 0 <= i < |entries| ==> EntryAsIs(entries[i], fold)
    requires IsAnswer(FreshScan(lib, entries, fold), path, fold, best)
    ensures best == None <==> forall i :: 0 <= i < Read(entries) ==> !WrittenIn(lib, entries[i], path)
  {
    hide IsAnswer, FreshScan, AsIs, LiesIn, WrittenIn, Folds;
    LookupIsGame(lib, entries, path, fold, best);
    forall i | 0 <= i < Read(entries)
      ensures LiesIn(lib, entries[i], path, fold) <==> WrittenIn(lib, entries[i], path)
    {
      LiesInIffWritten(lib, entries[i], path, fold);
    }
  }
}
