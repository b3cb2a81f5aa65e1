/** When a declared executable name names a path, in terms of the components between the path's separators. */
module PathNames {
  import opened Matcher
  import Text

  // ---------------------------------------------------------------- ASCII case

  /** The same letter up to ASCII case, or the same character. */
  predicate SameLetter(c: char, d: char) {
    || c == d
    || ('A' <= c <= 'Z' && d as int == c as int + 32)
    || ('A' <= d <= 'Z' && c as int == d as int + 32)
  }

  predicate SameText(a: string, b: string) {
    |a| == |b| && forall i :: 0 <= i < |a| ==> SameLetter(a[i], b[i])
  }

  lemma SameLetterIff(c: char, d: char)
    ensures Text.Fold(c) == Text.Fold(d) <==> SameLetter(c, d)
  {
  }

  /** The matcher's comparison is equality up to ASCII case. */
  lemma EqFoldIff(a: string, b: string)
    ensures Text.EqFold(a, b) <==> SameText(a, b)
  {
    hide Text.Fold, SameLetter;
    forall c, d ensures Text.Fold(c) == Text.Fold(d) <==> SameLetter(c, d) { SameLetterIff(c, d); }
  }

  // ---------------------------------------------------------------- components

  /** The components from the `k`th on, joined by separators. */
  function Joined(parts: seq<string>, k: nat): string
    requires k < |parts|
    decreases |parts| - k
  {
    if k + 1 == |parts| then parts[k] else parts[k] + "/" + Joined(parts, k + 1)
  }

  /** What follows the `k`th component. */
  function Behind(parts: seq<string>, k: nat): (r: string)
    requires k < |parts|
    ensures r == [] || r[0] == '/'
  {
    if k + 1 == |parts| then "" else "/" + Joined(parts, k + 1)
  }

  lemma JoinedIs(parts: seq<string>, k: nat)
    requires k < |parts|
    ensures Joined(parts, k) == parts[k] + Behind(parts, k)
  {
    if k + 1 < |parts| { Text.Regroup(parts[k], "/", Joined(parts, k + 1)); }
  }

  predicate NoSeparator(s: string) { forall i :: 0 <= i < |s| ==> s[i] != '/' }

  /** Text between separators. */
  predicate AreComponents(parts: seq<string>)
    ensures AreComponents(parts) ==> parts != []
  {
    parts != [] && forall i :: 0 <= i < |parts| ==> NoSeparator(parts[i])
  }

  /** Every path is its components, joined. */
  function Components(path: string): (parts: seq<string>)
    ensures AreComponents(parts) && Joined(parts, 0) == path
  {
    if path == [] then [""]
    else
      var rest := Components(path[1..]);
      if path[0] == '/' then Prepended(rest); [""] + rest
      else Extended(path[0], rest); [[path[0]] + rest[0]] + rest[1..]
  }

  lemma {:induction false} JoinedTail(a: seq<string>, b: seq<string>, i: nat, k: nat)
    requires i < |a| && k < |b| && a[i..] == b[k..]
    ensures Joined(a, i) == Joined(b, k)
    decreases |a| - i
  {
    assert a[i] == a[i..][0] && b[k] == b[k..][0];
    if i + 1 < |a| {
      assert a[i + 1..] == a[i..][1..] && b[k + 1..] == b[k..][1..];
      JoinedTail(a, b, i + 1, k + 1);
    }
  }

  lemma Prepended(rest: seq<string>)
    requires rest != []
    ensures Joined([""] + rest, 0) == "/" + Joined(rest, 0)
  {
    assert ([""] + rest)[1..] == rest[0..];
    JoinedTail([""] + rest, rest, 1, 0);
  }

  lemma Extended(c: char, rest: seq<string>)
    requires rest != []
    ensures Joined([[c] + rest[0]] + rest[1..], 0) == [c] + Joined(rest, 0)
  {
    var more := [[c] + rest[0]] + rest[1..];
    JoinedIs(more, 0);
    JoinedIs(rest, 0);
    if |rest| > 1 {
      assert more[1..] == rest[1..];
      JoinedTail(more, rest, 1, 1);
    }
    Text.Regroup([c], rest[0], Behind(rest, 0));
  }

  /** Where a component begins: at the front, or behind a separator. */
  lemma {:induction false} SuffixIs(parts: seq<string>, k: nat)
    requires k < |parts|
    ensures var path, rest := Joined(parts, 0), Joined(parts, k);
            && |rest| <= |path| && path[|path| - |rest|..] == rest
            && (k > 0 ==> |rest| < |path| && path[|path| - |rest| - 1] == '/')
  {
    if k > 0 {
      SuffixIs(parts, k - 1);
      var path, rest, before := Joined(parts, 0), Joined(parts, k), Joined(parts, k - 1);
      assert before == parts[k - 1] + "/" + rest;
      assert before[|before| - |rest|..] == rest && before[|before| - |rest| - 1] == '/';
      assert path[|path| - |rest|..] == path[|path| - |before|..][|before| - |rest|..];
    }
  }

  /** Only components begin there. */
  lemma {:induction false} StartIs(parts: seq<string>, j: nat, at: nat) returns (k: nat)
    requires AreComponents(parts) && j < |parts| && at <= |Joined(parts, j)|
    requires at == 0 || Joined(parts, j)[at - 1] == '/'
    ensures j <= k < |parts| && |Joined(parts, k)| == |Joined(parts, j)| - at && (at > 0 ==> k > j)
    decreases |parts| - j
  {
    if at == 0 {
      k := j;
    } else {
      JoinedIs(parts, j);
      var n := |parts[j]|;
      assert forall i :: 0 <= i < n ==> Joined(parts, j)[i] == parts[j][i];
      k := StartIs(parts, j + 1, at - n - 1);
    }
  }

  // ---------------------------------------------------------------- one list of components against another

  /** The text is at the front of the other, up to case, and ends there at a component's end. */
  predicate Leads(a: string, b: string) {
    && |a| <= |b| && (forall i :: 0 <= i < |a| ==> SameLetter(b[i], a[i]))
    && (|a| == |b| || b[|a|] == '/')
  }

  /** A text cannot lead another if their first separators are apart. */
  lemma LeadsApart(a: string, x: string, b: string, y: string)
    requires NoSeparator(a) && NoSeparator(b) && (x == [] || x[0] == '/') && (y == [] || y[0] == '/')
    requires |a| != |b|
    ensures !Leads(a + x, b + y)
  {
    if |a| < |b| {
      assert (b + y)[|a|] == b[|a|] && (x != [] ==> (a + x)[|a|] == x[0]);
    } else {
      assert (a + x)[|b|] == a[|b|] && (y != [] ==> (b + y)[|b|] == y[0]);
    }
  }

  lemma LeadsSplit(a: string, x: string, b: string, y: string)
    requires NoSeparator(a) && NoSeparator(b) && (x == [] || x[0] == '/') && (y == [] || y[0] == '/')
    ensures Leads(a + x, b + y) <==> SameText(b, a) && Leads(x, y)
  {
    if |a| == |b| {
      assert forall i :: 0 <= i < |a| ==> (a + x)[i] == a[i] && (b + y)[i] == b[i];
      assert forall i :: 0 <= i < |x| ==> (a + x)[|a| + i] == x[i];
      assert forall i :: 0 <= i < |y| ==> (b + y)[|b| + i] == y[i];
    } else {
      LeadsApart(a, x, b, y);
    }
  }

  lemma LeadsNext(a: string, b: string)
    ensures Leads("/" + a, "/" + b) <==> Leads(a, b)
  {
    assert forall i :: 0 <= i < |a| ==> ("/" + a)[i + 1] == a[i];
    assert forall i :: 0 <= i < |b| ==> ("/" + b)[i + 1] == b[i];
  }

  /** The names from the `i`th on are the components from the `k`th on, up to case. */
  predicate SameFrom(names: seq<string>, i: nat, parts: seq<string>, k: nat)
    requires i <= |names| && k <= |parts|
  {
    |names| - i <= |parts| - k && forall m :: i <= m < |names| ==> SameText(parts[k + m - i], names[m])
  }

  lemma SameNext(names: seq<string>, i: nat, parts: seq<string>, k: nat)
    requires i < |names| && k < |parts|
    ensures SameFrom(names, i, parts, k) <==>
            SameText(parts[k], names[i]) && SameFrom(names, i + 1, parts, k + 1)
  {
  }

  lemma {:induction false} LeadsIff(names: seq<string>, i: nat, parts: seq<string>, k: nat)
    requires AreComponents(names) && AreComponents(parts) && i < |names| && k < |parts|
    ensures Leads(Joined(names, i), Joined(parts, k)) <==> SameFrom(names, i, parts, k)
    decreases |names| - i
  {
    JoinedIs(names, i);
    JoinedIs(parts, k);
    LeadsSplit(names[i], Behind(names, i), parts[k], Behind(parts, k));
    SameNext(names, i, parts, k);
    hide SameText, Leads, SameFrom;
    BehindIff(names, i, parts, k);
    if i + 1 < |names| && k + 1 < |parts| {
      LeadsIff(names, i + 1, parts, k + 1);
      LeadsNext(Joined(names, i + 1), Joined(parts, k + 1));
    }
  }

  lemma BehindIff(names: seq<string>, i: nat, parts: seq<string>, k: nat)
    requires i < |names| && k < |parts|
    ensures i + 1 == |names| ==> Leads(Behind(names, i), Behind(parts, k)) && SameFrom(names, i + 1, parts, k + 1)
    ensures i + 1 < |names| && k + 1 == |parts| ==>
              !Leads(Behind(names, i), Behind(parts, k)) && !SameFrom(names, i + 1, parts, k + 1)
  {
  }

  lemma Shifted(front: string, rest: string, n: nat)
    requires n <= |rest|
    ensures |front + "/" + rest| == |front| + 1 + |rest| && (front + "/" + rest)[|front| + 1 + n..] == rest[n..]
    ensures n < |rest| ==> (front + "/" + rest)[|front| + 1 + n] == rest[n]
  {
  }

  /** The position is the text's end, or the separator before the given component of the path. */
  ghost predicate EndsAt(text: string, at: nat, parts: seq<string>, end: nat) {
    if end >= |parts| then at == |text|
    else at < |text| && text[at] == '/' && text[at + 1..] == Joined(parts, end)
  }

  lemma EndsFurther(text: string, rest: string, at: nat, parts: seq<string>, end: nat)
    requires |rest| <= |text| && text[|text| - |rest|..] == rest && EndsAt(rest, at, parts, end)
    ensures EndsAt(text, |text| - |rest| + at, parts, end)
  {
    hide Joined;
  }

  lemma EndsNext(at: nat, parts: seq<string>, k: nat, end: nat)
    requires k + 1 < |parts| && EndsAt(Joined(parts, k + 1), at, parts, end)
    ensures EndsAt(Joined(parts, k), |parts[k]| + 1 + at, parts, end)
  {
    var text, rest := Joined(parts, k), Joined(parts, k + 1);
    Shifted(parts[k], rest, 0);
    EndsFurther(text, rest, at, parts, end);
  }

  lemma EndsOne(parts: seq<string>, k: nat)
    requires k < |parts|
    ensures EndsAt(Joined(parts, k), |parts[k]|, parts, k + 1)
  {
    if k + 1 < |parts| { Shifted(parts[k], Joined(parts, k + 1), 0); }
  }

  /** How far they reach: to the path's end, or to the separator before the next component. */
  lemma {:induction false} Reach(names: seq<string>, i: nat, parts: seq<string>, k: nat)
    requires i < |names| && k < |parts| && SameFrom(names, i, parts, k)
    ensures EndsAt(Joined(parts, k), |Joined(names, i)|, parts, k + |names| - i)
    decreases |names| - i
  {
    SameNext(names, i, parts, k);
    hide EndsAt;
    if i + 1 < |names| {
      Reach(names, i + 1, parts, k + 1);
      EndsNext(|Joined(names, i + 1)|, parts, k, k + |names| - i);
    } else {
      EndsOne(parts, k);
    }
  }

  // ---------------------------------------------------------------- where a name stands

  /** A separator the name begins with is no component of its own. */
  function Lead(names: seq<string>): (lead: nat)
    requires names != []
    ensures lead < |names| && lead <= 1
  {
    if names[0] == [] && |names| > 1 then 1 else 0
  }

  /** A name that is not empty, in its components; separators are spelled either way. */
  ghost predicate IsSpelled(name: string, names: seq<string>)
    ensures IsSpelled(name, names) ==> name != [] && AreComponents(names)
  {
    name != [] && AreComponents(names) && Text.Slashed(name) == Joined(names, 0)
  }

  lemma LeadIs(names: seq<string>, name: string)
    requires IsSpelled(name, names)
    ensures OwnSeparator(name) <==> Lead(names) == 1
    ensures Lead(names) == 1 ==> Joined(names, 0) == "/" + Joined(names, 1)
    ensures |name| == |Joined(names, 0)| == Lead(names) + |Joined(names, Lead(names))|
  {
    JoinedIs(names, 0);
    assert Text.Slashed(name)[0] == '/' <==> OwnSeparator(name);
    if names[0] != [] { assert Joined(names, 0)[0] == names[0][0]; }
  }

  lemma OccursIff(name: string, path: string, at: nat)
    ensures Text.OccursAt(name, path, at) <==>
            at + |name| <= |path| && forall i :: 0 <= i < |name| ==> SameLetter(path[at + i], name[i])
  {
    if at + |name| <= |path| { EqFoldIff(path[at..at + |name|], name); }
  }

  /** The text stands in the path and ends there at a component's end. */
  predicate StandsWhole(whole: string, path: string, at: nat) {
    Text.OccursAt(whole, path, at) && (at + |whole| == |path| || path[at + |whole|] == '/')
  }

  lemma StandsWholeIff(whole: string, path: string, at: nat)
    requires at <= |path|
    ensures StandsWhole(whole, path, at) <==> Leads(whole, path[at..])
  {
    OccursIff(whole, path, at);
    hide Text.OccursAt;
  }

  lemma StandsBehindLead(whole: string, path: string, at: nat)
    requires whole != [] && whole[0] == '/' && at < |path|
    ensures StandsWhole(whole, path, at) <==> path[at] == '/' && StandsWhole(whole[1..], path, at + 1)
  {
    StandsWholeIff(whole, path, at);
    StandsWholeIff(whole[1..], path, at + 1);
    hide StandsWhole;
    assert whole == "/" + whole[1..];
    if path[at] == '/' {
      assert path[at..] == "/" + path[at + 1..];
      LeadsNext(whole[1..], path[at + 1..]);
    }
  }

  lemma StandsIff(names: seq<string>, name: string, path: string, at: nat)
    requires IsSpelled(name, names) && at + Lead(names) <= |path|
    ensures var lead := Lead(names);
            StandsAt(path, name, at) && StandsWhole(Joined(names, 0), path, at) <==>
              StandsWhole(Joined(names, lead), path, at + lead) && (at + lead == 0 || path[at + lead - 1] == '/')
  {
    LeadIs(names, name);
    hide Joined, Text.OccursAt, AreComponents, OwnSeparator;
    if Lead(names) == 1 {
      StandsBehindLead(Joined(names, 0), path, at);
      assert Joined(names, 0)[1..] == Joined(names, 1);
    }
  }

  /** A name that stands in a path, up to a component's end, is a list of its components. */
  lemma StandingIsComponents(parts: seq<string>, names: seq<string>, name: string, at: nat) returns (k: nat)
    requires AreComponents(parts) && IsSpelled(name, names)
    requires StandsAt(Joined(parts, 0), name, at) && StandsWhole(Joined(names, 0), Joined(parts, 0), at)
    ensures Lead(names) <= k < |parts| && |Joined(parts, k)| == |Joined(parts, 0)| - at - Lead(names)
    ensures SameFrom(names, Lead(names), parts, k)
  {
    hide Joined, StandsAt, SameFrom, Leads, AreComponents, Text.OccursAt, IsSpelled;
    var path, lead := Joined(parts, 0), Lead(names);
    LeadIs(names, name);
    Text.OccurrenceFits(Joined(names, 0), path, at);
    StandsIff(names, name, path, at);
    k := StartIs(parts, 0, at + lead);
    SuffixIs(parts, k);
    StandsWholeIff(Joined(names, lead), path, at + lead);
    LeadsIff(names, lead, parts, k);
  }

  /** And a list of its components stands there. */
  lemma ComponentsStand(parts: seq<string>, names: seq<string>, name: string, k: nat) returns (at: nat)
    requires AreComponents(parts) && IsSpelled(name, names)
    requires Lead(names) <= k < |parts| && SameFrom(names, Lead(names), parts, k)
    ensures StandsAt(Joined(parts, 0), name, at) && at < |Joined(parts, 0)|
    ensures |Joined(parts, k)| == |Joined(parts, 0)| - at - Lead(names)
  {
    hide Joined, StandsAt, SameFrom, Leads, AreComponents, IsSpelled, OwnSeparator, StandsWhole, Lead;
    var path, lead := Joined(parts, 0), Lead(names);
    LeadIs(names, name);
    LeadsIff(names, lead, parts, k);
    LeadsFits(Joined(names, lead), Joined(parts, k));
    SuffixIs(parts, k);
    at := |path| - |Joined(parts, k)| - lead;
    StandsWholeIff(Joined(names, lead), path, at + lead);
    StandsIff(names, name, path, at);
  }

  lemma LeadsFits(a: string, b: string)
    ensures Leads(a, b) ==> |a| <= |b|
  {
  }

  // ---------------------------------------------------------------- bundles

  predicate EndsInApp(s: string) {
    |s| >= 4 && SameText(s[|s| - 4..], ".app")
  }

  /** The name's last component ends in `.app`. */
  predicate IsApp(names: seq<string>)
    requires names != []
  {
    EndsInApp(names[|names| - 1])
  }

  lemma {:induction false} LastIs(names: seq<string>, k: nat)
    requires k < |names|
    ensures var last, whole := names[|names| - 1], Joined(names, k);
            && |last| <= |whole| && whole[|whole| - |last|..] == last
            && (k + 1 < |names| ==> |last| < |whole| && whole[|whole| - |last| - 1] == '/')
    decreases |names| - k
  {
    if k + 1 < |names| {
      LastIs(names, k + 1);
      var last, rest := names[|names| - 1], Joined(names, k + 1);
      Shifted(names[k], rest, |rest| - |last|);
      if k + 2 < |names| { Shifted(names[k], rest, |rest| - |last| - 1); }
    }
  }

  lemma EndsInAppIff(whole: string, last: string)
    requires |last| <= |whole| && whole[|whole| - |last|..] == last
    requires |last| < |whole| ==> whole[|whole| - |last| - 1] == '/'
    ensures EndsInApp(whole) <==> EndsInApp(last)
  {
    if |last| >= 4 {
      assert last[|last| - 4..] == whole[|whole| - 4..];
    } else if |whole| >= 4 && |last| < |whole| {
      var i := 3 - |last|;
      assert whole[|whole| - 4..][i] == '/' && ".app"[i] != '/';
    }
  }

  lemma SlashedApp(name: string)
    ensures IsBundleName(name) <==> EndsInApp(Text.Slashed(name))
  {
    if |name| >= 4 {
      var a, b := name[|name| - 4..], Text.Slashed(name)[|name| - 4..];
      EqFoldIff(a, ".app");
      assert forall i :: 0 <= i < 4 ==> b[i] == if a[i] == '\\' then '/' else a[i];
      assert forall i :: 0 <= i < 4 ==> SameLetter(a[i], ".app"[i]) == SameLetter(b[i], ".app"[i]);
    }
  }

  lemma BundleIff(names: seq<string>, name: string)
    requires IsSpelled(name, names)
    ensures IsBundleName(name) <==> IsApp(names)
  {
    SlashedApp(name);
    LastIs(names, 0);
    hide Joined, EndsInApp, IsBundleName, Text.Slashed;
    EndsInAppIff(Joined(names, 0), names[|names| - 1]);
  }

  /** The bundle's interior behind a component: one called `contents`, and something behind that. */
  predicate HoldsContents(parts: seq<string>, k: nat) {
    k + 1 < |parts| && SameText(parts[k], "contents")
  }

  lemma InteriorIff(parts: seq<string>, end: nat)
    requires AreComponents(parts) && end < |parts|
    ensures Text.OccursAt("contents/", Joined(parts, end), 0) <==> HoldsContents(parts, end)
  {
    OccursIff("contents/", Joined(parts, end), 0);
    JoinedIs(parts, end);
    LeadsSplit("contents", "", parts[end], Behind(parts, end));
    hide Text.OccursAt;
    var rest := Joined(parts, end);
    assert "contents" + "" == "contents";
    assert forall i :: 0 <= i < 8 ==> "contents/"[i] == "contents"[i];
    assert "contents/"[8] == '/';
  }

  // ---------------------------------------------------------------- which names name a path

  /** Where the components found end. */
  lemma EndIs(parts: seq<string>, names: seq<string>, name: string, at: nat, k: nat)
    requires AreComponents(parts) && IsSpelled(name, names)
    requires Lead(names) <= k < |parts| && SameFrom(names, Lead(names), parts, k)
    requires |Joined(parts, k)| == |Joined(parts, 0)| - at - Lead(names)
    ensures EndsAt(Joined(parts, 0), at + |name|, parts, k + |names| - Lead(names))
  {
    hide Joined, SameFrom, AreComponents, IsSpelled, OwnSeparator, EndsAt;
    LeadIs(names, name);
    Reach(names, Lead(names), parts, k);
    SuffixIs(parts, k);
    EndsFurther(Joined(parts, 0), Joined(parts, k), |Joined(names, Lead(names))|, parts, k + |names| - Lead(names));
  }

  lemma SameFits(names: seq<string>, i: nat, parts: seq<string>, k: nat)
    requires i <= |names| && k <= |parts| && SameFrom(names, i, parts, k)
    ensures |names| - i <= |parts| - k
  {
  }

  lemma InteriorAt(path: string, at: nat, rest: string)
    requires at < |path| && path[at] == '/' && path[at + 1..] == rest
    ensures Text.OccursAt(BUNDLE_INTERIOR, path, at) <==> Text.OccursAt("contents/", rest, 0)
  {
    assert BUNDLE_INTERIOR == "/" + "contents/";
    if at + 10 <= |path| {
      assert path[at..at + 10] == "/" + rest[0..9];
      EqFoldIff(path[at..at + 10], BUNDLE_INTERIOR);
      EqFoldIff(rest[0..9], "contents/");
      SameTextNext(rest[0..9], "contents/");
    }
  }

  lemma SameTextNext(a: string, b: string)
    ensures SameText("/" + a, "/" + b) <==> SameText(a, b)
  {
    assert forall i :: 0 <= i < |a| ==> ("/" + a)[i + 1] == a[i];
    assert forall i :: 0 <= i < |b| ==> ("/" + b)[i + 1] == b[i];
  }

  /** The name is the path's last components, or a bundle among them with its interior behind it. */
  predicate NamesFrom(names: seq<string>, parts: seq<string>, k: nat)
    requires names != [] && k <= |parts|
  {
    var end := k + |names| - Lead(names);
    && SameFrom(names, Lead(names), parts, k)
    && (end == |parts| || (IsApp(names) && HoldsContents(parts, end)))
  }

  /** The name stands there, as the path's end or as a bundle with its interior behind it. */
  predicate NamesAt(path: string, name: string, at: nat) {
    && StandsAt(path, name, at)
    && (at + |name| == |path| || (IsBundleName(name) && Text.OccursAt(BUNDLE_INTERIOR, path, at + |name|)))
  }

  lemma ContentsIff(path: string, at: nat, parts: seq<string>, end: nat)
    requires AreComponents(parts) && EndsAt(path, at, parts, end)
    ensures at == |path| <==> end >= |parts|
    ensures end < |parts| ==> (Text.OccursAt(BUNDLE_INTERIOR, path, at) <==> HoldsContents(parts, end))
  {
    hide Joined, Text.OccursAt, HoldsContents, AreComponents;
    if end < |parts| {
      InteriorAt(path, at, Joined(parts, end));
      InteriorIff(parts, end);
    }
  }

  lemma InteriorBegins(path: string, at: nat)
    ensures Text.OccursAt(BUNDLE_INTERIOR, path, at) ==> at < |path| && path[at] == '/'
  {
    OccursIff(BUNDLE_INTERIOR, path, at);
    hide Text.OccursAt;
    assert BUNDLE_INTERIOR[0] == '/';
  }

  lemma NamingStandsWhole(path: string, names: seq<string>, name: string, at: nat)
    requires IsSpelled(name, names) && NamesAt(path, name, at)
    ensures StandsWhole(Joined(names, 0), path, at)
  {
    InteriorBegins(path, at + |name|);
  }

  lemma NamingIsComponents(parts: seq<string>, names: seq<string>, name: string, at: nat) returns (k: nat)
    requires AreComponents(parts) && IsSpelled(name, names) && NamesAt(Joined(parts, 0), name, at)
    ensures Lead(names) <= k < |parts| && NamesFrom(names, parts, k)
  {
    hide Joined, StandsAt, SameFrom, AreComponents, Text.OccursAt, IsBundleName, IsApp, StandsWhole, HoldsContents;
    hide EndsAt, IsSpelled, Lead;
    var path := Joined(parts, 0);
    NamingStandsWhole(path, names, name, at);
    k := StandingIsComponents(parts, names, name, at);
    EndIs(parts, names, name, at, k);
    BundleIff(names, name);
    SameFits(names, Lead(names), parts, k);
    ContentsIff(path, at + |name|, parts, k + |names| - Lead(names));
  }

  lemma ComponentsName(parts: seq<string>, names: seq<string>, name: string, k: nat) returns (at: nat)
    requires AreComponents(parts) && IsSpelled(name, names)
    requires Lead(names) <= k < |parts| && NamesFrom(names, parts, k)
    ensures at < |Joined(parts, 0)| && NamesAt(Joined(parts, 0), name, at)
  {
    hide Joined, StandsAt, SameFrom, AreComponents, Text.OccursAt, IsBundleName, IsApp, HoldsContents;
    hide EndsAt, IsSpelled, Lead;
    var path := Joined(parts, 0);
    at := ComponentsStand(parts, names, name, k);
    EndIs(parts, names, name, at, k);
    BundleIff(names, name);
    ContentsIff(path, at + |name|, parts, k + |names| - Lead(names));
  }

  /** The declared name has these components, with a launcher mark before it or not, and separators either way. */
  predicate Spells(declared: string, marked: bool, names: seq<string>)
    requires names != []
  {
    var whole := (if marked then ">" else "") + Joined(names, 0);
    && (!marked ==> declared == [] || declared[0] != '>') && '\\' !in whole
    && |declared| == |whole|
    && forall i :: 0 <= i < |whole| ==> declared[i] == whole[i] || (declared[i] == '\\' && whole[i] == '/')
  }

  lemma SpelledIs(declared: string, marked: bool, names: seq<string>)
    requires names != [] && Spells(declared, marked, names)
    ensures Text.Slashed(Unmarked(declared)) == Joined(names, 0)
  {
    var whole := (if marked then ">" else "") + Joined(names, 0);
    hide Joined;
    if marked {
      assert whole[0] == '>' && forall i :: 0 <= i < |Joined(names, 0)| ==> Joined(names, 0)[i] == whole[i + 1];
    }
    assert forall i :: 0 <= i < |whole| ==> whole[i] in whole;
  }

  lemma NamedAt(path: string, declared: string) returns (at: nat)
    requires ExeNamesPath(path, declared)
    ensures NamesAt(path, Unmarked(declared), at)
  {
    var name := Unmarked(declared);
    hide StandsAt, Text.OccursAt, Unmarked, IsBundleName;
    if |name| <= |path| && StandsAt(path, name, |path| - |name|) {
      at := |path| - |name|;
    } else {
      at :| at < |path| && StandsAt(path, name, at) && Text.OccursAt(BUNDLE_INTERIOR, path, at + |name|);
    }
  }

  lemma NamedOnlyIf(parts: seq<string>, names: seq<string>, declared: string) returns (k: nat)
    requires AreComponents(parts) && IsSpelled(Unmarked(declared), names) && ExeNamesPath(Joined(parts, 0), declared)
    ensures Lead(names) <= k < |parts| && NamesFrom(names, parts, k)
  {
    hide Joined, Unmarked, NamesFrom, AreComponents, IsSpelled, ExeNamesPath, NamesAt, Lead;
    var path, name := Joined(parts, 0), Unmarked(declared);
    var at := NamedAt(path, declared);
    k := NamingIsComponents(parts, names, name, at);
  }

  lemma NamedIf(parts: seq<string>, names: seq<string>, declared: string, k: nat)
    requires AreComponents(parts) && IsSpelled(Unmarked(declared), names)
    requires Lead(names) <= k < |parts| && NamesFrom(names, parts, k)
    ensures ExeNamesPath(Joined(parts, 0), declared)
  {
    var path, name := Joined(parts, 0), Unmarked(declared);
    assert name != [];
    hide Joined, Unmarked, NamesFrom, AreComponents, IsSpelled, StandsAt, Text.OccursAt, IsBundleName, Lead;
    var at := ComponentsName(parts, names, name, k);
    if at + |name| == |path| { assert at == |path| - |name|; }
  }

  lemma EmptyIff(names: seq<string>)
    requires names != []
    ensures Joined(names, 0) == [] <==> names == [""]
  {
  }

  /**
   Exactly which declared names name a path: those whose components are the path's last ones up to ASCII case; and a
   bundle's, if they stand anywhere in the path with `contents` and a further component behind them. A separator that
   the name begins with has to be there in the path.
   */
  lemma NamesPathIff(path: string, parts: seq<string>, declared: string, marked: bool, names: seq<string>)
    requires AreComponents(parts) && path == Joined(parts, 0)
    requires AreComponents(names) && Spells(declared, marked, names)
    ensures ExeNamesPath(path, declared) <==>
            names != [""] && exists k :: Lead(names) <= k < |parts| && NamesFrom(names, parts, k)
  {
    SpelledIs(declared, marked, names);
    EmptyIff(names);
    assert names != [""] ==> IsSpelled(Unmarked(declared), names);
    assert names == [""] ==> !ExeNamesPath(path, declared);
    hide Spells, Unmarked, NamesFrom, ExeNamesPath, IsSpelled, AreComponents;
    if names != [""] {
      if ExeNamesPath(path, declared) {
        var k := NamedOnlyIf(parts, names, declared);
      }
      if k :| Lead(names) <= k < |parts| && NamesFrom(names, parts, k) {
        NamedIf(parts, names, declared, k);
      }
    }
  }

  // ---------------------------------------------------------------- names of one component

  /** A name without separators, with a launcher mark before it or not. */
  predicate IsFileName(declared: string, marked: bool, name: string) {
    && declared == (if marked then ">" else "") + name && (!marked ==> name == [] || name[0] != '>')
    && name != [] && NoSeparator(name) && '\\' !in name
  }

  lemma FileNameIff(path: string, parts: seq<string>, declared: string, marked: bool, name: string)
    requires AreComponents(parts) && path == Joined(parts, 0) && IsFileName(declared, marked, name)
    ensures ExeNamesPath(path, declared) <==> exists k :: 0 <= k < |parts| && NamesFrom([name], parts, k)
  {
    NamesPathIff(path, parts, declared, marked, [name]);
  }

  /** The component is the name, and a component `contents` with a further one behind it follows. */
  predicate BundleAt(parts: seq<string>, k: nat, name: string)
    ensures BundleAt(parts, k, name) ==> k < |parts|
  {
    k + 2 < |parts| && SameText(parts[k], name) && SameText(parts[k + 1], "contents")
  }

  lemma NamesFromIff(name: string, parts: seq<string>, k: nat)
    requires k < |parts|
    ensures NamesFrom([name], parts, k) <==>
            (k + 1 == |parts| && SameText(parts[k], name)) || (EndsInApp(name) && BundleAt(parts, k, name))
  {
    SameNext([name], 0, parts, k);
    assert SameFrom([name], 1, parts, k + 1);
    hide SameText, EndsInApp, SameFrom;
  }

  /** A bundle's name: the last component, or one with a component `contents` and a further one behind it. */
  lemma AppNameIff(path: string, parts: seq<string>, declared: string, marked: bool, name: string)
    requires AreComponents(parts) && path == Joined(parts, 0)
    requires IsFileName(declared, marked, name) && EndsInApp(name)
    ensures ExeNamesPath(path, declared) <==>
            SameText(parts[|parts| - 1], name) || exists k: nat :: BundleAt(parts, k, name)
  {
    hide ExeNamesPath, NamesFrom, SameText, EndsInApp, IsFileName, Joined, AreComponents, BundleAt;
    FileNameIff(path, parts, declared, marked, name);
    var last := |parts| - 1;
    NamesFromIff(name, parts, last);
    if k: nat :| BundleAt(parts, k, name) { NamesFromIff(name, parts, k); }
    if k :| 0 <= k < |parts| && NamesFrom([name], parts, k) { NamesFromIff(name, parts, k); }
  }

  lemma {:induction false} JoinedSnoc(parts: seq<string>, k: nat, leaf: string)
    requires k < |parts|
    ensures Joined(parts + [leaf], k) == Joined(parts, k) + "/" + leaf
    decreases |parts| - k
  {
    JoinedIs(parts + [leaf], k);
    JoinedIs(parts, k);
    if k + 1 < |parts| {
      JoinedSnoc(parts, k + 1, leaf);
      var rest := Joined(parts, k + 1);
      assert parts[k] + ("/" + (rest + "/" + leaf)) == (parts[k] + ("/" + rest)) + "/" + leaf;
    } else {
      assert parts[k] + ("/" + leaf) == (parts[k] + "") + "/" + leaf;
    }
  }

  lemma LeafIsLast(dir: string, leaf: string) returns (parts: seq<string>)
    requires NoSeparator(leaf) && (dir == [] || dir[|dir| - 1] == '/')
    ensures AreComponents(parts) && Joined(parts, 0) == dir + leaf && parts[|parts| - 1] == leaf
  {
    if dir == [] {
      parts := [leaf];
    } else {
      var front := dir[..|dir| - 1];
      parts := Components(front) + [leaf];
      JoinedSnoc(Components(front), 0, leaf);
      assert front + "/" == dir;
    }
  }

  /** Any other name without separators: exactly the text behind the path's last separator, up to ASCII case. */
  lemma PlainNameIff(dir: string, leaf: string, declared: string, marked: bool, name: string)
    requires NoSeparator(leaf) && (dir == [] || dir[|dir| - 1] == '/')
    requires IsFileName(declared, marked, name) && !EndsInApp(name)
    ensures ExeNamesPath(dir + leaf, declared) <==> SameText(leaf, name)
  {
    hide ExeNamesPath, NamesFrom, SameText, EndsInApp, IsFileName, Joined, AreComponents, NoSeparator;
    var parts := LeafIsLast(dir, leaf);
    FileNameIff(dir + leaf, parts, declared, marked, name);
    NamesFromIff(name, parts, |parts| - 1);
    if k :| 0 <= k < |parts| && NamesFrom([name], parts, k) { NamesFromIff(name, parts, k); }
  }
}
