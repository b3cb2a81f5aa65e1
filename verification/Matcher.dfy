/**
 The automaton tier: reversed patterns over reversed path variants, every hit corroborated at a component
 boundary, against a brute-force search over the declared executables.
 */
module Matcher {
  import opened Text
  import opened Bundle

  // ---------------------------------------------------------------- path variants

  const MARKERS: seq<string> := ["64", ".x64", "x64", "_64"]

  /** The path and what is left of it without each 64-bit marker. */
  ghost function Variants(path: string): set<string> {
    {path, Strip(path, "64"), Strip(path, ".x64"), Strip(path, "x64"), Strip(path, "_64")}
  }

  method RemoveMarker(path: string, marker: string) returns (buf: string)
    requires marker != []
    ensures buf == Strip(path, marker)
  {
    buf := [];
    var rest := 0;
    while Find(path, marker, rest) < |path|
      invariant rest <= |path| && Strip(path, marker) == buf + StripFrom(path, marker, rest)
      decreases |path| - rest
    {
      var at := Find(path, marker, rest);
      StripPiece(buf, path, marker, rest);
      buf := buf + path[rest..at];
      rest := at + |marker|;
    }
    StripTail(path, marker, rest);
    buf := buf + path[rest..];
  }

  /** The path, then each new stripped form in the order of the first `n` markers. */
  function VariantsUpTo(path: string, n: nat): seq<string>
    requires n <= |MARKERS|
  {
    if n == 0 then [path]
    else
      var before, stripped := VariantsUpTo(path, n - 1), Strip(path, MARKERS[n - 1]);
      if stripped in before then before else before + [stripped]
  }

  function VariantList(path: string): seq<string> { VariantsUpTo(path, |MARKERS|) }

  ghost function StrippedBy(path: string, n: nat): set<string>
    requires n <= |MARKERS|
  {
    if n == 0 then {path} else StrippedBy(path, n - 1) + {Strip(path, MARKERS[n - 1])}
  }

  lemma AllMarkers(path: string)
    ensures StrippedBy(path, |MARKERS|) == Variants(path)
  {
    assert MARKERS[0] == "64" && MARKERS[1] == ".x64" && MARKERS[2] == "x64" && MARKERS[3] == "_64";
    assert StrippedBy(path, 0) == {path};
    var one := StrippedBy(path, 1);
    var two := StrippedBy(path, 2);
    var three := StrippedBy(path, 3);
    assert one == {path, Strip(path, "64")};
    assert two == one + {Strip(path, ".x64")};
    assert three == two + {Strip(path, "x64")};
    assert StrippedBy(path, 4) == three + {Strip(path, "_64")};
  }

  lemma {:induction false} ListedSoFar(path: string, n: nat)
    requires n <= |MARKERS|
    ensures var list := VariantsUpTo(path, n);
            && 1 <= |list| <= n + 1 && list[0] == path
            && (forall v :: v in list <==> v in StrippedBy(path, n))
            && (forall k, l :: 0 <= k < l < |list| ==> list[k] != list[l])
  {
    if n > 0 { ListedSoFar(path, n - 1); }
  }

  /** The list holds exactly the variants, each once, the path first. */
  lemma VariantsAreListed(path: string)
    ensures var list := VariantList(path);
            && 1 <= |list| <= 5 && list[0] == path
            && (forall v :: v in list <==> v in Variants(path))
            && (forall k, l :: 0 <= k < l < |list| ==> list[k] != list[l])
  {
    ListedSoFar(path, |MARKERS|);
    AllMarkers(path);
  }

  /** Fills the caller's five slots with the variants. */
  method PathVariantsInto(path: string, out: array<string>) returns (count: nat)
    requires out.Length == 5
    modifies out
    ensures 1 <= count <= 5 && out[..count] == VariantList(path)
  {
    out[0] := path;
    count := 1;
    for m := 0 to |MARKERS|
      invariant 1 <= count <= m + 1 && out[..count] == VariantsUpTo(path, m) && out[0] == path
    {
      ghost var before := out[..count];
      assert path == before[0];
      if Find(path, MARKERS[m], 0) < |path| {
        var candidate := RemoveMarker(path, MARKERS[m]);
        out[count] := candidate;
        assert out[..count] == before;
        if candidate != path && candidate !in out[..count] {
          count := count + 1;
          assert out[..count] == before + [candidate];
        }
      } else {
        StripTail(path, MARKERS[m], 0);
        assert path[0..] == path;
      }
    }
  }

  lemma {:induction false} StripKeepsSlash(path: string, marker: string)
    requires StartsWith(path, '/') && marker != [] && marker[0] != '/'
    ensures StartsWith(Strip(path, marker), '/')
  {
    assert !HasAt(path, marker, 0);
  }

  /** Variants of an absolute path are absolute. */
  lemma VariantsStayAbsolute(path: string, v: string)
    requires StartsWith(path, '/') && v in Variants(path)
    ensures StartsWith(v, '/')
  {
    StripKeepsSlash(path, "64");
    StripKeepsSlash(path, ".x64");
    StripKeepsSlash(path, "x64");
    StripKeepsSlash(path, "_64");
  }

  // ---------------------------------------------------------------- what names a path

  /** A leading `>` only marks a launcher; it is not part of the file name. */
  function Unmarked(name: string): string {
    if StartsWith(name, '>') then name[1..] else name
  }

  predicate OwnSeparator(name: string) {
    name != [] && (name[0] == '/' || name[0] == '\\')
  }

  /** `name` stands at `at`, behind a separator or the start, or with a separator of its own. */
  predicate StandsAt(path: string, name: string, at: nat) {
    && OccursAt(Slashed(name), path, at)
    && (at == 0 || path[at - 1] == '/' || OwnSeparator(name))
  }

  const BUNDLE_INTERIOR := "/contents/"

  predicate IsBundleName(name: string) {
    |name| >= 4 && EqFold(name[|name| - 4..], ".app")
  }

  /** A macOS bundle is named in the middle of the path, with the bundle's interior behind it. */
  predicate NamesABundle(path: string, name: string) {
    && IsBundleName(name)
    && exists at :: 0 <= at < |path| && StandsAt(path, name, at) && OccursAt(BUNDLE_INTERIOR, path, at + |name|)
  }

  /** Whether a declared name names the process: as the path's last components, or as a bundle it runs in. */
  predicate ExeNamesPath(path: string, declared: string) {
    var name := Unmarked(declared);
    && name != []
    && ((|name| <= |path| && StandsAt(path, name, |path| - |name|)) || NamesABundle(path, name))
  }

  /** A launcher mark followed by a separator. */
  predicate MarkedSeparator(declared: string) {
    StartsWith(declared, '>') && OwnSeparator(declared[1..])
  }

  lemma StandingNameIsSeen(path: string, declared: string, at: nat)
    requires StartsWith(path, '/') && !MarkedSeparator(declared) && Unmarked(declared) != []
    requires StandsAt(path, Unmarked(declared), at)
    ensures Occurs(Forward(declared), path)
  {
    var folded := Slashed(Unmarked(declared));
    if StartsWith(folded, '/') {
      assert Forward(declared) == folded;
    } else {
      assert Forward(declared) == "/" + folded;
      BehindSeparator(path, folded, at);
    }
  }

  lemma BehindSeparator(path: string, folded: string, at: nat)
    requires OccursAt(folded, path, at) && folded != [] && folded[0] != '/'
    requires StartsWith(path, '/') && (at == 0 || path[at - 1] == '/')
    ensures at > 0 && OccursAt("/" + folded, path, at - 1)
  {
    assert path[at..at + |folded|][0] == path[at];
    if at > 0 {
      assert path[at - 1..at - 1 + |"/" + folded|] == [path[at - 1]] + path[at..at + |folded|];
    }
  }

  /** On an absolute path the automaton sees every name that names it, except behind a marked separator. */
  lemma NamesAreSeen(path: string, declared: string)
    requires StartsWith(path, '/') && !MarkedSeparator(declared) && ExeNamesPath(path, declared)
    ensures Occurs(Forward(declared), path)
  {
    var name := Unmarked(declared);
    hide Forward, MarkedSeparator, StandsAt, Unmarked;
    if |name| <= |path| && StandsAt(path, name, |path| - |name|) {
      StandingNameIsSeen(path, declared, |path| - |name|);
    } else {
      var at :| 0 <= at < |path| && StandsAt(path, name, at) && OccursAt(BUNDLE_INTERIOR, path, at + |name|);
      StandingNameIsSeen(path, declared, at);
    }
  }

  /** No two separators in a row. */
  predicate SingleSeparators(path: string) {
    forall i :: 0 <= i < |path| - 1 && path[i] == '/' ==> path[i + 1] != '/'
  }

  lemma MarkedSeparatorDoubles(path: string, declared: string)
    requires MarkedSeparator(declared) && Occurs(Forward(declared), path)
    ensures !SingleSeparators(path)
  {
    var pattern := Forward(declared);
    assert |pattern| >= 2 && pattern[0] == '/' && pattern[1] == '/';
    var at: nat :| OccursAt(pattern, path, at);
    var window := path[at..at + |pattern|];
    assert Fold(window[0]) == '/' && Fold(window[1]) == '/';
  }

  /**
   Exactly which names the automaton sees on an absolute path without doubled separators: of those that name
   it, all but the ones where a launcher mark precedes a separator.
   */
  lemma NamesAreSeenIff(path: string, declared: string)
    requires StartsWith(path, '/') && SingleSeparators(path) && ExeNamesPath(path, declared)
    ensures Occurs(Forward(declared), path) <==> !MarkedSeparator(declared)
  {
    hide ExeNamesPath, Occurs, Forward, SingleSeparators;
    if MarkedSeparator(declared) {
      if Occurs(Forward(declared), path) { MarkedSeparatorDoubles(path, declared); }
    } else {
      NamesAreSeen(path, declared);
    }
  }

  /** Both exceptions are real: the name names the path, and its pattern is not in it. */
  lemma UnseenNames()
    ensures ExeNamesPath("a", "a") && !Occurs(Forward("a"), "a")
    ensures ExeNamesPath("/a", ">/a") && !Occurs(Forward(">/a"), "/a")
  {
    assert StandsAt("a", "a", 0) && StandsAt("/a", "/a", 0);
    assert |Forward("a")| == 2 && |Forward(">/a")| == 3;
    TooShort(Forward("a"), "a");
    TooShort(Forward(">/a"), "/a");
  }

  lemma TooShort(pattern: string, text: string)
    requires |pattern| > |text|
    ensures !Occurs(pattern, text)
  {
  }

  // ---------------------------------------------------------------- probing

  datatype Match = Match(pattern: nat, end: nat)

  /** All occurrences, ordered by where they end; ties in any order. */
  ghost predicate IsSearch(patterns: seq<string>, text: string, found: seq<Match>) {
    && (forall m :: m in found ==> m.pattern < |patterns| && Ends(patterns[m.pattern], text, m.end))
    && (forall p, end :: 0 <= p < |patterns| && Ends(patterns[p], text, end) ==> Match(p, end) in found)
    && (forall k, l :: 0 <= k < l < |found| ==> found[k].end <= found[l].end)
  }

  predicate Ends(pattern: string, text: string, end: nat) {
    |pattern| <= end && OccursAt(pattern, text, end - |pattern|)
  }

  type Searcher = (seq<string>, string) -> seq<Match>

  ghost predicate Searches(search: Searcher) {
    forall patterns, text {:trigger search(patterns, text)} :: IsSearch(patterns, text, search(patterns, text))
  }

  lemma ReportedIffOccurs(patterns: seq<string>, text: string, found: seq<Match>, p: nat)
    requires IsSearch(patterns, text, found) && p < |patterns|
    ensures (exists m :: m in found && m.pattern == p) <==> Occurs(patterns[p], text)
  {
    if at: nat :| OccursAt(patterns[p], text, at) {
      assert Ends(patterns[p], text, at + |patterns[p]|);
    }
  }

  /** An eligible executable whose pattern the variant carries. */
  ghost predicate Carries(entries: seq<Entry>, tier: Tier, platform: Platform, variant: string, r: Ref) {
    Eligible(entries, tier, platform, r) && Occurs(Forward(ExeAt(entries, r).name), variant)
  }

  lemma CarriesIffReported(a: Automaton, entries: seq<Entry>, tier: Tier, platform: Platform, variant: string,
                           found: seq<Match>, p: nat)
    requires WellIndexed(a, entries, tier, platform) && IsSearch(a.patterns, Reverse(variant), found) && p < |a.indexes|
    ensures (exists m :: m in found && m.pattern == p) <==> Carries(entries, tier, platform, variant, a.indexes[p])
  {
    ReportedIffOccurs(a.patterns, Reverse(variant), found, p);
    ReversedSearch(Forward(ExeAt(entries, a.indexes[p]).name), variant);
  }

  /** Every match points at an executable. */
  predicate Pointing(indexes: seq<Ref>, found: seq<Match>) {
    forall k :: 0 <= k < |found| ==> found[k].pattern < |indexes|
  }

  /** One hit per match, in the order they were found. */
  ghost predicate IsResolved(hits: seq<Ref>, indexes: seq<Ref>, found: seq<Match>)
    requires Pointing(indexes, found)
  {
    |hits| == |found| && forall k :: 0 <= k < |found| ==> hits[k] == indexes[found[k].pattern]
  }

  /** The executables whose patterns a variant carries, in the order the automaton reports them. */
  method Probe(a: Automaton, entries: seq<Entry>, variant: string, search: Searcher, ghost tier: Tier,
               ghost platform: Platform)
    returns (hits: seq<Ref>)
    requires Searches(search) && WellIndexed(a, entries, tier, platform)
    ensures forall r :: r in hits <==> Carries(entries, tier, platform, variant, r)
    ensures var found := search(a.patterns, Reverse(variant));
            IsSearch(a.patterns, Reverse(variant), found) && Pointing(a.indexes, found) &&
            IsResolved(hits, a.indexes, found)
  {
    var found := search(a.patterns, Reverse(variant));
    assert IsSearch(a.patterns, Reverse(variant), found);
    InRange(a.patterns, Reverse(variant), found);
    hits := Resolved(a.indexes, found);
    HitsCarry(a, entries, tier, platform, variant, found, hits);
  }

  lemma InRange(patterns: seq<string>, text: string, found: seq<Match>)
    requires IsSearch(patterns, text, found)
    ensures forall k :: 0 <= k < |found| ==> found[k].pattern < |patterns|
  {
    forall k | 0 <= k < |found| ensures found[k].pattern < |patterns| { assert found[k] in found; }
  }

  method Resolved(indexes: seq<Ref>, found: seq<Match>) returns (hits: seq<Ref>)
    requires Pointing(indexes, found)
    ensures IsResolved(hits, indexes, found)
  {
    hits := [];
    for k := 0 to |found|
      invariant |hits| == k && forall i :: 0 <= i < k ==> hits[i] == indexes[found[i].pattern]
    {
      hits := hits + [indexes[found[k].pattern]];
    }
  }

  lemma HitsCarry(a: Automaton, entries: seq<Entry>, tier: Tier, platform: Platform, variant: string,
                  found: seq<Match>, hits: seq<Ref>)
    requires WellIndexed(a, entries, tier, platform) && IsSearch(a.patterns, Reverse(variant), found)
    requires Pointing(a.indexes, found) && IsResolved(hits, a.indexes, found)
    ensures forall r :: r in hits <==> Carries(entries, tier, platform, variant, r)
  {
    forall r ensures r in hits <==> Carries(entries, tier, platform, variant, r) {
      HitIffCarries(a, entries, tier, platform, variant, found, hits, r);
    }
  }

  lemma HitIffCarries(a: Automaton, entries: seq<Entry>, tier: Tier, platform: Platform, variant: string,
                      found: seq<Match>, hits: seq<Ref>, r: Ref)
    requires WellIndexed(a, entries, tier, platform) && IsSearch(a.patterns, Reverse(variant), found)
    requires Pointing(a.indexes, found) && IsResolved(hits, a.indexes, found)
    ensures r in hits <==> Carries(entries, tier, platform, variant, r)
  {
    if r in hits {
      hide WellIndexed, Carries, IsSearch;
      var i :| 0 <= i < |hits| && hits[i] == r;
      assert found[i] in found;
      CarriesIffReported(a, entries, tier, platform, variant, found, found[i].pattern);
    }
    if Carries(entries, tier, platform, variant, r) {
      var p := PositionOf(a.indexes, r);
      CarriesIffReported(a, entries, tier, platform, variant, found, p);
      var m :| m in found && m.pattern == p;
      var i :| 0 <= i < |found| && found[i] == m;
      assert hits[i] == r;
    }
  }

  lemma PositionOf(refs: seq<Ref>, r: Ref) returns (p: nat)
    requires r in refs
    ensures p < |refs| && refs[p] == r
  {
    p :| 0 <= p < |refs| && refs[p] == r;
  }

  /** The executable at `r` exists and its declared name names the variant. */
  predicate Names(entries: seq<Entry>, variant: string, r: Ref) {
    IsRef(entries, r) && ExeNamesPath(variant, ExeAt(entries, r).name)
  }

  datatype Outcome = Corroborated(custom: bool, r: Ref) | Refused | NoMatch

  /** `r` names the variant, and nothing reported before it does. */
  ghost predicate IsFirstNaming(hits: seq<Ref>, entries: seq<Entry>, variant: string, r: Ref) {
    exists k :: 0 <= k < |hits| && hits[k] == r && Names(entries, variant, r) &&
                forall i :: 0 <= i < k ==> !Names(entries, variant, hits[i])
  }

  /** The first reported executable that names the variant; otherwise whether any was reported. */
  method FirstHitNamingPath(hits: seq<Ref>, entries: seq<Entry>, custom: bool,
                            variant: string) returns (outcome: Outcome)
    ensures outcome.Corroborated? ==> outcome.custom == custom && IsFirstNaming(hits, entries, variant, outcome.r)
    ensures !outcome.Corroborated? ==> forall r :: r in hits ==> !Names(entries, variant, r)
    ensures !outcome.Corroborated? ==> (outcome.Refused? <==> hits != [])
  {
    var anyMatch := false;
    for k := 0 to |hits|
      invariant anyMatch <==> k > 0
      invariant forall i :: 0 <= i < k ==> !Names(entries, variant, hits[i])
    {
      if Names(entries, variant, hits[k]) {
        return Corroborated(custom, hits[k]);
      }
      anyMatch := true;
    }
    outcome := if anyMatch then Refused else NoMatch;
  }

  // ---------------------------------------------------------------- which executable wins

  /** An eligible executable names the variant, and its pattern stands at `at`. */
  ghost predicate StartsAt(entries: seq<Entry>, tier: Tier, platform: Platform, v: string, r: Ref, at: nat) {
    && Eligible(entries, tier, platform, r) && Names(entries, v, r)
    && OccursAt(Forward(ExeAt(entries, r).name), v, at)
  }

  /** Of all naming executables, none has its pattern start closer to the end of the variant. */
  ghost predicate Wins(entries: seq<Entry>, tier: Tier, platform: Platform, v: string, r: Ref) {
    exists at: nat :: StartsAt(entries, tier, platform, v, r, at) && LatestStart(entries, tier, platform, v, at)
  }

  ghost predicate LatestStart(entries: seq<Entry>, tier: Tier, platform: Platform, v: string, at: nat) {
    forall other, late: nat :: StartsAt(entries, tier, platform, v, other, late) ==> late <= at
  }

  lemma MatchStarts(pattern: string, v: string, end: nat)
    requires Ends(Reverse(pattern), Reverse(v), end)
    ensures end <= |v| && OccursAt(pattern, v, |v| - end)
  {
    hide OccursAt, Reverse;
    UnreversedOccurrence(pattern, v, end - |Reverse(pattern)|);
  }

  lemma StartIsMatched(a: Automaton, entries: seq<Entry>, tier: Tier, platform: Platform, v: string,
                       found: seq<Match>, r: Ref, at: nat) returns (l: nat)
    requires WellIndexed(a, entries, tier, platform) && IsSearch(a.patterns, Reverse(v), found)
    requires Pointing(a.indexes, found) && StartsAt(entries, tier, platform, v, r, at)
    ensures l < |found| && a.indexes[found[l].pattern] == r && at <= |v| && found[l].end == |v| - at
  {
    var p := PositionOf(a.indexes, r);
    var pattern := Forward(ExeAt(entries, r).name);
    assert a.patterns[p] == Reverse(pattern);
    hide OccursAt, Forward, ExeAt, Eligible, Names, Reverse;
    OccurrenceFits(pattern, v, at);
    ReversedOccurrence(pattern, v, at);
    assert Ends(Reverse(pattern), Reverse(v), |v| - at);
    assert Match(p, |v| - at) in found;
    l :| 0 <= l < |found| && found[l] == Match(p, |v| - at);
  }

  lemma IndexedPattern(a: Automaton, entries: seq<Entry>, tier: Tier, platform: Platform, p: nat)
    requires WellIndexed(a, entries, tier, platform) && p < |a.indexes|
    ensures Eligible(entries, tier, platform, a.indexes[p]) && |a.patterns| == |a.indexes|
    ensures a.patterns[p] == Reverse(Forward(ExeAt(entries, a.indexes[p]).name))
  {
    hide Forward, Reverse, Keeps;
  }

  /** The hit at `k` starts where its match ends in the reversed variant. */
  lemma HitStarts(a: Automaton, entries: seq<Entry>, tier: Tier, platform: Platform, v: string,
                  found: seq<Match>, k: nat)
    requires WellIndexed(a, entries, tier, platform) && IsSearch(a.patterns, Reverse(v), found)
    requires Pointing(a.indexes, found) && k < |found| && Names(entries, v, a.indexes[found[k].pattern])
    ensures found[k].end <= |v|
    ensures StartsAt(entries, tier, platform, v, a.indexes[found[k].pattern], |v| - found[k].end)
  {
    hide WellIndexed, Ends, OccursAt, Forward, Names, Reverse, Keeps;
    var m := found[k];
    IndexedPattern(a, entries, tier, platform, m.pattern);
    assert m in found && Ends(a.patterns[m.pattern], Reverse(v), m.end);
    MatchStarts(Forward(ExeAt(entries, a.indexes[m.pattern]).name), v, m.end);
  }

  /** The first hit that names the variant is the naming executable whose pattern starts last. */
  lemma FirstNamingWins(a: Automaton, entries: seq<Entry>, tier: Tier, platform: Platform, v: string,
                        found: seq<Match>, hits: seq<Ref>, r: Ref)
    requires WellIndexed(a, entries, tier, platform) && IsSearch(a.patterns, Reverse(v), found)
    requires Pointing(a.indexes, found) && IsResolved(hits, a.indexes, found)
    requires IsFirstNaming(hits, entries, v, r)
    ensures Wins(entries, tier, platform, v, r)
  {
    hide WellIndexed, Ends, OccursAt, Forward, ExeAt, Eligible, Names, Reverse;
    var k :| 0 <= k < |hits| && hits[k] == r && Names(entries, v, r) &&
             forall i :: 0 <= i < k ==> !Names(entries, v, hits[i]);
    HitStarts(a, entries, tier, platform, v, found, k);
    var at := |v| - found[k].end;
    forall other, late: nat | StartsAt(entries, tier, platform, v, other, late) ensures late <= at {
      var l := StartIsMatched(a, entries, tier, platform, v, found, other, late);
      assert hits[l] == other && l >= k;
    }
    assert LatestStart(entries, tier, platform, v, at);
  }

  // ---------------------------------------------------------------- all variants, all automata

  function EntriesOf(g: Generation, tier: Tier): seq<Entry> {
    if tier.Custom? then g.custom else g.list
  }

  function AutomatonOf(g: Generation, tier: Tier): Automaton {
    match tier
    case Native => g.native
    case Proton => OrNothing(g.proton)
    case Custom => OrNothing(g.customAutomaton)
  }

  /** Some executable of the tier has its pattern in the variant. */
  ghost predicate Carried(g: Generation, platform: Platform, tier: Tier, v: string) {
    exists r :: Carries(EntriesOf(g, tier), tier, platform, v, r)
  }

  /** The tier's executable `r` has its pattern in the variant and names it. */
  ghost predicate SeenAt(g: Generation, platform: Platform, tier: Tier, v: string, r: Ref) {
    Carries(EntriesOf(g, tier), tier, platform, v, r) && Names(EntriesOf(g, tier), v, r)
  }

  ghost predicate Seen(g: Generation, platform: Platform, tier: Tier, v: string) {
    exists r :: SeenAt(g, platform, tier, v, r)
  }

  /** How much of the tier one variant shows: a name of its own, only patterns, or nothing. */
  datatype Sight = Named | Held | Blank

  ghost function SightOf(g: Generation, platform: Platform, tier: Tier, v: string): Sight {
    if Seen(g, platform, tier, v) then Named else if Carried(g, platform, tier, v) then Held else Blank
  }

  ghost function Sights(g: Generation, platform: Platform, tier: Tier, variants: seq<string>): seq<Sight> {
    seq(|variants|, i requires 0 <= i < |variants| => SightOf(g, platform, tier, variants[i]))
  }

  ghost predicate Verdict(sights: seq<Sight>, outcome: Outcome) {
    match outcome
    case Corroborated(_, _) => Named in sights
    case Refused => Named !in sights && Held in sights
    case NoMatch => Named !in sights && Held !in sights
  }

  /** What one automaton says about some variants. */
  ghost predicate PassResult(g: Generation, platform: Platform, tier: Tier, variants: seq<string>, outcome: Outcome) {
    && Verdict(Sights(g, platform, tier, variants), outcome)
    && (outcome.Corroborated? ==>
          outcome.custom == tier.Custom? && IsFirstSeen(g, platform, tier, variants, outcome.r))
  }

  /** `r` wins some variant, and no earlier one is named at all. */
  ghost predicate IsFirstSeen(g: Generation, platform: Platform, tier: Tier, variants: seq<string>, r: Ref) {
    exists k :: 0 <= k < |variants| && WinsAt(g, platform, tier, variants[k], r) &&
                Named !in Sights(g, platform, tier, variants)[..k]
  }

  ghost predicate WinsAt(g: Generation, platform: Platform, tier: Tier, v: string, r: Ref) {
    Wins(EntriesOf(g, tier), tier, platform, v, r)
  }

  lemma WinnerIsSeen(g: Generation, platform: Platform, tier: Tier, v: string, r: Ref)
    requires WinsAt(g, platform, tier, v, r)
    ensures SeenAt(g, platform, tier, v, r) && SightOf(g, platform, tier, v) == Named
  {
    var at: nat :| StartsAt(EntriesOf(g, tier), tier, platform, v, r, at);
    assert Occurs(Forward(ExeAt(EntriesOf(g, tier), r).name), v);
    assert SeenAt(g, platform, tier, v, r);
  }

  ghost predicate VariantResult(g: Generation, platform: Platform, tier: Tier, v: string, outcome: Outcome) {
    match outcome
    case Corroborated(custom, r) => custom == tier.Custom? && WinsAt(g, platform, tier, v, r)
    case Refused => SightOf(g, platform, tier, v) == Held
    case NoMatch => SightOf(g, platform, tier, v) == Blank
  }

  method ProbeVariant(g: Generation, tier: Tier, variant: string, search: Searcher, ghost platform: Platform)
    returns (outcome: Outcome)
    requires Searches(search) && WellBuilt(g, platform)
    ensures VariantResult(g, platform, tier, variant, outcome)
  {
    var entries, a := EntriesOf(g, tier), AutomatonOf(g, tier);
    assert WellIndexed(a, entries, tier, platform);
    hide WellBuilt, WellIndexed, Searches, IsSearch, Names, Carries;
    var hits := Probe(a, entries, variant, search, tier, platform);
    outcome := FirstHitNamingPath(hits, entries, tier.Custom?, variant);
    ghost var found := search(a.patterns, Reverse(variant));
    if outcome.Refused? { assert hits[0] in hits; }
    if outcome.Corroborated? { FirstNamingWins(a, entries, tier, platform, variant, found, hits, outcome.r); }
  }

  /** Every variant against one automaton, until one is corroborated. */
  method ProbePass(g: Generation, tier: Tier, variants: seq<string>, search: Searcher, ghost platform: Platform)
    returns (outcome: Outcome)
    requires Searches(search) && WellBuilt(g, platform)
    ensures PassResult(g, platform, tier, variants, outcome)
  {
    ghost var sights := Sights(g, platform, tier, variants);
    var refused := false;
    for k := 0 to |variants|
      invariant Verdict(sights[..k], if refused then Refused else NoMatch)
    {
      outcome := ProbeVariant(g, tier, variants[k], search, platform);
      if outcome.Corroborated? {
        PassEnds(g, platform, tier, variants, k, outcome);
        return;
      }
      VerdictGoesOn(sights, k, refused, outcome.Refused?);
      refused := refused || outcome.Refused?;
    }
    assert sights[..|variants|] == sights;
    outcome := if refused then Refused else NoMatch;
  }

  lemma PassEnds(g: Generation, platform: Platform, tier: Tier, variants: seq<string>, k: nat, outcome: Outcome)
    requires k < |variants| && outcome.Corroborated? && VariantResult(g, platform, tier, variants[k], outcome)
    requires Named !in Sights(g, platform, tier, variants)[..k]
    ensures PassResult(g, platform, tier, variants, outcome)
  {
    WinnerIsSeen(g, platform, tier, variants[k], outcome.r);
    assert Sights(g, platform, tier, variants)[k] == Named;
  }

  lemma VerdictGoesOn(sights: seq<Sight>, k: nat, refused: bool, again: bool)
    requires k < |sights| && Verdict(sights[..k], if refused then Refused else NoMatch)
    requires sights[k] == if again then Held else Blank
    ensures Verdict(sights[..k + 1], if refused || again then Refused else NoMatch)
  {
    assert sights[..k + 1] == sights[..k] + [sights[k]];
  }

  /** No variant of the path is named by, or carries a pattern of, the tier. */
  ghost predicate NoneNamed(g: Generation, platform: Platform, tier: Tier, path: string) {
    forall v :: v in Variants(path) ==> !Seen(g, platform, tier, v)
  }

  ghost predicate NoneCarried(g: Generation, platform: Platform, tier: Tier, path: string) {
    forall v :: v in Variants(path) ==> !Carried(g, platform, tier, v)
  }

  /** The first named variant of the path, in their order, is won by the tier's executable `r`. */
  ghost predicate ShownBy(g: Generation, platform: Platform, tier: Tier, path: string, r: Ref) {
    exists k :: 0 <= k < |VariantList(path)| && WinsAt(g, platform, tier, VariantList(path)[k], r) &&
                forall i :: 0 <= i < k ==> !Seen(g, platform, tier, VariantList(path)[i])
  }

  /**
   What probing a path concludes: a hit is the executable that wins the first named variant, and an override's
   hit only when nothing of the main database names any; a refusal saw patterns but no name; a miss saw no
   pattern at all.
   */
  ghost predicate ProbeResult(g: Generation, platform: Platform, path: string, proton: bool, outcome: Outcome) {
    var first := if proton then Proton else Native;
    match outcome
    case Corroborated(custom, r) =>
      && (custom ==> !proton && NoneNamed(g, platform, Native, path))
      && ShownBy(g, platform, if custom then Custom else first, path, r)
    case Refused =>
      && NoneNamed(g, platform, first, path) && (proton || NoneNamed(g, platform, Custom, path))
      && !(NoneCarried(g, platform, first, path) && (proton || NoneCarried(g, platform, Custom, path)))
    case NoMatch =>
      NoneCarried(g, platform, first, path) && (proton || NoneCarried(g, platform, Custom, path))
  }

  lemma FirstSeenIsShown(g: Generation, platform: Platform, tier: Tier, path: string, r: Ref)
    requires IsFirstSeen(g, platform, tier, VariantList(path), r)
    ensures ShownBy(g, platform, tier, path, r)
  {
    var variants := VariantList(path);
    hide VariantList, WinsAt, Seen;
    var k :| 0 <= k < |variants| && WinsAt(g, platform, tier, variants[k], r) &&
             Named !in Sights(g, platform, tier, variants)[..k];
    forall i | 0 <= i < k ensures !Seen(g, platform, tier, variants[i]) {
      assert Sights(g, platform, tier, variants)[..k][i] == SightOf(g, platform, tier, variants[i]);
    }
  }

  /** A pass over exactly the variants of a path. */
  lemma PassOverPath(g: Generation, platform: Platform, tier: Tier, path: string, outcome: Outcome)
    requires PassResult(g, platform, tier, VariantList(path), outcome)
    ensures outcome.Corroborated? ==> ShownBy(g, platform, tier, path, outcome.r)
    ensures !outcome.Corroborated? ==> NoneNamed(g, platform, tier, path)
    ensures !outcome.Corroborated? ==> (outcome.NoMatch? <==> NoneCarried(g, platform, tier, path))
  {
    var variants := VariantList(path);
    var sights := Sights(g, platform, tier, variants);
    VariantsAreListed(path);
    hide VariantList, Variants, Seen, Carried, IsFirstSeen, ShownBy;
    if outcome.Corroborated? {
      FirstSeenIsShown(g, platform, tier, path, outcome.r);
    } else {
      forall v | v in Variants(path)
        ensures SightOf(g, platform, tier, v) in sights
      {
        var i :| 0 <= i < |variants| && variants[i] == v;
        assert sights[i] == SightOf(g, platform, tier, v);
      }
      if outcome.Refused? {
        var i :| 0 <= i < |sights| && sights[i] == Held;
        assert variants[i] in Variants(path);
      }
    }
  }

  lemma SomeVariant(path: string, k: nat)
    requires k < |VariantList(path)|
    ensures VariantList(path)[k] in Variants(path)
  {
    VariantsAreListed(path);
  }

  lemma UncarriedIsUnnamed(g: Generation, platform: Platform, tier: Tier, path: string)
    requires NoneCarried(g, platform, tier, path)
    ensures NoneNamed(g, platform, tier, path)
  {
  }

  lemma HitIsNamed(g: Generation, platform: Platform, tier: Tier, path: string, r: Ref)
    requires ShownBy(g, platform, tier, path, r)
    ensures !NoneNamed(g, platform, tier, path)
  {
    hide VariantList, Variants, WinsAt;
    var k :| 0 <= k < |VariantList(path)| && WinsAt(g, platform, tier, VariantList(path)[k], r);
    SomeVariant(path, k);
    WinnerIsSeen(g, platform, tier, VariantList(path)[k], r);
    assert Seen(g, platform, tier, VariantList(path)[k]);
  }

  /** Without overrides there is nothing to carry. */
  lemma NoOverrides(g: Generation, platform: Platform, path: string)
    requires g.custom == []
    ensures NoneCarried(g, platform, Custom, path) && NoneNamed(g, platform, Custom, path)
  {
  }

  /** Every variant against the first automaton, then, for native matching, every variant against the overrides. */
  method ProbeVariants(path: string, out: array<string>, g: Generation, proton: bool, search: Searcher,
                       ghost platform: Platform)
    returns (outcome: Outcome)
    requires Searches(search) && WellBuilt(g, platform) && out.Length == 5
    modifies out
    ensures ProbeResult(g, platform, path, proton, outcome)
  {
    hide VariantList, ShownBy;
    var count := PathVariantsInto(path, out);
    var variants := out[..count];
    outcome := ProbePass(g, if proton then Proton else Native, variants, search, platform);
    PassOverPath(g, platform, if proton then Proton else Native, path, outcome);
    if outcome.Corroborated? || proton {
      return;
    }
    if g.customAutomaton.None? {
      NoOverrides(g, platform, path);
      return;
    }
    var again := ProbePass(g, Custom, variants, search, platform);
    PassOverPath(g, platform, Custom, path, again);
    outcome := if again.NoMatch? then outcome else again;
  }
}
