/**
 The automaton tier against a search by hand over variants and declared executables: where they agree, and
 exactly where they do not.
 */
module BruteForce {
  import opened Text
  import opened Bundle
  import opened Matcher

  /** Some variant is named by an eligible executable of the tier; no automaton involved. */
  ghost predicate NamedByHand(g: Generation, platform: Platform, tier: Tier, path: string) {
    exists v :: v in Variants(path) && NamedAt(g, platform, tier, v)
  }

  ghost predicate NamedAt(g: Generation, platform: Platform, tier: Tier, v: string) {
    exists r :: Eligible(EntriesOf(g, tier), tier, platform, r) && Names(EntriesOf(g, tier), v, r)
  }

  /** No declared name opens with a launcher mark and a separator. */
  ghost predicate PlainNames(entries: seq<Entry>) {
    forall r :: IsRef(entries, r) ==> !MarkedSeparator(ExeAt(entries, r).name)
  }

  lemma SeenIffNamed(g: Generation, platform: Platform, tier: Tier, v: string)
    requires StartsWith(v, '/') && PlainNames(EntriesOf(g, tier))
    ensures Seen(g, platform, tier, v) <==> NamedAt(g, platform, tier, v)
  {
    if r :| SeenAt(g, platform, tier, v, r) {
      assert Eligible(EntriesOf(g, tier), tier, platform, r) && Names(EntriesOf(g, tier), v, r);
    }
    if r :| Eligible(EntriesOf(g, tier), tier, platform, r) && Names(EntriesOf(g, tier), v, r) {
      NamesAreSeen(v, ExeAt(EntriesOf(g, tier), r).name);
      assert SeenAt(g, platform, tier, v, r);
    }
  }

  lemma UnnamedIffUnseen(g: Generation, platform: Platform, tier: Tier, path: string)
    requires StartsWith(path, '/') && PlainNames(EntriesOf(g, tier))
    ensures NoneNamed(g, platform, tier, path) <==> !NamedByHand(g, platform, tier, path)
  {
    forall v | v in Variants(path) ensures Seen(g, platform, tier, v) <==> NamedAt(g, platform, tier, v) {
      VariantsStayAbsolute(path, v);
      SeenIffNamed(g, platform, tier, v);
    }
  }

  /**
   The automaton tier equals brute force on every absolute path: a hit exactly when some variant and some
   eligible executable agree, a refusal exactly when patterns occur but none names the path, and an
   override's hit only when no variant is named by the main database.
   */
  lemma AutomatonTierIsBruteForce(g: Generation, platform: Platform, path: string, proton: bool, outcome: Outcome)
    requires ProbeResult(g, platform, path, proton, outcome)
    requires StartsWith(path, '/') && PlainNames(g.list) && PlainNames(g.custom)
    ensures outcome.Corroborated? <==>
            if proton then NamedByHand(g, platform, Proton, path)
            else NamedByHand(g, platform, Native, path) || NamedByHand(g, platform, Custom, path)
    ensures outcome.Corroborated? && outcome.custom ==> !NamedByHand(g, platform, Native, path)
    ensures outcome.Corroborated? ==>
              var tier := if outcome.custom then Custom else if proton then Proton else Native;
              FirstByHand(g, platform, tier, path, outcome.r)
    ensures outcome.Refused? <==>
            && !outcome.Corroborated?
            && !(if proton then NoneCarried(g, platform, Proton, path)
                 else NoneCarried(g, platform, Native, path) && NoneCarried(g, platform, Custom, path))
  {
    var first := if proton then Proton else Native;
    UnnamedIffUnseen(g, platform, first, path);
    UnnamedIffUnseen(g, platform, Custom, path);
    match outcome
    case Corroborated(custom, r) =>
      var tier := if custom then Custom else first;
      HitIsNamed(g, platform, tier, path, r);
      ShownIsFirst(g, platform, tier, path, r);
    case Refused =>
    case NoMatch =>
      UncarriedIsUnnamed(g, platform, first, path);
      if !proton { UncarriedIsUnnamed(g, platform, Custom, path); }
  }

  /** By hand: `r` wins the first variant that any eligible executable of the tier names. */
  ghost predicate FirstByHand(g: Generation, platform: Platform, tier: Tier, path: string, r: Ref) {
    exists k :: 0 <= k < |VariantList(path)| && WinsAt(g, platform, tier, VariantList(path)[k], r) &&
                forall i :: 0 <= i < k ==> !NamedAt(g, platform, tier, VariantList(path)[i])
  }

  lemma ShownIsFirst(g: Generation, platform: Platform, tier: Tier, path: string, r: Ref)
    requires StartsWith(path, '/') && PlainNames(EntriesOf(g, tier)) && ShownBy(g, platform, tier, path, r)
    ensures FirstByHand(g, platform, tier, path, r)
  {
    var list := VariantList(path);
    hide VariantList, Variants, WinsAt, NamedAt, Seen, PlainNames;
    var k :| 0 <= k < |list| && WinsAt(g, platform, tier, list[k], r) &&
             forall i :: 0 <= i < k ==> !Seen(g, platform, tier, list[i]);
    forall i | 0 <= i < k ensures !NamedAt(g, platform, tier, list[i]) {
      SomeVariant(path, i);
      VariantsStayAbsolute(path, list[i]);
      SeenIffNamed(g, platform, tier, list[i]);
    }
  }

  // ---------------------------------------------------------------- where they differ

  /** The eligible executable names some variant of the path. */
  ghost predicate NamesPath(g: Generation, platform: Platform, tier: Tier, path: string, r: Ref) {
    && Eligible(EntriesOf(g, tier), tier, platform, r)
    && exists v :: v in Variants(path) && Names(EntriesOf(g, tier), v, r)
  }

  predicate MarkedAt(g: Generation, tier: Tier, r: Ref)
    requires IsRef(EntriesOf(g, tier), r)
  {
    MarkedSeparator(ExeAt(EntriesOf(g, tier), r).name)
  }

  /** Every eligible executable that names the path has a launcher mark before a separator. */
  ghost predicate OnlyMarked(g: Generation, platform: Platform, tier: Tier, path: string) {
    forall r :: NamesPath(g, platform, tier, path, r) ==> MarkedAt(g, tier, r)
  }

  /** The path and its variants are absolute and without doubled separators. */
  ghost predicate CleanPath(path: string) {
    StartsWith(path, '/') && forall v :: v in Variants(path) ==> SingleSeparators(v)
  }

  lemma SeenIffUnmarked(g: Generation, platform: Platform, tier: Tier, v: string, r: Ref)
    requires StartsWith(v, '/') && SingleSeparators(v)
    requires Eligible(EntriesOf(g, tier), tier, platform, r) && Names(EntriesOf(g, tier), v, r)
    ensures SeenAt(g, platform, tier, v, r) <==> !MarkedAt(g, tier, r)
  {
    NamesAreSeenIff(v, ExeAt(EntriesOf(g, tier), r).name);
  }

  /** On a clean path nothing is seen exactly when all that names it is marked. */
  lemma UnseenIffMarked(g: Generation, platform: Platform, tier: Tier, path: string)
    requires CleanPath(path)
    ensures NoneNamed(g, platform, tier, path) <==> OnlyMarked(g, platform, tier, path)
  {
    if NoneNamed(g, platform, tier, path) {
      forall r | NamesPath(g, platform, tier, path, r) ensures MarkedAt(g, tier, r) {
        var v :| v in Variants(path) && Names(EntriesOf(g, tier), v, r);
        hide Variants, MarkedAt, SingleSeparators, SeenAt, Names;
        VariantsStayAbsolute(path, v);
        SeenIffUnmarked(g, platform, tier, v, r);
        assert !Seen(g, platform, tier, v);
      }
    } else {
      var v :| v in Variants(path) && Seen(g, platform, tier, v);
      var r :| SeenAt(g, platform, tier, v, r);
      hide Variants, MarkedAt, SingleSeparators;
      VariantsStayAbsolute(path, v);
      SeenIffUnmarked(g, platform, tier, v, r);
      assert NamesPath(g, platform, tier, path, r);
    }
  }

  /**
   Exactly where the tier and the search by hand differ, on clean paths and for any database: the tier answers
   with a hit unless every eligible executable that names the path is marked before a separator; so it misses a
   path named by hand exactly when there are such executables and no others.
   */
  lemma TierMissesIffMarked(g: Generation, platform: Platform, path: string, proton: bool, outcome: Outcome)
    requires ProbeResult(g, platform, path, proton, outcome) && CleanPath(path)
    ensures var first := if proton then Proton else Native;
            !outcome.Corroborated? <==>
            OnlyMarked(g, platform, first, path) && (proton || OnlyMarked(g, platform, Custom, path))
    ensures outcome.Corroborated? && outcome.custom ==> OnlyMarked(g, platform, Native, path)
  {
    hide CleanPath, OnlyMarked, ShownBy, NoneNamed, NoneCarried;
    var first := if proton then Proton else Native;
    UnseenIffMarked(g, platform, first, path);
    UnseenIffMarked(g, platform, Custom, path);
    match outcome
    case Corroborated(custom, r) => HitIsNamed(g, platform, if custom then Custom else first, path, r);
    case Refused =>
    case NoMatch =>
      UncarriedIsUnnamed(g, platform, first, path);
      if !proton { UncarriedIsUnnamed(g, platform, Custom, path); }
  }
}
