/** Name normalization: the key side, the lookup side and the de-dotted twin are one collapse of separators. */
module Normalizer {
  import opened Text

  /** Unicode white space. */
  predicate IsSpace(c: char) {
    || '\U{0009}' <= c <= '\U{000D}' || c == ' ' || c == '\U{0085}' || c == '\U{00A0}' || c == '\U{1680}'
    || '\U{2000}' <= c <= '\U{200A}' || c == '\U{2028}' || c == '\U{2029}' || c == '\U{202F}' || c == '\U{205F}'
    || c == '\U{3000}'
  }

  /** Punctuation no Windows file name can contain. */
  predicate IsForbidden(c: char) {
    c in ['<', '>', ':', '"', '/', '\\', '|', '?', '*']
  }

  predicate NameSeparator(c: char) { IsSpace(c) || IsForbidden(c) }

  predicate DotSeparator(c: char) { NameSeparator(c) || c == '.' }

  predicate SpaceOrDot(c: char) { IsSpace(c) || c == '.' }

  function Map(m: char -> char, s: string): (r: string)
    ensures |r| == |s| && forall i :: 0 <= i < |s| ==> r[i] == m(s[i])
  {
    seq(|s|, i requires 0 <= i < |s| => m(s[i]))
  }

  function Lower(s: string): string { Map(Fold, s) }

  function TrimStart(s: string): string {
    if s != [] && IsSpace(s[0]) then TrimStart(s[1..]) else s
  }

  function TrimEnd(s: string): string {
    if s != [] && IsSpace(s[|s| - 1]) then TrimEnd(s[..|s| - 1]) else s
  }

  function Trim(s: string): string { TrimEnd(TrimStart(s)) }

  // ---------------------------------------------------------------- splitting and joining

  /** `split`: the pieces between separators, empty ones included. */
  function Pieces(s: string, p: char -> bool): (r: seq<string>)
    ensures r != []
  {
    if s == [] then [[]]
    else
      var before, c := Pieces(s[..|s| - 1], p), s[|s| - 1];
      if p(c) then before + [[]]
      else before[..|before| - 1] + [before[|before| - 1] + [c]]
  }

  function NonEmpty(pieces: seq<string>): (r: seq<string>)
    ensures forall w :: w in r ==> w != []
  {
    if pieces == [] then []
    else
      var last := pieces[|pieces| - 1];
      NonEmpty(pieces[..|pieces| - 1]) + if last == [] then [] else [last]
  }

  function Words(s: string, p: char -> bool): seq<string> { NonEmpty(Pieces(s, p)) }

  /** Words with one space between them. */
  function Join(words: seq<string>): string {
    if words == [] then [] else Glue(Join(words[..|words| - 1]), words[|words| - 1])
  }

  function Glue(front: string, word: string): string {
    if front == [] then word else front + " " + word
  }

  // ---------------------------------------------------------------- the functions of the source

  /** Key side: trimmed, lower-cased, forbidden punctuation turned into spaces, runs collapsed. */
  function NormalizeName(name: string): string {
    Join(Words(Map(c => if IsForbidden(c) then ' ' else c, Lower(Trim(name))), IsSpace))
  }

  /** Dots into spaces, runs collapsed. */
  function Dedot(name: string): string {
    Join(Words(Map(c => if c == '.' then ' ' else c, name), IsSpace))
  }

  method JoinInto(words: seq<string>) returns (out: string)
    requires forall w :: w in words ==> w != []
    ensures out == Join(words)
  {
    out := [];
    var first := true;
    for k := 0 to |words|
      invariant out == Join(words[..k])
      invariant first <==> out == []
    {
      assert words[..k + 1][..k] == words[..k] && words[k] in words;
      if !first {
        out := out + " ";
      }
      first := false;
      out := out + words[k];
    }
    assert words[..|words|] == words;
  }

  /** Lookup side, on lower-cased input. */
  method NormalizeLoweredInto(name: string) returns (out: string)
    ensures out == Squeezed(name, NameSeparator)
  {
    out := JoinInto(Words(name, NameSeparator));
    JoinedWords(name, NameSeparator);
  }

  method NormalizeLoweredDedottedInto(name: string) returns (out: string)
    ensures out == Squeezed(name, DotSeparator)
  {
    out := JoinInto(Words(name, DotSeparator));
    JoinedWords(name, DotSeparator);
  }

  // ---------------------------------------------------------------- the collapse, one character at a time

  /** The text so far, and whether separators have been seen since. */
  datatype Scan = Scan(out: string, pending: bool)

  function Next(scan: Scan, c: char, p: char -> bool): Scan {
    if p(c) then Scan(scan.out, scan.out != [])
    else Scan(scan.out + (if scan.pending then " " else "") + [c], false)
  }

  function Run(s: string, p: char -> bool): Scan {
    if s == [] then Scan([], false) else Next(Run(s[..|s| - 1], p), s[|s| - 1], p)
  }

  /** `s` with every run of separators as one space, none at either end. */
  function Squeezed(s: string, p: char -> bool): string { Run(s, p).out }

  lemma RunNext(s: string, c: char, p: char -> bool)
    ensures Run(s + [c], p) == Next(Run(s, p), c, p)
  {
    assert (s + [c])[..|s|] == s;
  }

  /** The scan has copied the words in `front`, joined, and as much of the next one as `word`. */
  ghost predicate Copied(scan: Scan, front: string, word: string) {
    if word == [] then scan.out == front && scan.pending == (front != [])
    else scan.out == Glue(front, word) && !scan.pending
  }

  lemma CopiedBreak(scan: Scan, front: string, word: string, c: char, p: char -> bool)
    requires Copied(scan, front, word) && p(c)
    ensures Copied(Next(scan, c, p), if word == [] then front else Glue(front, word), [])
  {
  }

  lemma CopiedChar(scan: Scan, front: string, word: string, c: char, p: char -> bool)
    requires Copied(scan, front, word) && !p(c)
    ensures Copied(Next(scan, c, p), front, word + [c])
  {
    if front != [] { Text.Regroup(front + " ", word, [c]); }
    assert [] + [c] == [c];
  }

  /** Splitting into words and joining them is the collapse. */
  lemma {:induction false} PiecesFollow(s: string, p: char -> bool)
    ensures var pieces := Pieces(s, p);
            Copied(Run(s, p), Join(NonEmpty(pieces[..|pieces| - 1])), pieces[|pieces| - 1])
  {
    if s != [] {
      var n := |s| - 1;
      PiecesFollow(s[..n], p);
      var before, pieces, scan := Pieces(s[..n], p), Pieces(s, p), Run(s[..n], p);
      var front, word := before[..|before| - 1], before[|before| - 1];
      assert pieces[..|pieces| - 1] == if p(s[n]) then before else front;
      hide Copied, NonEmpty, Join, Glue;
      if p(s[n]) {
        FilterLast(before);
        CopiedBreak(scan, Join(NonEmpty(front)), word, s[n], p);
      } else {
        CopiedChar(scan, Join(NonEmpty(front)), word, s[n], p);
      }
    }
  }

  lemma FilterLast(pieces: seq<string>)
    requires pieces != []
    ensures var front, word := NonEmpty(pieces[..|pieces| - 1]), pieces[|pieces| - 1];
            Join(NonEmpty(pieces)) == if word == [] then Join(front) else Glue(Join(front), word)
  {
    var front, word := NonEmpty(pieces[..|pieces| - 1]), pieces[|pieces| - 1];
    if word == [] {
      assert front + [] == front;
    } else {
      assert (front + [word])[..|front|] == front;
    }
  }

  lemma JoinedWords(s: string, p: char -> bool)
    ensures Join(Words(s, p)) == Squeezed(s, p)
  {
    PiecesFollow(s, p);
    FilterLast(Pieces(s, p));
  }

  /** Rewriting separators into separators, and nothing else, is invisible. */
  lemma {:induction false} RewriteInvisible(m: char -> char, s: string, q: char -> bool, p: char -> bool)
    requires forall i :: 0 <= i < |s| ==> q(m(s[i])) == p(s[i]) && (!p(s[i]) ==> m(s[i]) == s[i])
    ensures Run(Map(m, s), q) == Run(s, p)
  {
    if s != [] {
      var n := |s| - 1;
      RewriteInvisible(m, s[..n], q, p);
      assert Map(m, s)[..n] == Map(m, s[..n]);
    }
  }

  lemma {:induction false} LeadingSeparator(c: char, s: string, p: char -> bool)
    requires p(c)
    ensures Run([c] + s, p) == Run(s, p)
  {
    if s == [] {
      RunNext([], c, p);
      assert [] + [c] == [c] + s;
    } else {
      var n := |s| - 1;
      LeadingSeparator(c, s[..n], p);
      assert ([c] + s)[..n + 1] == [c] + s[..n];
    }
  }

  lemma {:induction false} TrimStartInvisible(s: string, p: char -> bool)
    requires forall c :: IsSpace(c) ==> p(c)
    ensures Squeezed(Lower(TrimStart(s)), p) == Squeezed(Lower(s), p)
  {
    if s != [] && IsSpace(s[0]) {
      TrimStartInvisible(s[1..], p);
      assert Lower(s) == [Fold(s[0])] + Lower(s[1..]);
      LeadingSeparator(Fold(s[0]), Lower(s[1..]), p);
    }
  }

  lemma {:induction false} TrimEndInvisible(s: string, p: char -> bool)
    requires forall c :: IsSpace(c) ==> p(c)
    ensures Squeezed(Lower(TrimEnd(s)), p) == Squeezed(Lower(s), p)
  {
    if s != [] && IsSpace(s[|s| - 1]) {
      var n := |s| - 1;
      TrimEndInvisible(s[..n], p);
      assert Lower(s) == Lower(s[..n]) + [Fold(s[n])];
      RunNext(Lower(s[..n]), Fold(s[n]), p);
    }
  }

  /** Key side and lookup side agree on every string. */
  lemma NormalizersAgree(name: string)
    ensures NormalizeName(name) == Squeezed(Lower(name), NameSeparator)
  {
    var lowered := Lower(Trim(name));
    var m := c => if IsForbidden(c) then ' ' else c;
    JoinedWords(Map(m, lowered), IsSpace);
    RewriteInvisible(m, lowered, IsSpace, NameSeparator);
    TrimEndInvisible(TrimStart(name), NameSeparator);
    TrimStartInvisible(name, NameSeparator);
  }

  // ---------------------------------------------------------------- when two names share a key

  /** Words: not empty, and without separators. */
  predicate AreWords(words: seq<string>) {
    forall i :: 0 <= i < |words| ==> words[i] != [] && ' ' !in words[i]
  }

  lemma {:induction false} PiecesHoldNone(s: string, p: char -> bool)
    requires p(' ')
    ensures forall i :: 0 <= i < |Pieces(s, p)| ==> ' ' !in Pieces(s, p)[i]
  {
    if s != [] { PiecesHoldNone(s[..|s| - 1], p); }
  }

  lemma {:induction false} NonEmptyAreWords(pieces: seq<string>)
    requires forall i :: 0 <= i < |pieces| ==> ' ' !in pieces[i]
    ensures AreWords(NonEmpty(pieces))
  {
    if pieces != [] { NonEmptyAreWords(pieces[..|pieces| - 1]); }
  }

  lemma {:induction false} JoinIsEmptyIff(words: seq<string>)
    requires AreWords(words)
    ensures Join(words) == [] <==> words == []
  {
    if words != [] { assert words[|words| - 1] != []; }
  }

  /** Text with at most one space is told apart by its last word. */
  lemma LastWord(front: string, word: string, front': string, word': string)
    requires ' ' !in word && ' ' !in word' && Glue(front, word) == Glue(front', word')
    ensures front == front' && word == word'
  {
    var all := Glue(front, word);
    assert forall i :: |all| - |word| <= i < |all| ==> all[i] == word[i - (|all| - |word|)] && all[i] != ' ';
    assert forall i :: |all| - |word'| <= i < |all| ==> all[i] == word'[i - (|all| - |word'|)] && all[i] != ' ';
    assert front != [] ==> all[|front|] == ' ';
    assert front' != [] ==> all[|front'|] == ' ';
    assert |word| == |word'|;
    assert word == all[|all| - |word|..] && word' == all[|all| - |word|..];
    assert front == all[..|front|] && front' == all[..|front|];
  }

  lemma {:induction false} JoinInjective(a: seq<string>, b: seq<string>)
    requires AreWords(a) && AreWords(b) && Join(a) == Join(b)
    ensures a == b
  {
    JoinIsEmptyIff(a);
    JoinIsEmptyIff(b);
    if a != [] && b != [] {
      var m, n := |a| - 1, |b| - 1;
      LastWord(Join(a[..m]), a[m], Join(b[..n]), b[n]);
      JoinInjective(a[..m], b[..n]);
      assert a == a[..m] + [a[m]] && b == b[..n] + [b[n]];
    }
  }

  /** Two names share a key exactly if they are the same words, up to ASCII case. */
  lemma KeysAgreeIff(a: string, b: string)
    ensures NormalizeName(a) == NormalizeName(b) <==> Words(Lower(a), NameSeparator) == Words(Lower(b), NameSeparator)
  {
    KeyIsWords(a);
    KeyIsWords(b);
    hide NormalizeName, Words, NameSeparator;
    if NormalizeName(a) == NormalizeName(b) {
      JoinInjective(Words(Lower(a), NameSeparator), Words(Lower(b), NameSeparator));
    }
  }

  lemma KeyIsWords(name: string)
    ensures var words := Words(Lower(name), NameSeparator); AreWords(words) && NormalizeName(name) == Join(words)
  {
    NormalizersAgree(name);
    JoinedWords(Lower(name), NameSeparator);
    PiecesHoldNone(Lower(name), NameSeparator);
    NonEmptyAreWords(Pieces(Lower(name), NameSeparator));
  }

  // ---------------------------------------------------------------- de-dotting

  lemma DedotIsCollapse(name: string)
    ensures Dedot(name) == Squeezed(name, SpaceOrDot)
  {
    var m := c => if c == '.' then ' ' else c;
    JoinedWords(Map(m, name), IsSpace);
    RewriteInvisible(m, name, IsSpace, SpaceOrDot);
  }

  /** One collapse behind another, against the collapse by both kinds of separators at once. */
  ghost predicate Follows(once: Scan, direct: Scan, q: char -> bool) {
    var twice := Run(once.out, q);
    && direct.out == twice.out
    && direct.pending == (if once.pending then twice.out != [] else twice.pending)
    && (once.out == [] ==> !once.pending)
  }

  lemma CollapseStep(once: Scan, direct: Scan, c: char, p: char -> bool, q: char -> bool, both: char -> bool)
    requires Follows(once, direct, q) && q(' ') && (both(c) <==> p(c) || q(c))
    ensures Follows(Next(once, c, p), Next(direct, c, both), q)
  {
    if !p(c) {
      if once.pending {
        RunNext(once.out, ' ', q);
        RunNext(once.out + [' '], c, q);
        assert once.out + " " + [c] == (once.out + [' ']) + [c];
      } else {
        RunNext(once.out, c, q);
        assert once.out + "" + [c] == once.out + [c];
      }
    }
  }

  /** Collapsing by fewer separators first changes nothing. */
  lemma {:induction false} CollapseTwice(s: string, p: char -> bool, q: char -> bool, both: char -> bool)
    requires q(' ') && forall c :: both(c) <==> p(c) || q(c)
    ensures Follows(Run(s, p), Run(s, both), q)
  {
    if s != [] {
      var n, c := |s| - 1, s[|s| - 1];
      CollapseTwice(s[..n], p, q, both);
      CollapseStep(Run(s[..n], p), Run(s[..n], both), c, p, q, both);
    }
  }

  /** De-dotting a key is the key of the de-dotted name, whichever side normalizes. */
  lemma DedotCommutes(name: string)
    ensures Dedot(NormalizeName(name)) == Squeezed(Lower(name), DotSeparator)
  {
    NormalizersAgree(name);
    DedotIsCollapse(NormalizeName(name));
    CollapseTwice(Lower(name), NameSeparator, SpaceOrDot, DotSeparator);
  }
}
