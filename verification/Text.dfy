/** Strings as the matcher sees them: ASCII case folding, separators, reversal and occurrences. */
module Text {

  /** ASCII lower-casing; every other character stands for itself. */
  function Fold(c: char): char {
    if 'A' <= c <= 'Z' then (c as int - 'A' as int + 'a' as int) as char else c
  }

  predicate EqFold(a: string, b: string) {
    |a| == |b| && forall i :: 0 <= i < |a| ==> Fold(a[i]) == Fold(b[i])
  }

  /** Windows separators as `/`. */
  function Slashed(s: string): (r: string)
    ensures |r| == |s| && forall i :: 0 <= i < |s| ==> r[i] == if s[i] == '\\' then '/' else s[i]
  {
    seq(|s|, i requires 0 <= i < |s| => if s[i] == '\\' then '/' else s[i])
  }

  function Reverse(s: string): (r: string)
    ensures |r| == |s| && forall i :: 0 <= i < |s| ==> r[i] == s[|s| - 1 - i]
  {
    seq(|s|, i requires 0 <= i < |s| => s[|s| - 1 - i])
  }

  predicate StartsWith(s: string, c: char) {
    s != [] && s[0] == c
  }

  /** `pattern` stands in `text` at `at`, ignoring ASCII case. */
  predicate OccursAt(pattern: string, text: string, at: nat) {
    at + |pattern| <= |text| && EqFold(text[at..at + |pattern|], pattern)
  }

  ghost predicate Occurs(pattern: string, text: string) {
    exists at :: OccursAt(pattern, text, at)
  }

  /** One string is the other backwards. */
  predicate Mirrored(a: string, b: string) {
    |a| == |b| && forall i :: 0 <= i < |a| ==> a[i] == b[|b| - 1 - i]
  }

  lemma ReverseMirrors(s: string)
    ensures Mirrored(s, Reverse(s)) && Mirrored(Reverse(s), s)
  {
  }

  lemma MirroredOccurrence(pattern: string, back: string, text: string, mirror: string, at: nat)
    requires Mirrored(pattern, back) && Mirrored(text, mirror) && OccursAt(pattern, text, at)
    ensures OccursAt(back, mirror, |text| - at - |pattern|)
  {
    var start := |text| - at - |pattern|;
    var window := mirror[start..start + |back|];
    forall i | 0 <= i < |back| ensures Fold(window[i]) == Fold(back[i]) {
      var j := |back| - 1 - i;
      assert text[at..at + |pattern|][j] == text[at + j] == mirror[|mirror| - 1 - (at + j)] && pattern[j] == back[i];
    }
  }

  lemma OccurrenceFits(pattern: string, text: string, at: nat)
    requires OccursAt(pattern, text, at)
    ensures at + |pattern| <= |text|
  {
  }

  lemma ReversedOccurrence(pattern: string, text: string, at: nat)
    requires OccursAt(pattern, text, at)
    ensures OccursAt(Reverse(pattern), Reverse(text), |text| - at - |pattern|)
  {
    hide Mirrored, OccursAt, Reverse;
    ReverseMirrors(pattern);
    ReverseMirrors(text);
    MirroredOccurrence(pattern, Reverse(pattern), text, Reverse(text), at);
  }

  lemma UnreversedOccurrence(pattern: string, text: string, at: nat)
    requires OccursAt(Reverse(pattern), Reverse(text), at)
    ensures at + |pattern| <= |text| && OccursAt(pattern, text, |text| - at - |pattern|)
  {
    hide Mirrored, OccursAt, Reverse;
    ReverseMirrors(pattern);
    ReverseMirrors(text);
    OccurrenceFits(Reverse(pattern), Reverse(text), at);
    MirroredOccurrence(Reverse(pattern), pattern, Reverse(text), text, at);
  }

  /** Searching a reversed text for a reversed pattern is searching the text for the pattern. */
  lemma ReversedSearch(pattern: string, text: string)
    ensures Occurs(Reverse(pattern), Reverse(text)) <==> Occurs(pattern, text)
  {
    hide OccursAt, Reverse;
    if at: nat :| OccursAt(pattern, text, at) {
      OccurrenceFits(pattern, text, at);
      ReversedOccurrence(pattern, text, at);
    }
    if at: nat :| OccursAt(Reverse(pattern), Reverse(text), at) {
      UnreversedOccurrence(pattern, text, at);
    }
  }

  // ---------------------------------------------------------------- finding and removing

  predicate HasAt(s: string, marker: string, i: nat) {
    i + |marker| <= |s| && forall k :: 0 <= k < |marker| ==> s[i + k] == marker[k]
  }

  /** Leftmost exact occurrence from `i` on, or the length. */
  function Find(s: string, marker: string, i: nat): (at: nat)
    requires i <= |s| && marker != []
    ensures i <= at <= |s| && (at < |s| ==> HasAt(s, marker, at))
    decreases |s| - i
  {
    if i == |s| || HasAt(s, marker, i) then i else Find(s, marker, i + 1)
  }

  /** What is left of `s` from `i` on without `marker`, read from the left one character at a time. */
  function StripFrom(s: string, marker: string, i: nat): string
    requires i <= |s| && marker != []
    decreases |s| - i
  {
    if i == |s| then []
    else if HasAt(s, marker, i) then StripFrom(s, marker, i + |marker|)
    else [s[i]] + StripFrom(s, marker, i + 1)
  }

  function Strip(s: string, marker: string): string
    requires marker != []
  {
    StripFrom(s, marker, 0)
  }

  lemma Regroup<T>(a: seq<T>, b: seq<T>, c: seq<T>)
    ensures a + (b + c) == (a + b) + c
  {
  }

  /** What stripping leaves behind an occurrence found at `at`. */
  function After(s: string, marker: string, at: nat): string
    requires at <= |s| && marker != [] && (at < |s| ==> at + |marker| <= |s|)
  {
    if at < |s| then StripFrom(s, marker, at + |marker|) else []
  }

  /** Up to the next occurrence nothing is lost. */
  lemma {:induction false} StripUpTo(s: string, marker: string, i: nat)
    requires i <= |s| && marker != []
    ensures var at := Find(s, marker, i); StripFrom(s, marker, i) == s[i..at] + After(s, marker, at)
    decreases |s| - i
  {
    var at := Find(s, marker, i);
    var rest := After(s, marker, at);
    if at == i {
      EmptyFirst(s[i..at], rest);
    } else {
      StripUpTo(s, marker, i + 1);
      OneMore(s, i, at, rest);
    }
  }

  lemma EmptyFirst(a: string, b: string)
    requires a == []
    ensures a + b == b
  {
  }

  lemma OneMore(s: string, i: nat, at: nat, rest: string)
    requires i < at <= |s|
    ensures [s[i]] + (s[i + 1..at] + rest) == s[i..at] + rest
  {
    assert s[i..at] == [s[i]] + s[i + 1..at];
    Regroup([s[i]], s[i + 1..at], rest);
  }

  lemma StripPiece(buf: string, s: string, marker: string, i: nat)
    requires i <= |s| && marker != [] && Find(s, marker, i) < |s|
    ensures var at := Find(s, marker, i);
            buf + StripFrom(s, marker, i) == (buf + s[i..at]) + StripFrom(s, marker, at + |marker|)
  {
    var at := Find(s, marker, i);
    StripUpTo(s, marker, i);
    Regroup(buf, s[i..at], StripFrom(s, marker, at + |marker|));
  }

  lemma StripTail(s: string, marker: string, i: nat)
    requires i <= |s| && marker != [] && Find(s, marker, i) == |s|
    ensures StripFrom(s, marker, i) == s[i..]
  {
    StripUpTo(s, marker, i);
    assert s[i..|s|] + [] == s[i..];
  }
}
