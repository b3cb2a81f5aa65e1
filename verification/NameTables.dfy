/** Sorted index tables: stable sort, dedup and binary search against a linear search in insertion order. */
module NameTables {
  import opened Presence
  import opened Ordering
  import opened Bundle
  import opened Normalizer

  datatype Row = Row(key: string, index: nat)

  // ---------------------------------------------------------------- linear search, the reference

  /** The first row with this key, in order. */
  function First(rows: seq<Row>, key: string): Option<nat> {
    if rows == [] then None
    else if rows[0].key == key then Some(rows[0].index)
    else First(rows[1..], key)
  }

  lemma {:induction false} FirstOfTwo(a: seq<Row>, b: seq<Row>, key: string)
    ensures First(a + b, key) == if First(a, key).Some? then First(a, key) else First(b, key)
  {
    if a == [] {
      assert a + b == b;
    } else {
      FirstOfTwo(a[1..], b, key);
      assert (a + b)[1..] == a[1..] + b;
    }
  }

  lemma FirstNext(rows: seq<Row>, row: Row, key: string)
    ensures First(rows + [row], key) ==
            if First(rows, key).Some? then First(rows, key) else if row.key == key then Some(row.index) else None
  {
    FirstOfTwo(rows, [row], key);
  }

  // ---------------------------------------------------------------- building

  predicate KeyLe(a: Row, b: Row) { StrLe(a.key, b.key) }

  /** Strictly ascending keys. */
  ghost predicate Strict(rows: seq<Row>) {
    Ascends(KeyLe, rows) && forall i, j :: 0 <= i < j < |rows| ==> rows[i].key != rows[j].key
  }

  /** A stable insertion keeps the row ahead of its equals, so it answers for its key. */
  lemma {:induction false} InsertAnswers(row: Row, rows: seq<Row>, key: string)
    ensures First(Insert(KeyLe, row, rows), key) == if row.key == key then Some(row.index) else First(rows, key)
  {
    StrLeTotal(row.key, row.key);
    if rows == [] || KeyLe(row, rows[0]) {
      assert ([row] + rows)[1..] == rows;
    } else {
      InsertAnswers(row, rows[1..], key);
      assert ([rows[0]] + Insert(KeyLe, row, rows[1..]))[1..] == Insert(KeyLe, row, rows[1..]);
    }
  }

  lemma {:induction false} SortAnswers(rows: seq<Row>, key: string)
    ensures First(SortBy(KeyLe, rows), key) == First(rows, key)
  {
    if rows != [] {
      SortAnswers(rows[1..], key);
      InsertAnswers(rows[0], SortBy(KeyLe, rows[1..]), key);
    }
  }

  lemma KeyOrder()
    ensures IsOrder(KeyLe)
  {
    forall a: Row, b: Row ensures KeyLe(a, b) || KeyLe(b, a) { StrLeTotal(a.key, b.key); }
    forall a: Row, b: Row, c: Row | KeyLe(a, b) && KeyLe(b, c) ensures KeyLe(a, c) { StrLeTrans(a.key, b.key, c.key); }
  }

  /** Keeps the first of each run of equal keys. */
  method Dedup(rows: seq<Row>) returns (kept: seq<Row>)
    requires Ascends(KeyLe, rows)
    ensures Strict(kept) && forall key :: First(kept, key) == First(rows, key)
  {
    kept := [];
    for k := 0 to |rows|
      invariant Strict(kept) && (kept == [] <==> k == 0) && (k > 0 ==> kept[|kept| - 1].key == rows[k - 1].key)
      invariant forall key :: First(kept, key) == First(rows[..k], key)
    {
      assert rows[..k + 1] == rows[..k] + [rows[k]];
      forall key ensures First(rows[..k + 1], key) ==
                         if First(kept, key).Some? then First(kept, key)
                         else if rows[k].key == key then Some(rows[k].index) else None
      {
        FirstNext(rows[..k], rows[k], key);
      }
      if kept == [] || kept[|kept| - 1].key != rows[k].key {
        forall key ensures First(kept + [rows[k]], key) == First(rows[..k + 1], key) { FirstNext(kept, rows[k], key); }
        assert k > 0 ==> KeyLe(rows[k - 1], rows[k]);
        StrictNext(kept, rows[k]);
        kept := kept + [rows[k]];
      } else {
        LastAnswers(kept);
      }
    }
    assert rows[..|rows|] == rows;
  }

  lemma StrictNext(rows: seq<Row>, row: Row)
    requires Strict(rows) && (rows != [] ==> KeyLe(rows[|rows| - 1], row) && rows[|rows| - 1].key != row.key)
    ensures Strict(rows + [row])
  {
    forall i | 0 <= i < |rows| ensures KeyLe(rows[i], row) && rows[i].key != row.key {
      var last := rows[|rows| - 1];
      if i < |rows| - 1 {
        StrLeTrans(rows[i].key, last.key, row.key);
        if rows[i].key == row.key { StrLeTotal(last.key, row.key); }
      }
    }
  }

  lemma LastAnswers(rows: seq<Row>)
    requires rows != []
    ensures First(rows, rows[|rows| - 1].key).Some?
  {
    var n := |rows| - 1;
    assert rows == rows[..n] + [rows[n]];
    FirstNext(rows[..n], rows[n], rows[n].key);
  }

  class SortedIndex {
    var entries: seq<Row>

    /** Sorted strictly, and every key answers with the first row inserted under it. */
    constructor (rows: seq<Row>)
      ensures Strict(entries) && forall key :: First(entries, key) == First(rows, key)
    {
      KeyOrder();
      SortAscends(KeyLe, rows);
      var kept := Dedup(SortBy(KeyLe, rows));
      entries := kept;
      new;
      forall key ensures First(entries, key) == First(rows, key) { SortAnswers(rows, key); }
    }

    /** Binary search finds what a linear search finds. */
    method Get(key: string) returns (index: Option<nat>)
      requires Strict(entries)
      ensures index == First(entries, key)
    {
      var lo, hi := 0, |entries|;
      while lo < hi
        invariant 0 <= lo <= hi <= |entries|
        invariant forall i :: 0 <= i < lo ==> entries[i].key != key
        invariant forall i :: hi <= i < |entries| ==> entries[i].key != key
      {
        var mid := (lo + hi) / 2;
        if entries[mid].key == key {
          OnlyOne(entries, mid);
          return Some(entries[mid].index);
        }
        Sides(entries, mid, key);
        if StrLe(entries[mid].key, key) { lo := mid + 1; } else { hi := mid; }
      }
      NotThere(entries, key);
      return None;
    }
  }

  lemma {:induction false} NotThere(rows: seq<Row>, key: string)
    requires forall i :: 0 <= i < |rows| ==> rows[i].key != key
    ensures First(rows, key) == None
  {
    if rows != [] { NotThere(rows[1..], key); }
  }

  lemma {:induction false} OnlyOne(rows: seq<Row>, at: nat)
    requires Strict(rows) && at < |rows|
    ensures First(rows, rows[at].key) == Some(rows[at].index)
  {
    assert rows == rows[..at] + rows[at..];
    NotThere(rows[..at], rows[at].key);
    FirstOfTwo(rows[..at], rows[at..], rows[at].key);
  }

  /** Which side of `mid` cannot hold the key. */
  lemma Sides(rows: seq<Row>, mid: nat, key: string)
    requires Strict(rows) && mid < |rows| && rows[mid].key != key
    ensures StrLe(rows[mid].key, key) ==> forall i :: 0 <= i <= mid ==> rows[i].key != key
    ensures !StrLe(rows[mid].key, key) ==> forall i :: mid <= i < |rows| ==> rows[i].key != key
  {
    forall i | 0 <= i < |rows| ensures rows[i].key == key ==> (i < mid <==> !StrLe(rows[mid].key, key)) {
      if rows[i].key == key {
        StrLeTotal(rows[i].key, rows[mid].key);
        assert i < mid ==> KeyLe(rows[i], rows[mid]);
        assert mid < i ==> KeyLe(rows[mid], rows[i]);
      }
    }
  }

  // ---------------------------------------------------------------- the name table

  /** Exact multi-word names of some length only. */
  predicate Matchable(key: string) { ' ' in key && |key| >= 6 }

  function Titles(entry: Entry): seq<string> { [entry.name] + entry.aliases }

  /** One of the titles normalizes to this matchable key. */
  ghost predicate Bears(titles: seq<string>, key: string) {
    Matchable(key) && exists t :: t in titles && NormalizeName(t) == key
  }

  /** The lowest entry bearing the key, among the first `n`. */
  ghost function Lowest(entries: seq<Entry>, key: string, n: nat): (i: Option<nat>)
    requires n <= |entries|
    ensures i.Some? ==> i.value < n && Bears(Titles(entries[i.value]), key)
    ensures i.Some? ==> forall j :: 0 <= j < i.value ==> !Bears(Titles(entries[j]), key)
    ensures i.None? ==> forall j :: 0 <= j < n ==> !Bears(Titles(entries[j]), key)
  {
    if n == 0 then None
    else if Lowest(entries, key, n - 1).Some? then Lowest(entries, key, n - 1)
    else if Bears(Titles(entries[n - 1]), key) then Some(n - 1) else None
  }

  /** With the first `n` entries and some titles of the next one handled. */
  ghost function Answer(entries: seq<Entry>, n: nat, titles: seq<string>, key: string): Option<nat>
    requires n <= |entries|
  {
    if Lowest(entries, key, n).Some? then Lowest(entries, key, n) else if Bears(titles, key) then Some(n) else None
  }

  function Pushed(names: seq<Row>, title: string, index: nat): seq<Row> {
    if Matchable(NormalizeName(title)) then names + [Row(NormalizeName(title), index)] else names
  }

  lemma PushAnswers(names: seq<Row>, entries: seq<Entry>, n: nat, titles: seq<string>, title: string, key: string)
    requires n <= |entries| && First(names, key) == Answer(entries, n, titles, key)
    ensures First(Pushed(names, title, n), key) == Answer(entries, n, titles + [title], key)
  {
    FirstNext(names, Row(NormalizeName(title), n), key);
    assert Bears(titles + [title], key) <==> Bears(titles, key) || (Matchable(key) && NormalizeName(title) == key) by {
      assert title in titles + [title];
    }
  }

  ghost predicate Answers(names: seq<Row>, entries: seq<Entry>, n: nat, titles: seq<string>)
    requires n <= |entries|
  {
    forall key :: First(names, key) == Answer(entries, n, titles, key)
  }

  method PushTitle(names: seq<Row>, title: string, index: nat, ghost entries: seq<Entry>, ghost titles: seq<string>)
    returns (more: seq<Row>)
    requires index <= |entries| && Answers(names, entries, index, titles)
    ensures Answers(more, entries, index, titles + [title])
  {
    var normalized := NormalizeName(title);
    more := if Matchable(normalized) then names + [Row(normalized, index)] else names;
    forall key ensures First(more, key) == Answer(entries, index, titles + [title], key) {
      PushAnswers(names, entries, index, titles, title, key);
    }
  }

  lemma EntryDone(names: seq<Row>, entries: seq<Entry>, i: nat)
    requires i < |entries| && Answers(names, entries, i, Titles(entries[i]))
    ensures Answers(names, entries, i + 1, [])
  {
  }

  /** Every key answers with the lowest entry bearing it. */
  method CollectNames(entries: seq<Entry>) returns (names: seq<Row>)
    ensures forall key :: First(names, key) == Lowest(entries, key, |entries|)
  {
    names := [];
    for i := 0 to |entries|
      invariant Answers(names, entries, i, [])
    {
      names := PushTitle(names, entries[i].name, i, entries, []);
      var aliases := entries[i].aliases;
      assert [] + [entries[i].name] == [entries[i].name] + aliases[..0];
      for j := 0 to |aliases|
        invariant Answers(names, entries, i, [entries[i].name] + aliases[..j])
      {
        names := PushTitle(names, aliases[j], i, entries, [entries[i].name] + aliases[..j]);
        assert ([entries[i].name] + aliases[..j]) + [aliases[j]] == [entries[i].name] + aliases[..j + 1];
      }
      assert [entries[i].name] + aliases[..|aliases|] == Titles(entries[i]);
      EntryDone(names, entries, i);
    }
  }

  // ---------------------------------------------------------------- its de-dotted twin

  predicate DottedAs(row: Row, key: string) { '.' in row.key && Dedot(row.key) == key }

  function Dotted(rows: seq<Row>): (r: seq<Row>)
    ensures forall row :: row in r <==> row in rows && '.' in row.key
  {
    if rows == [] then []
    else
      assert rows == [rows[0]] + rows[1..];
      (if '.' in rows[0].key then [rows[0]] else []) + Dotted(rows[1..])
  }

  function Dedotted(rows: seq<Row>): (r: seq<Row>)
    ensures |r| == |rows| && forall i :: 0 <= i < |rows| ==> r[i] == Row(Dedot(rows[i].key), rows[i].index)
  {
    seq(|rows|, i requires 0 <= i < |rows| => Row(Dedot(rows[i].key), rows[i].index))
  }

  predicate IndexLe(a: Row, b: Row) { a.index <= b.index }

  /** The lowest index among rows with a dotted key that de-dots to `key`. */
  ghost predicate IsLeastDotted(rows: seq<Row>, key: string, answer: Option<nat>) {
    match answer
    case Some(i) =>
      && (exists row :: row in rows && DottedAs(row, key) && row.index == i)
      && (forall row :: row in rows && DottedAs(row, key) ==> i <= row.index)
    case None => forall row :: row in rows ==> !DottedAs(row, key)
  }

  /** In a list ascending by index, the first hit is the lowest. */
  lemma {:induction false} FirstIsLowest(rows: seq<Row>, key: string)
    requires Ascends(IndexLe, rows)
    ensures match First(Dedotted(rows), key)
            case Some(i) =>
              && (exists row :: row in rows && Dedot(row.key) == key && row.index == i)
              && (forall row :: row in rows && Dedot(row.key) == key ==> i <= row.index)
            case None => forall row :: row in rows ==> Dedot(row.key) != key
  {
    if rows != [] {
      assert rows == [rows[0]] + rows[1..] && Dedotted(rows)[1..] == Dedotted(rows[1..]);
      if Dedot(rows[0].key) == key {
        assert rows[0] in rows;
        HeadIsLowest(rows);
      } else {
        FirstIsLowest(rows[1..], key);
        hide Dedot, Ascends;
        assert forall row :: row in rows && Dedot(row.key) == key ==> row in rows[1..];
      }
    }
  }

  lemma HeadIsLowest(rows: seq<Row>)
    requires rows != [] && Ascends(IndexLe, rows)
    ensures forall row :: row in rows ==> rows[0].index <= row.index
  {
    forall row | row in rows ensures rows[0].index <= row.index {
      var i :| 0 <= i < |rows| && rows[i] == row;
      if i > 0 { assert IndexLe(rows[0], rows[i]); }
    }
  }

  method UndottedNames(rows: seq<Row>) returns (twin: SortedIndex)
    ensures fresh(twin) && Strict(twin.entries)
    ensures forall key :: IsLeastDotted(rows, key, First(twin.entries, key))
  {
    var dotted := SortBy(IndexLe, Dotted(rows));
    SortAscends(IndexLe, Dotted(rows));
    SortKeeps(IndexLe, Dotted(rows));
    twin := new SortedIndex(Dedotted(dotted));
    forall key ensures IsLeastDotted(rows, key, First(twin.entries, key)) {
      FirstIsLowest(dotted, key);
    }
  }

  /** A title whose matchable, dotted key de-dots to `key`. */
  ghost predicate BearsDotted(titles: seq<string>, key: string) {
    exists t :: t in titles && DottedTitle(t, key)
  }

  predicate DottedTitle(title: string, key: string) {
    var normalized := NormalizeName(title);
    Matchable(normalized) && '.' in normalized && Dedot(normalized) == key
  }

  lemma TableRow(rows: seq<Row>, entries: seq<Entry>, row: Row)
    requires Strict(rows) && row in rows
    requires forall key :: First(rows, key) == Lowest(entries, key, |entries|)
    ensures Lowest(entries, row.key, |entries|) == Some(row.index)
  {
    var i :| 0 <= i < |rows| && rows[i] == row;
    OnlyOne(rows, i);
  }

  lemma {:induction false} RowOf(rows: seq<Row>, key: string)
    requires First(rows, key).Some?
    ensures Row(key, First(rows, key).value) in rows
  {
    assert rows == [rows[0]] + rows[1..];
    if rows[0].key != key { RowOf(rows[1..], key); } else { assert rows[0] == Row(key, rows[0].index); }
  }

  /**
   The twin, too, answers with the lowest entry: the lowest one with a title whose dotted key de-dots to
   the looked-up key, which is the title's own lookup-side form.
   */
  lemma TwinAnswersLowest(entries: seq<Entry>, rows: seq<Row>, key: string, answer: Option<nat>)
    requires Strict(rows) && forall k :: First(rows, k) == Lowest(entries, k, |entries|)
    requires IsLeastDotted(rows, key, answer)
    ensures answer.Some? ==> answer.value < |entries| && BearsDotted(Titles(entries[answer.value]), key)
    ensures forall j :: 0 <= j < |entries| && BearsDotted(Titles(entries[j]), key) ==> answer.Some? && answer.value <= j
    ensures forall t :: DottedTitle(t, key) ==> key == Squeezed(Lower(t), DotSeparator)
  {
    if answer.Some? {
      var row :| row in rows && DottedAs(row, key) && row.index == answer.value;
      TableRow(rows, entries, row);
      var t :| t in Titles(entries[row.index]) && NormalizeName(t) == row.key;
      assert DottedTitle(t, key);
    }
    forall j | 0 <= j < |entries| && BearsDotted(Titles(entries[j]), key) ensures answer.Some? && answer.value <= j {
      var t :| t in Titles(entries[j]) && DottedTitle(t, key);
      EntryHasRow(entries, rows, j, t, key);
    }
    forall t | DottedTitle(t, key) ensures key == Squeezed(Lower(t), DotSeparator) {
      DedotCommutes(t);
    }
  }

  lemma EntryHasRow(entries: seq<Entry>, rows: seq<Row>, j: nat, t: string, key: string)
    requires forall k :: First(rows, k) == Lowest(entries, k, |entries|)
    requires j < |entries| && t in Titles(entries[j]) && DottedTitle(t, key)
    ensures exists row :: row in rows && DottedAs(row, key) && row.index <= j
  {
    var k := NormalizeName(t);
    assert Bears(Titles(entries[j]), k);
    assert First(rows, k) == Lowest(entries, k, |entries|);
    RowOf(rows, k);
    assert DottedAs(Row(k, First(rows, k).value), key);
  }
}
