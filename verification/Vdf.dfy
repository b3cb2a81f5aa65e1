/** Valve's key-value text format: a capped tokenizer, a parser with an explicit stack, and a canonical printer. */
module Vdf {
  import opened Presence
  import Text

  const MAX_TOKEN_LEN: nat := 64 * 1024
  const MAX_VDF_TOKENS: nat := 200_000
  const MAX_DEPTH: nat := 64

  datatype Vdf = Str(text: string) | Map(entries: map<string, Vdf>)

  type Doc = map<string, Vdf>

  // ---------------------------------------------------------------- tokens

  /** Bytes of a character in UTF-8. */
  function Width(c: char): (w: nat)
    ensures 1 <= w <= 4
  {
    if c < '\U{80}' then 1 else if c < '\U{800}' then 2 else if c < '\U{10000}' then 3 else 4
  }

  function ByteLen(s: string): nat {
    if s == [] then 0 else ByteLen(s[..|s| - 1]) + Width(s[|s| - 1])
  }

  /** Where a quoted run ended, and whether it did. */
  datatype Lexed = Lexed(closed: bool, text: string, rest: string)

  /** Inside quotes: escapes are kept as they are; past the length cap characters are swallowed. */
  function Quoted(rest: string, text: string, overlong: bool): (l: Lexed)
    ensures |l.rest| <= |rest|
    decreases |rest|
  {
    if rest == [] then Lexed(false, text, [])
    else if rest[0] == '"' then Lexed(true, text, rest[1..])
    else if rest[0] == '\\' then
      if |rest| == 1 then Lexed(false, text, [])
      else Quoted(rest[2..], if overlong then text else text + [rest[1]], overlong)
    else if overlong || ByteLen(text) >= MAX_TOKEN_LEN then Quoted(rest[1..], text, true)
    else Quoted(rest[1..], text + [rest[0]], false)
  }

  function Tokens(rest: string, tokens: seq<string>): seq<string>
    decreases |rest|
  {
    if rest == [] || |tokens| >= MAX_VDF_TOKENS then tokens
    else match rest[0]
      case '"' =>
        var l := Quoted(rest[1..], [], false);
        Tokens(l.rest, if l.closed then tokens + [l.text] else tokens)
      case '{' => Tokens(rest[1..], tokens + ["{"])
      case '}' => Tokens(rest[1..], tokens + ["}"])
      case _ => Tokens(rest[1..], tokens)
  }

  method ReadQuoted(input: string) returns (closed: bool, text: string, rest: string)
    ensures Lexed(closed, text, rest) == Quoted(input, [], false)
  {
    closed, text, rest := false, [], input;
    var overlong := false;
    while rest != []
      invariant !closed && Quoted(input, [], false) == Quoted(rest, text, overlong)
      decreases |rest|
    {
      var c := rest[0];
      if c == '"' {
        closed, rest := true, rest[1..];
        return;
      } else if c == '\\' {
        if |rest| == 1 {
          rest := [];
          return;
        }
        if !overlong { text := text + [rest[1]]; }
        rest := rest[2..];
      } else {
        rest := rest[1..];
        if overlong { continue; }
        if ByteLen(text) >= MAX_TOKEN_LEN {
          overlong := true;
          continue;
        }
        text := text + [c];
      }
    }
  }

  method Tokenize(input: string) returns (tokens: seq<string>)
    ensures tokens == Tokens(input, [])
  {
    tokens := [];
    var rest := input;
    while rest != []
      invariant Tokens(input, []) == Tokens(rest, tokens)
      decreases |rest|
    {
      if |tokens| >= MAX_VDF_TOKENS { break; }
      var c := rest[0];
      match c {
        case '"' =>
          var closed, text, after := ReadQuoted(rest[1..]);
          rest := after;
          if closed { tokens := tokens + [text]; }
        case '{' => tokens, rest := tokens + ["{"], rest[1..];
        case '}' => tokens, rest := tokens + ["}"], rest[1..];
        case _ => rest := rest[1..];
      }
    }
  }

  // ---------------------------------------------------------------- the recursive parser, the reference

  /** A block's map, the key still waiting for its value, and what follows the block. */
  datatype Parsed = Parsed(doc: Doc, pending: Option<string>, rest: seq<string>)

  /** A waiting key outlives the block it was read in. Nesting past the cap, or a stray `}`, ends everything. */
  function Parse(rest: seq<string>, depth: nat, pending: Option<string>, doc: Doc): (p: Parsed)
    ensures |p.rest| <= |rest| && (rest != [] ==> |p.rest| < |rest|)
    decreases |rest|
  {
    if rest == [] then Parsed(doc, pending, [])
    else if rest[0] == "}" then Parsed(doc, pending, if depth == 0 then [] else rest[1..])
    else if rest[0] == "{" then
      if pending.None? then Parse(rest[1..], depth, None, doc)
      else if depth >= MAX_DEPTH then Parsed(doc, None, [])
      else
        var inner := Parse(rest[1..], depth + 1, None, map[]);
        Parse(inner.rest, depth, inner.pending, doc[pending.value := Map(inner.doc)])
    else if pending.Some? then Parse(rest[1..], depth, None, doc[pending.value := Str(rest[0])])
    else Parse(rest[1..], depth, Some(rest[0]), doc)
  }

  function ParseAll(tokens: seq<string>): Doc { Parse(tokens, 0, None, map[]).doc }

  // ---------------------------------------------------------------- the iterative parser

  /** An enclosing block and the key its child will have. */
  datatype Open = Open(parent: Doc, key: string)

  /** Parse the innermost open block to its end, then go on in the enclosing one. */
  function Finish(stack: seq<Open>, doc: Doc, pending: Option<string>, rest: seq<string>): Doc
    decreases |stack|
  {
    var p := Parse(rest, |stack|, pending, doc);
    if stack == [] then p.doc
    else
      var top := stack[|stack| - 1];
      Finish(stack[..|stack| - 1], top.parent[top.key := Map(p.doc)], p.pending, p.rest)
  }

  /** Close every open block. */
  function FoldUp(stack: seq<Open>, doc: Doc): Doc
    decreases |stack|
  {
    if stack == [] then doc
    else
      var top := stack[|stack| - 1];
      FoldUp(stack[..|stack| - 1], top.parent[top.key := Map(doc)])
  }

  lemma {:induction false} NothingLeft(stack: seq<Open>, doc: Doc, pending: Option<string>)
    ensures Finish(stack, doc, pending, []) == FoldUp(stack, doc)
    decreases |stack|
  {
    if stack != [] {
      var top := stack[|stack| - 1];
      NothingLeft(stack[..|stack| - 1], top.parent[top.key := Map(doc)], pending);
    }
  }

  lemma PushOpens(stack: seq<Open>, doc: Doc, key: string, rest: seq<string>)
    requires rest != [] && rest[0] == "{" && |stack| < MAX_DEPTH
    ensures Finish(stack + [Open(doc, key)], map[], None, rest[1..]) == Finish(stack, doc, Some(key), rest)
  {
    assert (stack + [Open(doc, key)])[..|stack|] == stack;
  }

  lemma TooDeep(stack: seq<Open>, doc: Doc, key: string, rest: seq<string>)
    requires rest != [] && rest[0] == "{" && |stack| >= MAX_DEPTH
    ensures Finish(stack, doc, Some(key), rest) == FoldUp(stack, doc)
  {
    var top := stack[|stack| - 1];
    NothingLeft(stack[..|stack| - 1], top.parent[top.key := Map(doc)], None);
  }

  /** The explicit stack computes what the recursive parser computes, on every token sequence. */
  method ParseVdf(tokens: seq<string>) returns (doc: Doc)
    ensures doc == ParseAll(tokens)
  {
    doc := map[];
    var stack: seq<Open> := [];
    var pending: Option<string> := None;
    for i := 0 to |tokens|
      invariant ParseAll(tokens) == Finish(stack, doc, pending, tokens[i..])
    {
      assert tokens[i..][0] == tokens[i] && tokens[i..][1..] == tokens[i + 1..];
      var token := tokens[i];
      if token == "}" {
        if stack == [] {
          return;
        }
        var top := stack[|stack| - 1];
        stack, doc := stack[..|stack| - 1], top.parent[top.key := Map(doc)];
      } else if token == "{" {
        if pending.Some? {
          var key := pending.value;
          pending := None;
          if |stack| >= MAX_DEPTH {
            TooDeep(stack, doc, key, tokens[i..]);
            doc := CloseAll(stack, doc);
            return;
          }
          PushOpens(stack, doc, key, tokens[i..]);
          stack, doc := stack + [Open(doc, key)], map[];
        }
      } else if pending.Some? {
        doc, pending := doc[pending.value := Str(token)], None;
      } else {
        pending := Some(token);
      }
    }
    assert tokens[|tokens|..] == [];
    NothingLeft(stack, doc, pending);
    doc := CloseAll(stack, doc);
  }

  method CloseAll(open: seq<Open>, inner: Doc) returns (doc: Doc)
    ensures doc == FoldUp(open, inner)
  {
    doc := inner;
    var stack := open;
    while stack != []
      invariant FoldUp(open, inner) == FoldUp(stack, doc)
      decreases |stack|
    {
      var top := stack[|stack| - 1];
      stack, doc := stack[..|stack| - 1], top.parent[top.key := Map(doc)];
    }
  }

  method ParseVdfStr(input: string) returns (doc: Doc)
    ensures doc == ParseAll(Tokens(input, []))
  {
    var tokens := Tokenize(input);
    TokensAreCapped(input, []);
    if |tokens| > MAX_VDF_TOKENS { return map[]; }
    doc := ParseVdf(tokens);
  }

  lemma {:induction false} TokensAreCapped(rest: string, tokens: seq<string>)
    requires |tokens| <= MAX_VDF_TOKENS
    ensures |Tokens(rest, tokens)| <= MAX_VDF_TOKENS
    decreases |rest|
  {
    if rest != [] && |tokens| < MAX_VDF_TOKENS {
      match rest[0]
      case '"' =>
        var l := Quoted(rest[1..], [], false);
        TokensAreCapped(l.rest, if l.closed then tokens + [l.text] else tokens);
      case '{' => TokensAreCapped(rest[1..], tokens + ["{"]);
      case '}' => TokensAreCapped(rest[1..], tokens + ["}"]);
      case _ => TokensAreCapped(rest[1..], tokens);
    }
  }

  // ---------------------------------------------------------------- the printer

  /** A document in a definite order. */
  datatype Field = Field(key: string, node: Node)
  datatype Node = Leaf(text: string) | Block(fields: seq<Field>)

  function Escape(s: string): string {
    if s == [] then []
    else EscapedChar(s[0]) + Escape(s[1..])
  }

  function EscapedChar(c: char): string {
    if c == '"' || c == '\\' then ['\\', c] else [c]
  }

  function Quote(s: string): string { "\"" + Escape(s) + "\"" }

  function PrintNode(node: Node): string
    decreases node, 1
  {
    match node
    case Leaf(text) => Quote(text)
    case Block(fields) => "{" + Print(fields) + "}"
  }

  function Print(fields: seq<Field>): string
    decreases fields, 0
  {
    if fields == [] then [] else (Quote(fields[0].key) + (" " + PrintNode(fields[0].node))) + Print(fields[1..])
  }

  function NodeTokens(node: Node): seq<string>
    decreases node, 1
  {
    match node
    case Leaf(text) => [text]
    case Block(fields) => ["{"] + TokensOf(fields) + ["}"]
  }

  function TokensOf(fields: seq<Field>): seq<string>
    decreases fields, 0
  {
    if fields == [] then [] else ([fields[0].key] + NodeTokens(fields[0].node)) + TokensOf(fields[1..])
  }

  /** The document as nested maps; of equal keys in a block the last one stays. */
  function NodeOf(node: Node): Vdf
    decreases node, 1
  {
    match node
    case Leaf(text) => Str(text)
    case Block(fields) => Map(Filled(map[], fields))
  }

  function Filled(doc: Doc, fields: seq<Field>): Doc
    decreases fields, 0
  {
    if fields == [] then doc else Filled(doc[fields[0].key := NodeOf(fields[0].node)], fields[1..])
  }

  function NodeHeight(node: Node): nat
    decreases node, 1
  {
    match node
    case Leaf(_) => 0
    case Block(fields) => 1 + Height(fields)
  }

  /** Deepest nesting of blocks. */
  function Height(fields: seq<Field>): nat
    decreases fields, 0
  {
    if fields == [] then 0
    else
      var first, others := NodeHeight(fields[0].node), Height(fields[1..]);
      if first >= others then first else others
  }

  /** No string is a bare brace or longer than the cap. */
  predicate CleanText(s: string) { s != "{" && s != "}" && ByteLen(s) <= MAX_TOKEN_LEN }

  predicate CleanNode(node: Node)
    decreases node, 1
  {
    match node
    case Leaf(text) => CleanText(text)
    case Block(fields) => Clean(fields)
  }

  predicate Clean(fields: seq<Field>)
    decreases fields, 0
  {
    fields != [] ==> CleanText(fields[0].key) && CleanNode(fields[0].node) && Clean(fields[1..])
  }

  // ---------------------------------------------------------------- tokens parse back

  lemma {:induction false} NodeParses(node: Node, rest: seq<string>, depth: nat, key: string, doc: Doc)
    requires CleanNode(node) && depth + NodeHeight(node) <= MAX_DEPTH
    ensures Parse(NodeTokens(node) + rest, depth, Some(key), doc) == Parse(rest, depth, None, doc[key := NodeOf(node)])
    decreases node, 1
  {
    match node
    case Leaf(text) =>
      assert ([text] + rest)[1..] == rest;
    case Block(fields) =>
      var tail := ["}"] + rest;
      assert NodeTokens(node) + rest == ["{"] + (TokensOf(fields) + tail);
      assert (["{"] + (TokensOf(fields) + tail))[1..] == TokensOf(fields) + tail;
      FieldsParse(fields, tail, depth + 1, map[]);
      assert tail[1..] == rest;
  }

  lemma {:induction false} FieldsParse(fields: seq<Field>, rest: seq<string>, depth: nat, doc: Doc)
    requires Clean(fields) && depth + Height(fields) <= MAX_DEPTH
    ensures Parse(TokensOf(fields) + rest, depth, None, doc) == Parse(rest, depth, None, Filled(doc, fields))
    decreases fields, 0
  {
    if fields == [] {
      assert TokensOf(fields) + rest == rest;
    } else {
      var f, tail := fields[0], TokensOf(fields[1..]) + rest;
      assert TokensOf(fields) + rest == [f.key] + (NodeTokens(f.node) + tail);
      assert ([f.key] + (NodeTokens(f.node) + tail))[1..] == NodeTokens(f.node) + tail;
      NodeParses(f.node, tail, depth, f.key, doc);
      FieldsParse(fields[1..], rest, depth, doc[f.key := NodeOf(f.node)]);
    }
  }

  // ---------------------------------------------------------------- text tokenizes back

  lemma ByteLenNext(s: string, c: char)
    ensures ByteLen(s + [c]) == ByteLen(s) + Width(c)
  {
    assert (s + [c])[..|s|] == s;
  }

  lemma {:induction false} ByteLenJoins(a: string, b: string)
    ensures ByteLen(a + b) == ByteLen(a) + ByteLen(b)
    decreases |b|
  {
    if b == [] {
      assert a + b == a;
    } else {
      var n := |b| - 1;
      ByteLenJoins(a, b[..n]);
      assert a + b == (a + b[..n]) + [b[n]];
      ByteLenNext(a + b[..n], b[n]);
    }
  }

  /** Reading an escaped string back, from behind its opening quote. */
  lemma {:induction false} QuoteReads(s: string, text: string, rest: string)
    requires ByteLen(text) + ByteLen(s) <= MAX_TOKEN_LEN
    ensures Quoted(Escape(s) + ("\"" + rest), text, false) == Lexed(true, text + s, rest)
    decreases |s|
  {
    var tail := "\"" + rest;
    if s == [] {
      assert Escape(s) + tail == tail && tail[1..] == rest && text + s == text;
    } else {
      var c := s[0];
      ByteLenJoins([c], s[1..]);
      assert [c] + s[1..] == s && ByteLen([c]) == Width(c);
      ByteLenNext(text, c);
      QuotedNext(s, text, tail);
      hide Quoted, Escape, ByteLen;
      Text.Regroup(text, [c], s[1..]);
      QuoteReads(s[1..], text + [c], rest);
    }
  }

  /** Reading one escaped character. */
  lemma QuotedNext(s: string, text: string, tail: string)
    requires s != [] && ByteLen(text) + Width(s[0]) <= MAX_TOKEN_LEN
    ensures Quoted(Escape(s) + tail, text, false) == Quoted(Escape(s[1..]) + tail, text + [s[0]], false)
  {
    EscapedHead(s, tail);
    hide Escape;
    var all := Escape(s) + tail;
    if s[0] == '"' || s[0] == '\\' {
      assert all[1..][1..] == all[2..];
    }
  }

  lemma EscapedHead(s: string, tail: string)
    requires s != []
    ensures var all := Escape(s) + tail;
            if s[0] == '"' || s[0] == '\\'
            then |all| >= 2 && all[0] == '\\' && all[1] == s[0] && all[2..] == Escape(s[1..]) + tail
            else |all| >= 1 && all[0] == s[0] && all[1..] == Escape(s[1..]) + tail
  {
    var head, others := EscapedChar(s[0]), Escape(s[1..]) + tail;
    Text.Regroup(head, Escape(s[1..]), tail);
    Behind(head, others);
  }

  lemma Behind(head: string, others: string)
    ensures (head + others)[|head|..] == others && (head + others)[..|head|] == head
  {
  }

  lemma QuoteTokenizes(s: string, rest: string, tokens: seq<string>)
    requires ByteLen(s) <= MAX_TOKEN_LEN && |tokens| < MAX_VDF_TOKENS
    ensures Tokens(Quote(s) + rest, tokens) == Tokens(rest, tokens + [s])
  {
    var all := Quote(s) + rest;
    assert all[0] == '"' && all[1..] == Escape(s) + ("\"" + rest);
    QuoteReads(s, [], rest);
    assert [] + s == s;
  }

  lemma CharTokenizes(c: char, rest: string, tokens: seq<string>)
    requires c in ['{', '}', ' '] && |tokens| < MAX_VDF_TOKENS
    ensures Tokens([c] + rest, tokens) == Tokens(rest, if c == ' ' then tokens else tokens + [[c]])
  {
    assert ([c] + rest)[1..] == rest;
  }

  lemma SpaceTokenizes(rest: string, tokens: seq<string>)
    ensures Tokens(" " + rest, tokens) == Tokens(rest, tokens)
  {
    assert (" " + rest)[1..] == rest;
  }

  lemma {:induction false} NodeTokenizes(node: Node, rest: string, tokens: seq<string>)
    requires CleanNode(node) && |tokens| + |NodeTokens(node)| <= MAX_VDF_TOKENS
    ensures Tokens(PrintNode(node) + rest, tokens) == Tokens(rest, tokens + NodeTokens(node))
    decreases node, 1
  {
    match node
    case Leaf(text) => QuoteTokenizes(text, rest, tokens);
    case Block(fields) =>
      var tail, begun := "}" + rest, tokens + ["{"];
      assert PrintNode(node) + rest == "{" + (Print(fields) + tail);
      CharTokenizes('{', Print(fields) + tail, tokens);
      FieldsTokenize(fields, tail, begun);
      CharTokenizes('}', rest, begun + TokensOf(fields));
      assert (begun + TokensOf(fields)) + ["}"] == tokens + NodeTokens(node);
  }

  lemma {:induction false} FieldsTokenize(fields: seq<Field>, rest: string, tokens: seq<string>)
    requires Clean(fields) && |tokens| + |TokensOf(fields)| <= MAX_VDF_TOKENS
    ensures Tokens(Print(fields) + rest, tokens) == Tokens(rest, tokens + TokensOf(fields))
    decreases fields, 0
  {
    if fields == [] {
      assert Print(fields) + rest == rest && tokens + TokensOf(fields) == tokens;
    } else {
      var f, tail := fields[0], Print(fields[1..]) + rest;
      PrintedFirst(Quote(f.key), PrintNode(f.node), Print(fields[1..]), rest);
      QuoteTokenizes(f.key, " " + (PrintNode(f.node) + tail), tokens);
      SpaceTokenizes(PrintNode(f.node) + tail, tokens + [f.key]);
      NodeTokenizes(f.node, tail, tokens + [f.key]);
      FieldsTokenize(fields[1..], rest, (tokens + [f.key]) + NodeTokens(f.node));
      TokensFirst(tokens, f.key, NodeTokens(f.node), TokensOf(fields[1..]));
    }
  }

  lemma PrintedFirst(key: string, node: string, others: string, rest: string)
    ensures ((key + (" " + node)) + others) + rest == key + (" " + (node + (others + rest)))
  {
  }

  lemma TokensFirst(tokens: seq<string>, key: string, node: seq<string>, others: seq<string>)
    ensures ((tokens + [key]) + node) + others == tokens + (([key] + node) + others)
  {
  }

  /**
   Parsing inverts printing, for every document without bare-brace strings, nested at most 64 deep, within
   the token caps.
   */
  lemma ParseInvertsPrint(fields: seq<Field>)
    requires Clean(fields) && Height(fields) <= MAX_DEPTH && |TokensOf(fields)| <= MAX_VDF_TOKENS
    ensures ParseAll(Tokens(Print(fields), [])) == Filled(map[], fields)
  {
    FieldsTokenize(fields, [], []);
    assert Print(fields) + [] == Print(fields) && [] + TokensOf(fields) == TokensOf(fields);
    FieldsParse(fields, [], 0, map[]);
    assert TokensOf(fields) + [] == TokensOf(fields);
  }

  /** A bare brace in a value is not told from structure: the entry becomes a map, not the string. */
  lemma BareBraceMisparses(key: string)
    requires CleanText(key)
    ensures ParseAll(TokensOf([Field(key, Leaf("{"))])) == map[key := Map(map[])]
    ensures Filled(map[], [Field(key, Leaf("{"))]) == map[key := Str("{")]
  {
    var f := Field(key, Leaf("{"));
    assert [f][1..] == [];
    assert TokensOf([f]) == [key, "{"];
    assert [key, "{"][1..] == ["{"] && ["{"][1..] == [];
    assert Parse(["{"], 0, Some(key), map[]).doc == map[key := Map(map[])];
  }
}
