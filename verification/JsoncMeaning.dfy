/**
  What stripping means: a text that reads as a JSON value with comments and trailing commas
  becomes a text that reads as the same value in plain JSON (sections 2 and 7 of RFC 8259).
  Texts are compared by the tokens a reader takes from them.
 */
module JsoncMeaning {
  import opened Jsonc

  /** A literal is the text of a string with its quotes; an atom is a number, `true`, `false` or `null`. */
  datatype Token = Punct(c: char) | Literal(text: string) | Atom(text: string)

  predicate IsPunct(c: char) { c in "{}[],:" }

  predicate AtomChar(c: char) { !IsWhite(c) && !IsPunct(c) && c != '"' }

  predicate StartsAtom(s: string) { s != "" && AtomChar(s[0]) }

  // ---------- A reader of JSON, with or without comments ----------

  /** The length of the rest of a string literal, its closing quote included. */
  function StringEnd(s: string, escaped: bool): (n: nat)
    ensures n <= |s|
  {
    if s == "" then 0
    else if !escaped && s[0] == '"' then 1
    else 1 + StringEnd(s[1..], !escaped && s[0] == '\\')
  }

  function LineEnd(s: string): (n: nat)
    ensures n <= |s|
  {
    if s == "" || s[0] == '\n' then 0 else 1 + LineEnd(s[1..])
  }

  function BlockEnd(s: string): (n: nat)
    ensures n <= |s|
  {
    if |s| < 2 then |s| else if s[0] == '*' && s[1] == '/' then 2 else 1 + BlockEnd(s[1..])
  }

  function AtomEnd(comments: bool, s: string): (n: nat)
    ensures n <= |s|
  {
    if !StartsAtom(s) || (comments && Opens(s)) then 0 else 1 + AtomEnd(comments, s[1..])
  }

  function Lex(comments: bool, s: string): seq<Token>
    decreases |s|
  {
    if s == "" then []
    else if IsWhite(s[0]) then Lex(comments, s[1..])
    else if IsPunct(s[0]) then [Punct(s[0])] + Lex(comments, s[1..])
    else if s[0] == '"' then
      var n := 1 + StringEnd(s[1..], false);
      [Literal(s[..n])] + Lex(comments, s[n..])
    else if comments && Opens(s) then
      Lex(comments, s[if s[1] == '/' then 2 + LineEnd(s[2..]) else 2 + BlockEnd(s[2..])..])
    else
      var n := AtomEnd(comments, s);
      [Atom(s[..n])] + Lex(comments, s[n..])
  }

  // ---------- What the passes do to one token ----------

  /** Taking the first character off a prefix. */
  lemma Peel(s: string, n: nat, rest: string)
    requires 0 < n <= |s|
    ensures [s[0]] + (s[1..][..n - 1] + rest) == s[..n] + rest
    ensures s[1..][n - 1..] == s[n..]
    ensures (s[..n] + rest)[1..] == s[1..][..n - 1] + rest
  {
  }

  lemma {:induction false} StringCopied(s: string, escaped: bool)
    ensures var n := StringEnd(s, escaped);
            && Str(s, escaped) == s[..n] + Code(s[n..])
            && Commas(true, escaped, s) == s[..n] + Commas(false, false, s[n..])
  {
    var n := StringEnd(s, escaped);
    if s == "" {
    } else if !escaped && s[0] == '"' {
      assert s[..1] == "\"";
    } else {
      var escaped' := !escaped && s[0] == '\\';
      StringCopied(s[1..], escaped');
      Peel(s, n, Code(s[n..]));
      Peel(s, n, Commas(false, false, s[n..]));
    }
  }

  lemma {:induction false} StringReread(s: string, escaped: bool, rest: string)
    requires StringEnd(s, escaped) == |s| ==> rest == ""
    ensures var n := StringEnd(s, escaped);
            StringEnd(s[..n] + rest, escaped) == n
  {
    var n := StringEnd(s, escaped);
    if s == "" {
    } else if !escaped && s[0] == '"' {
    } else {
      StringReread(s[1..], !escaped && s[0] == '\\', rest);
      Peel(s, n, rest);
    }
  }

  lemma {:induction false} AtomCopied(s: string)
    ensures var n := AtomEnd(true, s); Code(s) == s[..n] + Code(s[n..])
  {
    var n := AtomEnd(true, s);
    if n == 0 {
      assert s[..0] + Code(s[0..]) == Code(s);
    } else {
      AtomCopied(s[1..]);
      Peel(s, n, Code(s[n..]));
    }
  }

  lemma {:induction false} AtomKeepsCommas(s: string)
    ensures var n := AtomEnd(false, s); Commas(false, false, s) == s[..n] + Commas(false, false, s[n..])
  {
    var n := AtomEnd(false, s);
    if n == 0 {
      assert s[..0] + Commas(false, false, s[0..]) == Commas(false, false, s);
    } else {
      AtomKeepsCommas(s[1..]);
      Peel(s, n, Commas(false, false, s[n..]));
    }
  }

  lemma {:induction false} AtomReread(comments: bool, s: string, rest: string)
    requires !StartsAtom(rest)
    ensures var n := AtomEnd(comments, s);
            && AtomEnd(false, s[..n] + rest) == n
            && !(StartsAtom(s[n..]) && !(comments && Opens(s[n..])))
  {
    var n := AtomEnd(comments, s);
    if n == 0 {
      assert s[..0] + rest == rest;
    } else {
      AtomReread(comments, s[1..], rest);
      Peel(s, n, rest);
    }
  }

  /** A literal in front of other text is read back whole. */
  lemma LiteralRead(s: string, n: nat, rest: string)
    requires s != "" && s[0] == '"' && n == 1 + StringEnd(s[1..], false)
    requires n == |s| ==> rest == ""
    ensures Lex(false, s[..n] + rest) == [Literal(s[..n])] + Lex(false, rest)
  {
    var t := s[..n] + rest;
    StringReread(s[1..], false, rest);
    Peel(s, n, rest);
    assert t[0] == '"' && StringEnd(t[1..], false) == n - 1;
    assert t[..n] == s[..n] && t[n..] == rest;
  }

  lemma AtomRead(comments: bool, s: string, n: nat, rest: string)
    requires n == AtomEnd(comments, s) > 0 && !StartsAtom(rest)
    ensures Lex(false, s[..n] + rest) == [Atom(s[..n])] + Lex(false, rest)
  {
    var t := s[..n] + rest;
    AtomReread(comments, s, rest);
    assert t[..n] == s[..n] && t[n..] == rest;
  }

  /** The first token of a text, and what follows it. */
  lemma FirstLiteral(comments: bool, s: string, n: nat)
    requires s != "" && s[0] == '"' && n == 1 + StringEnd(s[1..], false)
    ensures Lex(comments, s)[0] == Literal(s[..n]) && Lex(comments, s)[1..] == Lex(comments, s[n..])
    ensures s[1..][n - 1..] == s[n..]
  {
    var ts := Lex(comments, s[n..]);
    assert ([Literal(s[..n])] + ts)[1..] == ts;
  }

  lemma {:induction false} LineDropped(s: string)
    ensures LineComment(s) == Code(s[LineEnd(s)..])
  {
    if s != "" && s[0] != '\n' {
      LineDropped(s[1..]);
      assert s[LineEnd(s)..] == s[1..][LineEnd(s) - 1..];
    } else {
      assert s[0..] == s;
    }
  }

  /** What is left of a block comment, its newlines, is white space. */
  lemma {:induction false} BlockDropped(s: string)
    ensures var rest := Code(s[BlockEnd(s)..]);
            && Lex(false, BlockComment(s)) == Lex(false, rest)
            && (StartsAtom(BlockComment(s)) ==> StartsAtom(rest))
  {
    if |s| < 2 {
      assert s[|s|..] == "";
    } else if s[0] == '*' && s[1] == '/' {
    } else {
      BlockDropped(s[1..]);
      assert s[BlockEnd(s)..] == s[1..][BlockEnd(s) - 1..];
      if s[0] == '\n' {
        assert ("\n" + BlockComment(s[1..]))[1..] == BlockComment(s[1..]);
      } else {
        assert "" + BlockComment(s[1..]) == BlockComment(s[1..]);
      }
    }
  }

  /** Where the text goes on after a comment. */
  function AfterComment(s: string): string
    requires Opens(s)
  {
    s[if s[1] == '/' then 2 + LineEnd(s[2..]) else 2 + BlockEnd(s[2..])..]
  }

  lemma CommentDropped(s: string)
    requires Opens(s)
    ensures var rest := Code(AfterComment(s));
            && Lex(false, Code(s)) == Lex(false, rest)
            && (StartsAtom(Code(s)) ==> StartsAtom(rest))
  {
    if s[1] == '/' {
      LineDropped(s[2..]);
      assert s[1..][1..] == s[2..];
      assert LineComment(s) == LineComment(s[1..]) == LineComment(s[2..]);
      assert AfterComment(s) == s[2..][LineEnd(s[2..])..];
    } else {
      BlockDropped(s[2..]);
      assert AfterComment(s) == s[2..][BlockEnd(s[2..])..];
    }
  }

  // ---------- The comment pass ----------

  /** No two atoms in a row; true of the tokens of every JSON value. */
  predicate Separate(ts: seq<Token>)
  {
    |ts| > 1 ==> !(ts[0].Atom? && ts[1].Atom?) && Separate(ts[1..])
  }

  predicate AtomFirst(ts: seq<Token>) { ts != [] && ts[0].Atom? }

  lemma {:induction false} CodeHead(s: string)
    requires !AtomFirst(Lex(true, s))
    ensures !StartsAtom(Code(s))
    decreases |s|
  {
    if s != "" && Opens(s) {
      CommentDropped(s);
      CodeHead(AfterComment(s));
    }
  }

  /** Reading the text without its comments gives the tokens read around them. */
  lemma {:induction false} LexCode(s: string)
    requires Separate(Lex(true, s))
    ensures Lex(false, Code(s)) == Lex(true, s)
    decreases |s|, 1
  {
    if s == "" {
    } else if IsWhite(s[0]) || IsPunct(s[0]) {
      LexCode(s[1..]);
      assert Code(s)[1..] == Code(s[1..]);
    } else if s[0] == '"' {
      LexCodeString(s);
    } else if Opens(s) {
      CommentDropped(s);
      LexCode(AfterComment(s));
    } else {
      var n := AtomEnd(true, s);
      assert Lex(true, s)[1..] == Lex(true, s[n..]);
      LexCode(s[n..]);
      CodeHead(s[n..]);
      AtomCopied(s);
      AtomRead(true, s, n, Code(s[n..]));
    }
  }

  lemma LexCodeString(s: string)
    requires s != "" && s[0] == '"' && Separate(Lex(true, s))
    ensures Lex(false, Code(s)) == Lex(true, s)
    decreases |s|, 0
  {
    var n := 1 + StringEnd(s[1..], false);
    FirstLiteral(true, s, n);
    StringCopied(s[1..], false);
    Peel(s, n, Code(s[n..]));
    LexCode(s[n..]);
    LiteralRead(s, n, Code(s[n..]));
  }

  // ---------- The comma pass ----------

  predicate Closer(t: Token) { t == Punct('}') || t == Punct(']') }

  function DropTrailing(ts: seq<Token>): seq<Token>
  {
    if ts == [] then []
    else if ts[0] == Punct(',') && |ts| > 1 && Closer(ts[1]) then DropTrailing(ts[1..])
    else [ts[0]] + DropTrailing(ts[1..])
  }

  lemma {:induction false} ClosesNextReads(s: string)
    ensures ClosesNext(s) <==> Lex(false, s) != [] && Closer(Lex(false, s)[0])
    ensures ClosesNext(s) ==> !StartsAtom(s)
  {
    if s != "" && IsWhite(s[0]) {
      ClosesNextReads(s[1..]);
    }
  }

  lemma {:induction false} CommasHead(s: string)
    requires !StartsAtom(s)
    ensures !StartsAtom(Commas(false, false, s))
    decreases |s|
  {
    if s != "" && s[0] == ',' && ClosesNext(s[1..]) {
      ClosesNextReads(s[1..]);
      CommasHead(s[1..]);
    }
  }

  /** On every text, the comma pass removes exactly the commas in front of a closing bracket. */
  lemma {:induction false} LexCommas(s: string)
    ensures Lex(false, Commas(false, false, s)) == DropTrailing(Lex(false, s))
    decreases |s|, 1
  {
    if s == "" {
    } else if IsWhite(s[0]) {
      LexCommas(s[1..]);
      assert ([s[0]] + Commas(false, false, s[1..]))[1..] == Commas(false, false, s[1..]);
    } else if IsPunct(s[0]) {
      var ts := Lex(false, s[1..]);
      LexCommas(s[1..]);
      ClosesNextReads(s[1..]);
      assert ([s[0]] + Commas(false, false, s[1..]))[1..] == Commas(false, false, s[1..]);
      assert ([Punct(s[0])] + ts)[1..] == ts;
    } else if s[0] == '"' {
      LexCommasString(s);
    } else {
      LexCommasAtom(s);
    }
  }

  lemma LexCommasString(s: string)
    requires s != "" && s[0] == '"'
    ensures Lex(false, Commas(false, false, s)) == DropTrailing(Lex(false, s))
    decreases |s|, 0
  {
    var n := 1 + StringEnd(s[1..], false);
    FirstLiteral(false, s, n);
    StringCopied(s[1..], false);
    Peel(s, n, Commas(false, false, s[n..]));
    LexCommas(s[n..]);
    LiteralRead(s, n, Commas(false, false, s[n..]));
  }

  lemma LexCommasAtom(s: string)
    requires StartsAtom(s)
    ensures Lex(false, Commas(false, false, s)) == DropTrailing(Lex(false, s))
    decreases |s|, 0
  {
    var n := AtomEnd(false, s);
    var ts := Lex(false, s[n..]);
    AtomReread(false, s, "");
    CommasHead(s[n..]);
    AtomKeepsCommas(s);
    LexCommas(s[n..]);
    AtomRead(false, s, n, Commas(false, false, s[n..]));
    assert ([Atom(s[..n])] + ts)[1..] == ts;
  }

  /** No comma in front of a closing bracket. */
  predicate TrailingFree(ts: seq<Token>)
  {
    ts == [] || (!(ts[0] == Punct(',') && |ts| > 1 && Closer(ts[1])) && TrailingFree(ts[1..]))
  }

  /** Two commas in a row in front of a closing bracket. */
  predicate DoubleComma(ts: seq<Token>)
  {
    |ts| > 2 && ((ts[0] == ts[1] == Punct(',') && Closer(ts[2])) || DoubleComma(ts[1..]))
  }

  lemma {:induction false} StringTrails(s: string, escaped: bool)
    ensures NoTrailingComma(true, escaped, s) <==> NoTrailingComma(false, false, s[StringEnd(s, escaped)..])
  {
    var n := StringEnd(s, escaped);
    if s == "" {
    } else if !escaped && s[0] == '"' {
    } else {
      StringTrails(s[1..], !escaped && s[0] == '\\');
      assert s[n..] == s[1..][n - 1..];
    }
  }

  lemma {:induction false} AtomTrails(s: string)
    ensures NoTrailingComma(false, false, s) <==> NoTrailingComma(false, false, s[AtomEnd(false, s)..])
  {
    var n := AtomEnd(false, s);
    if n > 0 {
      AtomTrails(s[1..]);
      assert s[n..] == s[1..][n - 1..];
    } else {
      assert s[0..] == s;
    }
  }

  /** The scan for trailing commas finds what the tokens show. */
  lemma {:induction false} TrailingReads(s: string)
    ensures NoTrailingComma(false, false, s) <==> TrailingFree(Lex(false, s))
    decreases |s|
  {
    if s == "" {
    } else if IsWhite(s[0]) || IsPunct(s[0]) {
      var ts := Lex(false, s[1..]);
      TrailingReads(s[1..]);
      ClosesNextReads(s[1..]);
      assert ([Punct(s[0])] + ts)[1..] == ts;
    } else if s[0] == '"' {
      var n := 1 + StringEnd(s[1..], false);
      FirstLiteral(false, s, n);
      StringTrails(s[1..], false);
      TrailingReads(s[n..]);
    } else {
      var n := AtomEnd(false, s);
      var ts := Lex(false, s[n..]);
      AtomTrails(s);
      TrailingReads(s[n..]);
      assert ([Atom(s[..n])] + ts)[1..] == ts;
    }
  }

  lemma DropHead(ts: seq<Token>)
    ensures DropTrailing(ts) != [] <==> ts != []
    ensures DropTrailing(ts) != [] && Closer(DropTrailing(ts)[0]) <==>
            ts != [] && (Closer(ts[0]) || (ts[0] == Punct(',') && |ts| > 1 && Closer(ts[1])))
  {
  }

  lemma {:induction false} DropAgain(ts: seq<Token>)
    ensures TrailingFree(DropTrailing(ts)) <==> !DoubleComma(ts)
  {
    if ts != [] {
      var rest := DropTrailing(ts[1..]);
      DropAgain(ts[1..]);
      DropHead(ts[1..]);
      assert ([ts[0]] + rest)[1..] == rest;
    }
  }

  lemma {:induction false} DropNothing(ts: seq<Token>)
    ensures |DropTrailing(ts)| <= |ts|
    ensures TrailingFree(ts) <==> DropTrailing(ts) == ts
  {
    if ts != [] {
      DropNothing(ts[1..]);
      assert ([ts[0]] + DropTrailing(ts[1..]))[1..] == DropTrailing(ts[1..]);
    }
  }

  /** A second comma pass changes nothing exactly when no two commas stand in front of a closing bracket. */
  lemma CommasAgainExactly(s: string)
    ensures Commas(false, false, Commas(false, false, s)) == Commas(false, false, s)
       <==> !DoubleComma(Lex(false, s))
  {
    var once := Commas(false, false, s);
    CommasShrink(false, false, once);
    TrailingReads(once);
    LexCommas(s);
    DropAgain(Lex(false, s));
  }

  /** Two commas stand there in "[,,]", the shortest such text. */
  lemma DoubleCommaWitness()
    ensures DoubleComma(Lex(false, "[,,]"))
  {
    CommasNotIdempotent();
    CommasAgainExactly("[,,]");
  }

  // ---------- JSON values ----------

  /** `trailing` says that the text has a comma after the last entry. */
  datatype Value =
    | Scalar(text: string)
    | Text(literal: string)
    | Array(entries: Entries, trailing: bool)
    | Object(entries: Entries, trailing: bool)

  /** The entries of a container; the key is that of an object's member. */
  datatype Entries = End | Entry(key: string, value: Value, rest: Entries)

  /** The tokens of a value, with its trailing commas or as plain JSON has it. */
  function Tokens(v: Value, trailing: bool): seq<Token>
  {
    match v
    case Scalar(text) => [Atom(text)]
    case Text(literal) => [Literal(literal)]
    case Array(es, comma) =>
      [Punct('[')] + EntryTokens(es, false, trailing)
      + (if trailing && comma && es.Entry? then [Punct(',')] else []) + [Punct(']')]
    case Object(es, comma) =>
      [Punct('{')] + EntryTokens(es, true, trailing)
      + (if trailing && comma && es.Entry? then [Punct(',')] else []) + [Punct('}')]
  }

  function EntryTokens(es: Entries, keyed: bool, trailing: bool): seq<Token>
  {
    match es
    case End => []
    case Entry(key, value, rest) =>
      (if keyed then [Literal(key), Punct(':')] else []) + Tokens(value, trailing)
      + (if rest.Entry? then [Punct(',')] else []) + EntryTokens(rest, keyed, trailing)
  }

  lemma Regroup(a: seq<Token>, b: seq<Token>, c: seq<Token>, d: seq<Token>, e: seq<Token>)
    ensures a + b + c + d + e == a + (b + (c + (d + e)))
  {
  }

  lemma FirstToken(v: Value, trailing: bool)
    ensures Tokens(v, trailing) != [] && !Closer(Tokens(v, trailing)[0]) && Tokens(v, trailing)[0] != Punct(',')
  {
  }

  lemma {:induction false} ValueDrops(v: Value, trailing: bool, after: seq<Token>)
    ensures DropTrailing(Tokens(v, trailing) + after) == Tokens(v, false) + DropTrailing(after)
  {
    match v
    case Scalar(text) => assert ([Atom(text)] + after)[1..] == after;
    case Text(literal) => assert ([Literal(literal)] + after)[1..] == after;
    case Array(es, comma) => ContainerDrops(es, false, trailing, comma, '[', ']', after);
    case Object(es, comma) => ContainerDrops(es, true, trailing, comma, '{', '}', after);
  }

  lemma {:induction false} ContainerDrops(es: Entries, keyed: bool, trailing: bool, comma: bool, left: char,
                                          right: char, after: seq<Token>)
    requires left != ',' && Closer(Punct(right))
    ensures var close := [Punct(right)];
            var trail := if trailing && comma && es.Entry? then [Punct(',')] else [];
            DropTrailing([Punct(left)] + EntryTokens(es, keyed, trailing) + trail + close + after)
              == [Punct(left)] + EntryTokens(es, keyed, false) + [] + close + DropTrailing(after)
    decreases es, 1
  {
    var open, close := [Punct(left)], [Punct(right)];
    var trail := if trailing && comma && es.Entry? then [Punct(',')] else [];
    var inner := EntryTokens(es, keyed, trailing);
    var tail := trail + (close + after);
    Regroup(open, inner, trail, close, after);
    assert (open + (inner + tail))[1..] == inner + tail;
    EntriesDrop(es, keyed, trailing, tail);
    TrailDrops(trailing && comma && es.Entry?, Punct(right), after);
    var left := EntryTokens(es, keyed, false);
    Regroup(open, left, [], close, DropTrailing(after));
    assert [] + (close + DropTrailing(after)) == close + DropTrailing(after);
  }

  lemma TrailDrops(comma: bool, close: Token, after: seq<Token>)
    requires Closer(close)
    ensures var trail := if comma then [Punct(',')] else [];
            DropTrailing(trail + ([close] + after)) == [close] + DropTrailing(after)
  {
    var end := [close] + after;
    assert end[1..] == after;
    if comma {
      assert ([Punct(',')] + end)[1..] == end;
    } else {
      assert [] + end == end;
    }
  }

  lemma {:induction false} EntriesDrop(es: Entries, keyed: bool, trailing: bool, after: seq<Token>)
    ensures DropTrailing(EntryTokens(es, keyed, trailing) + after)
         == EntryTokens(es, keyed, false) + DropTrailing(after)
    decreases es, 0
  {
    match es
    case End =>
      assert EntryTokens(es, keyed, trailing) + after == after;
      assert EntryTokens(es, keyed, false) + DropTrailing(after) == DropTrailing(after);
    case Entry(key, value, rest) =>
      var name := if keyed then [Literal(key), Punct(':')] else [];
      var comma := if rest.Entry? then [Punct(',')] else [];
      var tail := EntryTokens(rest, keyed, trailing) + after;
      Regroup(name, Tokens(value, trailing), comma, EntryTokens(rest, keyed, trailing), after);
      NameStays(key, keyed, Tokens(value, trailing) + (comma + tail));
      ValueDrops(value, trailing, comma + tail);
      CommaStays(rest, keyed, trailing, after);
      EntriesDrop(rest, keyed, trailing, after);
      Regroup(name, Tokens(value, false), comma, EntryTokens(rest, keyed, false), DropTrailing(after));
  }

  lemma NameStays(key: string, keyed: bool, ts: seq<Token>)
    ensures var name := if keyed then [Literal(key), Punct(':')] else [];
            DropTrailing(name + ts) == name + DropTrailing(ts)
  {
    if keyed {
      var name := [Literal(key), Punct(':')];
      assert (name + ts)[1..] == [Punct(':')] + ts;
      assert ([Punct(':')] + ts)[1..] == ts;
    } else {
      assert [] + ts == ts;
    }
  }

  /** The comma between two entries has no closing bracket behind it. */
  lemma CommaStays(es: Entries, keyed: bool, trailing: bool, after: seq<Token>)
    ensures var comma := if es.Entry? then [Punct(',')] else [];
            var tail := EntryTokens(es, keyed, trailing) + after;
            DropTrailing(comma + tail) == comma + DropTrailing(tail)
  {
    var tail := EntryTokens(es, keyed, trailing) + after;
    if es.Entry? {
      FirstToken(es.value, trailing);
      assert ([Punct(',')] + tail)[1..] == tail;
    } else {
      assert [] + tail == tail;
    }
  }

  lemma {:induction false} SeparateCons(t: Token, ts: seq<Token>)
    requires Separate(ts) && !(t.Atom? && AtomFirst(ts))
    ensures Separate([t] + ts)
  {
    assert ([t] + ts)[1..] == ts;
  }

  lemma {:induction false} ValueSeparate(v: Value, trailing: bool, after: seq<Token>)
    requires Separate(after) && !AtomFirst(after)
    ensures Separate(Tokens(v, trailing) + after)
  {
    match v
    case Scalar(text) => SeparateCons(Atom(text), after);
    case Text(literal) => SeparateCons(Literal(literal), after);
    case Array(es, comma) => ContainerSeparate(es, false, trailing, comma, '[', ']', after);
    case Object(es, comma) => ContainerSeparate(es, true, trailing, comma, '{', '}', after);
  }

  lemma {:induction false} ContainerSeparate(es: Entries, keyed: bool, trailing: bool, comma: bool, left: char,
                                             right: char, after: seq<Token>)
    requires Separate(after)
    ensures var trail := if trailing && comma && es.Entry? then [Punct(',')] else [];
            Separate([Punct(left)] + EntryTokens(es, keyed, trailing) + trail + [Punct(right)] + after)
    decreases es, 1
  {
    var trail := if trailing && comma && es.Entry? then [Punct(',')] else [];
    var inner := EntryTokens(es, keyed, trailing);
    var end := [Punct(right)] + after;
    SeparateCons(Punct(right), after);
    SeparateComma(trailing && comma && es.Entry?, end);
    EntriesSeparate(es, keyed, trailing, trail + end);
    SeparateCons(Punct(left), inner + (trail + end));
    Regroup([Punct(left)], inner, trail, [Punct(right)], after);
  }

  lemma SeparateComma(comma: bool, ts: seq<Token>)
    requires Separate(ts) && (comma || !AtomFirst(ts))
    ensures var trail := if comma then [Punct(',')] else [];
            Separate(trail + ts) && !AtomFirst(trail + ts)
  {
    if comma {
      SeparateCons(Punct(','), ts);
    } else {
      assert [] + ts == ts;
    }
  }

  lemma {:induction false} EntriesSeparate(es: Entries, keyed: bool, trailing: bool, after: seq<Token>)
    requires Separate(after) && !AtomFirst(after)
    ensures Separate(EntryTokens(es, keyed, trailing) + after)
    decreases es, 0
  {
    match es
    case End =>
      assert EntryTokens(es, keyed, trailing) + after == after;
    case Entry(key, value, rest) =>
      var name := if keyed then [Literal(key), Punct(':')] else [];
      var comma := if rest.Entry? then [Punct(',')] else [];
      var tail := EntryTokens(rest, keyed, trailing) + after;
      EntriesSeparate(rest, keyed, trailing, after);
      assert rest.End? ==> tail == after;
      SeparateComma(rest.Entry?, tail);
      ValueSeparate(value, trailing, comma + tail);
      SeparateName(key, keyed, Tokens(value, trailing) + (comma + tail));
      Regroup(name, Tokens(value, trailing), comma, EntryTokens(rest, keyed, trailing), after);
  }

  lemma SeparateName(key: string, keyed: bool, ts: seq<Token>)
    requires Separate(ts)
    ensures var name := if keyed then [Literal(key), Punct(':')] else [];
            Separate(name + ts)
  {
    if keyed {
      SeparateCons(Punct(':'), ts);
      SeparateCons(Literal(key), [Punct(':')] + ts);
      assert [Literal(key), Punct(':')] + ts == [Literal(key)] + ([Punct(':')] + ts);
    } else {
      assert [] + ts == ts;
    }
  }

  /** Stripping keeps the value: comments go, trailing commas go, every other token stays. */
  lemma StripKeepsValue(s: string, v: Value)
    requires Lex(true, s) == Tokens(v, true)
    ensures Lex(false, Strip(s)) == Tokens(v, false)
  {
    assert Tokens(v, true) + [] == Tokens(v, true);
    ValueSeparate(v, true, []);
    LexCode(s);
    LexCommas(Code(s));
    ValueDrops(v, true, []);
    assert Tokens(v, false) + DropTrailing([]) == Tokens(v, false);
  }

  // ---------- Every printing of a value ----------

  /** What a text is put together from: tokens, and what may stand between them. */
  datatype Piece = Tok(token: Token) | Space(c: char) | Line(text: string) | Block(text: string)

  /** The rest of a string literal, up to its closing quote and no further. */
  predicate Closed(s: string, escaped: bool)
  {
    s != "" && if !escaped && s[0] == '"' then |s| == 1 else Closed(s[1..], !escaped && s[0] == '\\')
  }

  predicate TokenOk(t: Token)
  {
    match t
    case Punct(c) => IsPunct(c)
    case Literal(text) => text != "" && text[0] == '"' && Closed(text[1..], false)
    case Atom(text) => text != "" && forall c :: c in text ==> AtomChar(c) && c != '/'
  }

  predicate NoClose(s: string)
  {
    forall i :: 0 <= i < |s| - 1 && s[i] == '*' ==> s[i + 1] != '/'
  }

  predicate PieceOk(p: Piece)
  {
    match p
    case Tok(token) => TokenOk(token)
    case Space(c) => IsWhite(c)
    case Line(text) => '\n' !in text
    case Block(text) => NoClose(text)
  }

  function Show(p: Piece): string
  {
    match p
    case Tok(Punct(c)) => [c]
    case Tok(Literal(text)) => text
    case Tok(Atom(text)) => text
    case Space(c) => [c]
    case Line(text) => "//" + text + "\n"
    case Block(text) => "/*" + text + "*/"
  }

  function Flatten(ps: seq<Piece>): string
  {
    if ps == [] then "" else Show(ps[0]) + Flatten(ps[1..])
  }

  function Meant(ps: seq<Piece>): seq<Token>
  {
    if ps == [] then [] else (if ps[0].Tok? then [ps[0].token] else []) + Meant(ps[1..])
  }

  lemma {:induction false} ClosedEnds(s: string, escaped: bool, rest: string)
    requires Closed(s, escaped)
    ensures StringEnd(s + rest, escaped) == |s|
  {
    assert (s + rest)[1..] == s[1..] + rest;
    if escaped || s[0] != '"' {
      ClosedEnds(s[1..], !escaped && s[0] == '\\', rest);
    }
  }

  lemma {:induction false} AtomEnds(s: string, rest: string)
    requires forall c :: c in s ==> AtomChar(c) && c != '/'
    requires !StartsAtom(rest) || Opens(rest)
    ensures AtomEnd(true, s + rest) == |s|
  {
    if s == "" {
      assert s + rest == rest;
    } else {
      assert s[0] in s;
      assert (s + rest)[1..] == s[1..] + rest;
      assert forall c :: c in s[1..] ==> c in s;
      AtomEnds(s[1..], rest);
    }
  }

  lemma {:induction false} LineEnds(s: string, rest: string)
    requires '\n' !in s
    ensures LineEnd(s + ("\n" + rest)) == |s|
  {
    if s == "" {
      assert s + ("\n" + rest) == "\n" + rest;
    } else {
      assert s[0] in s;
      assert (s + ("\n" + rest))[1..] == s[1..] + ("\n" + rest);
      assert forall c :: c in s[1..] ==> c in s;
      LineEnds(s[1..], rest);
    }
  }

  lemma {:induction false} BlockEnds(s: string, rest: string)
    requires NoClose(s)
    ensures BlockEnd(s + ("*/" + rest)) == |s| + 2
  {
    var t := s + ("*/" + rest);
    if s != "" {
      assert t[1..] == s[1..] + ("*/" + rest);
      forall i | 0 <= i < |s| - 2 && s[1..][i] == '*'
        ensures s[1..][i + 1] != '/'
      {
        assert s[i + 1] == '*';
      }
      BlockEnds(s[1..], rest);
      assert t[0] == '*' ==> t[1] != '/';
    }
  }

  lemma LineRead(text: string, rest: string)
    requires '\n' !in text
    ensures Lex(true, "//" + text + "\n" + rest) == Lex(true, rest)
  {
    var s := "//" + text + "\n" + rest;
    LineEnds(text, rest);
    assert s[2..] == text + ("\n" + rest);
    assert s[2 + |text|..] == "\n" + rest;
    assert ("\n" + rest)[1..] == rest;
  }

  lemma BlockRead(text: string, rest: string)
    requires NoClose(text)
    ensures Lex(true, "/*" + text + "*/" + rest) == Lex(true, rest)
  {
    var s := "/*" + text + "*/" + rest;
    BlockEnds(text, rest);
    assert s[2..] == text + ("*/" + rest);
    assert s[2 + (|text| + 2)..] == rest;
  }

  lemma LiteralToken(text: string, rest: string)
    requires TokenOk(Literal(text))
    ensures Lex(true, text + rest) == [Literal(text)] + Lex(true, rest)
  {
    var s := text + rest;
    ClosedEnds(text[1..], false, rest);
    assert s[1..] == text[1..] + rest;
    assert s[..|text|] == text && s[|text|..] == rest;
  }

  lemma AtomToken(text: string, rest: string)
    requires TokenOk(Atom(text)) && (!StartsAtom(rest) || Opens(rest))
    ensures Lex(true, text + rest) == [Atom(text)] + Lex(true, rest)
  {
    var s := text + rest;
    AtomEnds(text, rest);
    assert text[0] in text;
    assert s[..|text|] == text && s[|text|..] == rest;
  }

  lemma PieceRead(p: Piece, rest: string)
    requires PieceOk(p) && (p.Tok? && p.token.Atom? ==> !StartsAtom(rest) || Opens(rest))
    ensures Lex(true, Show(p) + rest) == (if p.Tok? then [p.token] else []) + Lex(true, rest)
  {
    assert [] + Lex(true, rest) == Lex(true, rest);
    match p
    case Tok(Punct(c)) => assert ([c] + rest)[1..] == rest;
    case Tok(Literal(text)) => LiteralToken(text, rest);
    case Tok(Atom(text)) => AtomToken(text, rest);
    case Space(c) => assert ([c] + rest)[1..] == rest;
    case Line(text) => LineRead(text, rest);
    case Block(text) => BlockRead(text, rest);
  }

  /** The reader of JSON with comments reads every printing as what was printed. */
  lemma {:induction false} FlattenReads(ps: seq<Piece>)
    requires (forall p :: p in ps ==> PieceOk(p)) && Separate(Meant(ps))
    ensures Lex(true, Flatten(ps)) == Meant(ps)
  {
    if ps != [] {
      var rest := Flatten(ps[1..]);
      assert ps[0] in ps && forall p :: p in ps[1..] ==> p in ps;
      if ps[0].Tok? {
        assert Meant(ps)[1..] == Meant(ps[1..]);
      } else {
        assert [] + Meant(ps[1..]) == Meant(ps[1..]);
      }
      FlattenReads(ps[1..]);
      if StartsAtom(rest) && !Opens(rest) {
        assert Lex(true, rest)[0].Atom?;
      }
      PieceRead(ps[0], rest);
    }
  }

  /**
    However a value is printed, with any white space and comments between its tokens and a
    comma after the last entry of any container, the stripped text reads as the plain value.
   */
  lemma StripPrinted(ps: seq<Piece>, v: Value)
    requires (forall p :: p in ps ==> PieceOk(p)) && Meant(ps) == Tokens(v, true)
    ensures Lex(false, Strip(Flatten(ps))) == Tokens(v, false)
  {
    ValueSeparate(v, true, []);
    assert Tokens(v, true) + [] == Tokens(v, true);
    FlattenReads(ps);
    StripKeepsValue(Flatten(ps), v);
  }

  lemma {:induction false} LiteralHasNoComment(s: string, escaped: bool, rest: string)
    requires Closed(s, escaped)
    ensures NoComment(true, escaped, s + rest) <==> NoComment(false, false, rest)
  {
    assert (s + rest)[1..] == s[1..] + rest;
    if !escaped && s[0] == '"' {
      assert s[1..] + rest == rest;
    } else {
      LiteralHasNoComment(s[1..], !escaped && s[0] == '\\', rest);
    }
  }

  lemma {:induction false} AtomHasNoComment(s: string, rest: string)
    requires forall c :: c in s ==> AtomChar(c) && c != '/'
    ensures NoComment(false, false, s + rest) <==> NoComment(false, false, rest)
  {
    if s == "" {
      assert s + rest == rest;
    } else {
      assert s[0] in s && forall c :: c in s[1..] ==> c in s;
      assert (s + rest)[1..] == s[1..] + rest;
      AtomHasNoComment(s[1..], rest);
    }
  }

  lemma PieceHasNoComment(p: Piece, rest: string)
    requires PieceOk(p)
    ensures NoComment(false, false, Show(p) + rest) <==> (p.Tok? || p.Space?) && NoComment(false, false, rest)
  {
    match p
    case Tok(Punct(c)) => assert ([c] + rest)[1..] == rest;
    case Tok(Literal(text)) =>
      assert (text + rest)[1..] == text[1..] + rest;
      LiteralHasNoComment(text[1..], false, rest);
    case Tok(Atom(text)) => AtomHasNoComment(text, rest);
    case Space(c) => assert ([c] + rest)[1..] == rest;
    case Line(text) => assert Opens("//" + text + "\n" + rest);
    case Block(text) => assert Opens("/*" + text + "*/" + rest);
  }

  lemma {:induction false} FlattenHasNoComment(ps: seq<Piece>)
    requires forall p :: p in ps ==> PieceOk(p)
    ensures NoComment(false, false, Flatten(ps)) <==> forall p :: p in ps ==> p.Tok? || p.Space?
  {
    if ps != [] {
      assert ps[0] in ps && forall p :: p in ps <==> p == ps[0] || p in ps[1..];
      PieceHasNoComment(ps[0], Flatten(ps[1..]));
      FlattenHasNoComment(ps[1..]);
    }
  }

  /** A printing is left as it is exactly when it has no comment and no comma before a closing bracket. */
  lemma PrintingUnchanged(ps: seq<Piece>)
    requires (forall p :: p in ps ==> PieceOk(p)) && Separate(Meant(ps))
    ensures Strip(Flatten(ps)) == Flatten(ps)
       <==> (forall p :: p in ps ==> p.Tok? || p.Space?) && TrailingFree(Meant(ps))
  {
    var s := Flatten(ps);
    StripIdentity(s);
    FlattenHasNoComment(ps);
    FlattenReads(ps);
    if NoComment(false, false, s) {
      RestShrinks(false, false, s);
      LexCode(s);
      TrailingReads(s);
    }
  }

  /** Plain JSON, however it is spaced, is left as it is. */
  lemma PlainUnchanged(ps: seq<Piece>, v: Value)
    requires forall p :: p in ps ==> PieceOk(p) && (p.Tok? || p.Space?)
    requires Meant(ps) == Tokens(v, false)
    ensures Strip(Flatten(ps)) == Flatten(ps)
  {
    var ts := Tokens(v, false);
    assert ts + [] == ts;
    assert ts + DropTrailing([]) == ts;
    ValueSeparate(v, false, []);
    ValueDrops(v, false, []);
    DropNothing(ts);
    PrintingUnchanged(ps);
  }

  /**
    Why the comments go first: of a comma with a comment between it and the closing bracket
    the comma pass alone would keep the comma, and stripping removes it.
   */
  lemma CommentsMustGoFirst(rest: string)
    requires Opens(rest) && ClosesNext(Code(rest))
    ensures Strip("," + rest) == Strip(rest)
    ensures Code(Commas(false, false, "," + rest)) == "," + Code(Commas(false, false, rest))
  {
    assert ("," + rest)[1..] == rest;
    assert ("," + Code(rest))[1..] == Code(rest);
    var kept := Commas(false, false, rest);
    assert ("," + kept)[1..] == kept;
  }
}
