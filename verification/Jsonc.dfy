/**
  The JSONC stripper (detect.go): comments first, then trailing commas. Both passes are index
  loops over bytes, written here as characters, proved against functions on the rest of the
  input.
 */
module Jsonc {

  // ---------- Comments ----------

  /** The comment pass from a position outside every string and comment. */
  function Code(s: string): string
    decreases |s|, 1
  {
    if s == "" then ""
    else if s[0] == '"' then "\"" + Str(s[1..], false)
    else if s[0] == '/' && |s| > 1 && s[1] == '/' then LineComment(s)
    else if s[0] == '/' && |s| > 1 && s[1] == '*' then BlockComment(s[2..])
    else [s[0]] + Code(s[1..])
  }

  /** From inside a string literal; `escaped` when the last character was an active backslash. */
  function Str(s: string, escaped: bool): string
    decreases |s|, 0
  {
    if s == "" then ""
    else if !escaped && s[0] == '"' then "\"" + Code(s[1..])
    else [s[0]] + Str(s[1..], !escaped && s[0] == '\\')
  }

  /** From inside a line comment: dropped up to its newline, which stays. */
  function LineComment(s: string): string
    decreases |s|, 0
  {
    if s == "" then ""
    else if s[0] == '\n' then "\n" + Code(s[1..])
    else LineComment(s[1..])
  }

  /** From inside a block comment: only its newlines stay; one that is never closed eats the rest. */
  function BlockComment(s: string): string
    decreases |s|, 0
  {
    if |s| < 2 then ""
    else if s[0] == '*' && s[1] == '/' then Code(s[2..])
    else (if s[0] == '\n' then "\n" else "") + BlockComment(s[1..])
  }

  /** The inner loop over a line comment: the position of its newline, or the end. */
  method SkipLineComment(data: string, start: nat) returns (i: nat)
    requires start <= |data|
    ensures start <= i <= |data| && (i < |data| ==> data[i] == '\n')
    ensures LineComment(data[start..]) == LineComment(data[i..])
  {
    i := start;
    while i < |data| && data[i] != '\n'
      invariant start <= i <= |data|
      invariant LineComment(data[start..]) == LineComment(data[i..])
    {
      assert data[i..][1..] == data[i + 1..];
      i := i + 1;
    }
  }

  /** The inner loop over a block comment: its newlines, and the position after it. */
  method SkipBlockComment(data: string, start: nat) returns (newlines: string, i: nat)
    requires start <= |data|
    ensures start <= i <= |data|
    ensures BlockComment(data[start..]) == newlines + Code(data[i..])
  {
    newlines, i := "", start;
    while i + 1 < |data| && (data[i] != '*' || data[i + 1] != '/')
      invariant start <= i <= |data|
      invariant BlockComment(data[start..]) == newlines + BlockComment(data[i..])
      decreases |data| - i
    {
      assert data[i..][1..] == data[i + 1..];
      if data[i] == '\n' {
        newlines := newlines + "\n";
      }
      i := i + 1;
    }
    if i + 1 < |data| {
      assert data[i..][2..] == data[i + 2..];
      i := i + 2;
    } else {
      i := |data|;
    }
  }

  /** What the comment pass still has to write, from inside or outside a string. */
  function Rest(inString: bool, escaped: bool, s: string): string
  {
    if inString then Str(s, escaped) else Code(s)
  }

  predicate Opens(s: string)
  {
    |s| > 1 && s[0] == '/' && (s[1] == '/' || s[1] == '*')
  }

  /** A character that opens no comment is copied, and moves the string flags as both passes do. */
  lemma CopyStep(inString: bool, escaped: bool, s: string)
    requires s != "" && (inString || (!escaped && !Opens(s)))
    ensures var in' := if inString then escaped || s[0] != '"' else s[0] == '"';
            var escaped' := inString && !escaped && s[0] == '\\';
            Rest(inString, escaped, s) == [s[0]] + Rest(in', escaped', s[1..])
  {
  }

  /** One turn of the loop: what it appends, and the state it goes on from. */
  method StripCommentsTurn(data: string, i: nat, inString: bool, escaped: bool)
    returns (piece: string, next: nat, inString': bool, escaped': bool)
    requires i < |data| && (escaped ==> inString)
    ensures i < next <= |data| && (escaped' ==> inString')
    ensures Rest(inString, escaped, data[i..]) == piece + Rest(inString', escaped', data[next..])
  {
    var c := data[i];
    assert data[i..][0] == c && data[i..][1..] == data[i + 1..];
    inString', escaped' := inString, escaped;
    if !inString && c == '/' && i + 1 < |data| && data[i + 1] == '/' {
      next := SkipLineComment(data, i);
      piece := "";
      if next < |data| {
        assert data[next..][1..] == data[next + 1..];
        piece := [data[next]];
        next := next + 1;
      }
      return;
    }
    if !inString && c == '/' && i + 1 < |data| && data[i + 1] == '*' {
      assert data[i..][2..] == data[i + 2..];
      piece, next := SkipBlockComment(data, i + 2);
      return;
    }
    CopyStep(inString, escaped, data[i..]);
    piece, next := [c], i + 1;
    if inString {
      if escaped {
        escaped' := false;
      } else if c == '\\' {
        escaped' := true;
      } else if c == '"' {
        inString' := false;
      }
    } else if c == '"' {
      inString' := true;
    }
  }

  method StripComments(data: string) returns (out: string)
    ensures out == Code(data)
  {
    out := "";
    var inString, escaped := false, false;
    var i := 0;
    ghost var todo := Code(data);
    assert data[0..] == data;
    while i < |data|
      invariant 0 <= i <= |data|
      invariant escaped ==> inString
      invariant todo == Rest(inString, escaped, data[i..])
      invariant Code(data) == out + todo
    {
      var piece;
      piece, i, inString, escaped := StripCommentsTurn(data, i, inString, escaped);
      ghost var before := todo;
      todo := Rest(inString, escaped, data[i..]);
      assert before == piece + todo;
      assert out + (piece + todo) == out + piece + todo;
      out := out + piece;
    }
    assert data[i..] == "";
  }

  // ---------- Trailing commas ----------

  predicate IsWhite(c: char) { c == ' ' || c == '\n' || c == '\r' || c == '\t' }

  predicate IsClose(c: char) { c == '}' || c == ']' }

  /** The next character that is no white space closes a container. */
  predicate ClosesNext(s: string)
    decreases |s|
  {
    s != "" && if IsWhite(s[0]) then ClosesNext(s[1..]) else IsClose(s[0])
  }

  /** The comma pass; the flags are those of the string the position is in. */
  function Commas(inString: bool, escaped: bool, s: string): string
    decreases |s|
  {
    if s == "" then ""
    else if inString then [s[0]] + Commas(escaped || s[0] != '"', !escaped && s[0] == '\\', s[1..])
    else if s[0] == ',' && ClosesNext(s[1..]) then Commas(false, false, s[1..])
    else [s[0]] + Commas(s[0] == '"', false, s[1..])
  }

  method LooksAtClose(data: string, start: nat) returns (closes: bool)
    requires start <= |data|
    ensures closes == ClosesNext(data[start..])
  {
    var j := start;
    while j < |data| && IsWhite(data[j])
      invariant start <= j <= |data|
      invariant ClosesNext(data[start..]) == ClosesNext(data[j..])
    {
      assert data[j..][1..] == data[j + 1..];
      j := j + 1;
    }
    closes := j < |data| && IsClose(data[j]);
  }

  /** One turn of the loop: the character is copied, or is a comma that goes. */
  method StripCommasTurn(data: string, i: nat, inString: bool, escaped: bool)
    returns (piece: string, inString': bool, escaped': bool)
    requires i < |data| && (escaped ==> inString)
    ensures escaped' ==> inString'
    ensures Commas(inString, escaped, data[i..]) == piece + Commas(inString', escaped', data[i + 1..])
  {
    var c := data[i];
    assert data[i..][0] == c && data[i..][1..] == data[i + 1..];
    inString', escaped' := inString, escaped;
    piece := [c];
    if inString {
      if escaped {
        escaped' := false;
      } else if c == '\\' {
        escaped' := true;
      } else if c == '"' {
        inString' := false;
      }
      return;
    }
    if c == '"' {
      inString' := true;
      return;
    }
    if c == ',' {
      var drops := LooksAtClose(data, i + 1);
      if drops {
        piece := "";
        assert "" + Commas(false, false, data[i + 1..]) == Commas(false, false, data[i + 1..]);
      }
    }
  }

  method StripTrailingCommas(data: string) returns (out: string)
    ensures out == Commas(false, false, data)
  {
    out := "";
    var inString, escaped := false, false;
    ghost var todo := Commas(false, false, data);
    assert data[0..] == data;
    for i := 0 to |data|
      invariant escaped ==> inString
      invariant todo == Commas(inString, escaped, data[i..])
      invariant Commas(false, false, data) == out + todo
    {
      var piece;
      piece, inString, escaped := StripCommasTurn(data, i, inString, escaped);
      ghost var before := todo;
      todo := Commas(inString, escaped, data[i + 1..]);
      assert before == piece + todo;
      assert out + (piece + todo) == out + piece + todo;
      out := out + piece;
    }
    assert data[|data|..] == "";
  }

  function Strip(s: string): string
  {
    Commas(false, false, Code(s))
  }

  method StripJsonc(data: string) returns (out: string)
    ensures out == Strip(data)
  {
    var plain := StripComments(data);
    out := StripTrailingCommas(plain);
  }

  // ---------- The comment pass on every input ----------

  /** In the output a slash keeps the neighbour it had, so no comment opener comes up. */
  lemma CodeKeepsHead(s: string)
    ensures s == "" ==> Code(s) == ""
    ensures s != "" && s[0] != '/' ==> Code(s) != "" && Code(s)[0] == s[0]
  {
  }

  lemma {:induction false} RestIdempotent(inString: bool, escaped: bool, s: string)
    requires escaped ==> inString
    ensures Rest(inString, escaped, Rest(inString, escaped, s)) == Rest(inString, escaped, s)
    decreases |s|, 1
  {
    if s == "" {
    } else if !inString && Opens(s) {
      if s[1] == '/' {
        LineIdempotent(s);
      } else {
        BlockIdempotent(s[2..]);
      }
    } else {
      var in' := if inString then escaped || s[0] != '"' else s[0] == '"';
      var escaped' := inString && !escaped && s[0] == '\\';
      var rest := Rest(in', escaped', s[1..]);
      CopyStep(inString, escaped, s);
      RestIdempotent(in', escaped', s[1..]);
      if !inString && s[0] == '/' && |s| > 1 {
        CodeKeepsHead(s[1..]);
      }
      assert ([s[0]] + rest)[1..] == rest;
      CopyStep(inString, escaped, [s[0]] + rest);
    }
  }

  lemma {:induction false} LineIdempotent(s: string)
    ensures Code(LineComment(s)) == LineComment(s)
    decreases |s|, 0
  {
    if s == "" {
    } else if s[0] == '\n' {
      RestIdempotent(false, false, s[1..]);
      assert ("\n" + Code(s[1..]))[1..] == Code(s[1..]);
    } else {
      LineIdempotent(s[1..]);
    }
  }

  lemma {:induction false} BlockIdempotent(s: string)
    ensures Code(BlockComment(s)) == BlockComment(s)
    decreases |s|, 0
  {
    if |s| < 2 {
    } else if s[0] == '*' && s[1] == '/' {
      RestIdempotent(false, false, s[2..]);
    } else {
      BlockIdempotent(s[1..]);
      if s[0] == '\n' {
        assert ("\n" + BlockComment(s[1..]))[1..] == BlockComment(s[1..]);
      } else {
        assert "" + BlockComment(s[1..]) == BlockComment(s[1..]);
      }
    }
  }

  /** Removing a comment never glues a new one together: a second pass changes nothing. */
  lemma CodeIdempotent(s: string)
    ensures Code(Code(s)) == Code(s)
  {
    RestIdempotent(false, false, s);
  }

  function Newlines(s: string): nat
  {
    if s == "" then 0 else (if s[0] == '\n' then 1 else 0) + Newlines(s[1..])
  }

  /** The input ends inside a block comment, and its last character is a newline. */
  predicate LosesNewline(inString: bool, escaped: bool, s: string)
    decreases |s|, 1
  {
    if s == "" then false
    else if !inString && Opens(s) then
      if s[1] == '/' then LineLoses(s[1..]) else BlockLoses(s[2..])
    else
      LosesNewline(if inString then escaped || s[0] != '"' else s[0] == '"',
                   inString && !escaped && s[0] == '\\', s[1..])
  }

  predicate LineLoses(s: string)
    decreases |s|, 0
  {
    s != "" && if s[0] == '\n' then LosesNewline(false, false, s[1..]) else LineLoses(s[1..])
  }

  predicate BlockLoses(s: string)
    decreases |s|, 0
  {
    if |s| < 2 then s == "\n"
    else if s[0] == '*' && s[1] == '/' then LosesNewline(false, false, s[2..])
    else BlockLoses(s[1..])
  }

  /** Every newline survives, except the last one of an input that ends inside a block comment. */
  lemma {:induction false} RestKeepsNewlines(inString: bool, escaped: bool, s: string)
    requires escaped ==> inString
    ensures Newlines(Rest(inString, escaped, s)) + (if LosesNewline(inString, escaped, s) then 1 else 0) == Newlines(s)
    decreases |s|, 1
  {
    if s == "" {
    } else if !inString && Opens(s) {
      if s[1] == '/' {
        LineKeepsNewlines(s[1..]);
        assert LineComment(s) == LineComment(s[1..]);
      } else {
        BlockKeepsNewlines(s[2..]);
        assert s[1..][1..] == s[2..];
      }
    } else {
      var in' := if inString then escaped || s[0] != '"' else s[0] == '"';
      var escaped' := inString && !escaped && s[0] == '\\';
      CopyStep(inString, escaped, s);
      RestKeepsNewlines(in', escaped', s[1..]);
      assert ([s[0]] + Rest(in', escaped', s[1..]))[1..] == Rest(in', escaped', s[1..]);
    }
  }

  lemma {:induction false} LineKeepsNewlines(s: string)
    ensures Newlines(LineComment(s)) + (if LineLoses(s) then 1 else 0) == Newlines(s)
    decreases |s|, 0
  {
    if s == "" {
    } else if s[0] == '\n' {
      RestKeepsNewlines(false, false, s[1..]);
      assert ("\n" + Code(s[1..]))[1..] == Code(s[1..]);
    } else {
      LineKeepsNewlines(s[1..]);
    }
  }

  lemma {:induction false} BlockKeepsNewlines(s: string)
    ensures Newlines(BlockComment(s)) + (if BlockLoses(s) then 1 else 0) == Newlines(s)
    decreases |s|, 0
  {
    if |s| < 2 {
    } else if s[0] == '*' && s[1] == '/' {
      RestKeepsNewlines(false, false, s[2..]);
      assert s[1..][1..] == s[2..];
    } else {
      BlockKeepsNewlines(s[1..]);
      if s[0] == '\n' {
        assert ("\n" + BlockComment(s[1..]))[1..] == BlockComment(s[1..]);
      } else {
        assert "" + BlockComment(s[1..]) == BlockComment(s[1..]);
      }
    }
  }

  lemma CodeKeepsNewlines(s: string)
    ensures Newlines(Code(s)) + (if LosesNewline(false, false, s) then 1 else 0) == Newlines(s)
  {
    RestKeepsNewlines(false, false, s);
  }

  /** The string literals of a text, read with comments skipped; an open one at the end counts. */
  function Literals(inString: bool, escaped: bool, open: string, s: string): seq<string>
    decreases |s|, 1
  {
    if s == "" then if inString then [open] else []
    else if inString then
      if !escaped && s[0] == '"' then [open + "\""] + Literals(false, false, "", s[1..])
      else Literals(true, !escaped && s[0] == '\\', open + [s[0]], s[1..])
    else if s[0] == '"' then Literals(true, false, "\"", s[1..])
    else if Opens(s) then
      if s[1] == '/' then LineLiterals(s) else BlockLiterals(s[2..])
    else Literals(false, false, "", s[1..])
  }

  function LineLiterals(s: string): seq<string>
    decreases |s|, 0
  {
    if s == "" then [] else if s[0] == '\n' then Literals(false, false, "", s[1..]) else LineLiterals(s[1..])
  }

  function BlockLiterals(s: string): seq<string>
    decreases |s|, 0
  {
    if |s| < 2 then []
    else if s[0] == '*' && s[1] == '/' then Literals(false, false, "", s[2..])
    else BlockLiterals(s[1..])
  }

  lemma {:induction false} RestKeepsLiterals(inString: bool, escaped: bool, open: string, s: string)
    requires escaped ==> inString
    ensures Literals(inString, escaped, open, Rest(inString, escaped, s)) == Literals(inString, escaped, open, s)
    decreases |s|, 1
  {
    if s == "" {
    } else if !inString && Opens(s) {
      if s[1] == '/' {
        LineKeepsLiterals(open, s);
      } else {
        BlockKeepsLiterals(open, s[2..]);
      }
    } else {
      var in' := if inString then escaped || s[0] != '"' else s[0] == '"';
      var escaped' := inString && !escaped && s[0] == '\\';
      var rest := Rest(in', escaped', s[1..]);
      CopyStep(inString, escaped, s);
      if !inString && s[0] == '/' && |s| > 1 {
        CodeKeepsHead(s[1..]);
      }
      assert ([s[0]] + rest)[1..] == rest;
      var open' := if !inString then if s[0] == '"' then "\"" else "" else if in' then open + [s[0]] else "";
      RestKeepsLiterals(in', escaped', open', s[1..]);
    }
  }

  lemma {:induction false} LineKeepsLiterals(open: string, s: string)
    ensures Literals(false, false, open, LineComment(s)) == LineLiterals(s)
    decreases |s|, 0
  {
    if s == "" {
    } else if s[0] == '\n' {
      RestKeepsLiterals(false, false, "", s[1..]);
      assert ("\n" + Code(s[1..]))[1..] == Code(s[1..]);
    } else {
      LineKeepsLiterals(open, s[1..]);
    }
  }

  lemma {:induction false} BlockKeepsLiterals(open: string, s: string)
    ensures Literals(false, false, open, BlockComment(s)) == BlockLiterals(s)
    decreases |s|, 0
  {
    if |s| < 2 {
    } else if s[0] == '*' && s[1] == '/' {
      RestKeepsLiterals(false, false, "", s[2..]);
      LiteralsIgnoreOpen(open, Code(s[2..]));
    } else {
      BlockKeepsLiterals("", s[1..]);
      if s[0] == '\n' {
        assert ("\n" + BlockComment(s[1..]))[1..] == BlockComment(s[1..]);
      } else {
        assert "" + BlockComment(s[1..]) == BlockComment(s[1..]);
        LiteralsIgnoreOpen(open, BlockComment(s[1..]));
      }
    }
  }

  /** Outside a string the open literal does not matter. */
  lemma LiteralsIgnoreOpen(open: string, s: string)
    ensures Literals(false, false, open, s) == Literals(false, false, "", s)
  {
  }

  /** The comment pass copies every string literal unchanged and in order. */
  lemma CodeKeepsLiterals(s: string)
    ensures Literals(false, false, "", Code(s)) == Literals(false, false, "", s)
  {
    RestKeepsLiterals(false, false, "", s);
  }

  // ---------- When nothing changes ----------

  predicate NoComment(inString: bool, escaped: bool, s: string)
    decreases |s|
  {
    s == "" || ((inString || !Opens(s))
    && NoComment(if inString then escaped || s[0] != '"' else s[0] == '"',
                 inString && !escaped && s[0] == '\\', s[1..]))
  }

  predicate NoTrailingComma(inString: bool, escaped: bool, s: string)
    decreases |s|
  {
    s == "" || (!(!inString && s[0] == ',' && ClosesNext(s[1..]))
    && NoTrailingComma(if inString then escaped || s[0] != '"' else s[0] == '"',
                       inString && !escaped && s[0] == '\\', s[1..]))
  }

  lemma {:induction false} CommentShrinks(s: string)
    ensures |LineComment(s)| <= |s| && |BlockComment(s)| <= |s|
    decreases |s|, 0
  {
    if s != "" {
      CommentShrinks(s[1..]);
      if s[0] == '\n' {
        RestShrinks(false, false, s[1..]);
      }
      if |s| > 1 && s[0] == '*' && s[1] == '/' {
        RestShrinks(false, false, s[2..]);
      }
    }
  }

  lemma {:induction false} RestShrinks(inString: bool, escaped: bool, s: string)
    requires escaped ==> inString
    ensures NoComment(inString, escaped, s) ==> Rest(inString, escaped, s) == s
    ensures !NoComment(inString, escaped, s) ==> |Rest(inString, escaped, s)| < |s|
    decreases |s|, 1
  {
    if s == "" {
    } else if !inString && Opens(s) {
      CommentShrinks(s[1..]);
      CommentShrinks(s[2..]);
      assert s[1] == '/' ==> LineComment(s) == LineComment(s[1..]);
    } else {
      CopyStep(inString, escaped, s);
      RestShrinks(if inString then escaped || s[0] != '"' else s[0] == '"',
                  inString && !escaped && s[0] == '\\', s[1..]);
    }
  }

  lemma {:induction false} CommasShrink(inString: bool, escaped: bool, s: string)
    requires escaped ==> inString
    ensures NoTrailingComma(inString, escaped, s) ==> Commas(inString, escaped, s) == s
    ensures !NoTrailingComma(inString, escaped, s) ==> |Commas(inString, escaped, s)| < |s|
    decreases |s|
  {
    if s != "" {
      CommasShrink(if inString then escaped || s[0] != '"' else s[0] == '"',
                   inString && !escaped && s[0] == '\\', s[1..]);
    }
  }

  /** A text is left as it is exactly when it has no comment and no trailing comma. */
  lemma StripIdentity(s: string)
    ensures Strip(s) == s <==> NoComment(false, false, s) && NoTrailingComma(false, false, s)
  {
    RestShrinks(false, false, s);
    CommasShrink(false, false, Code(s));
  }

  const JSON_SPACE := " \t\n\r"

  lemma {:induction false} SpaceThen(space: string, rest: string)
    requires forall c :: c in space ==> c in JSON_SPACE
    ensures ClosesNext(space + rest) == ClosesNext(rest)
    ensures Commas(false, false, space + rest) == space + Commas(false, false, rest)
    decreases |space|
  {
    if space == "" {
      assert space + rest == rest;
    } else {
      assert space[0] in JSON_SPACE && (space + rest)[1..] == space[1..] + rest;
      SpaceThen(space[1..], rest);
    }
  }

  /**
    Outside a string a comma goes exactly when the next character that is no JSON white space
    is a closing bracket; what stands between the two stays.
   */
  lemma CommaExactly(space: string, next: char, rest: string)
    requires (forall c :: c in space ==> c in JSON_SPACE) && next !in JSON_SPACE
    ensures Commas(false, false, "," + (space + ([next] + rest)))
         == (if next == '}' || next == ']' then "" else ",") + (space + Commas(false, false, [next] + rest))
    ensures Commas(false, false, "," + (space + "")) == "," + (space + "")
  {
    var text := "," + (space + ([next] + rest));
    assert text[1..] == space + ([next] + rest);
    SpaceThen(space, [next] + rest);
    SpaceThen(space, "");
    assert ("," + (space + ""))[1..] == space + "";
    assert ClosesNext([next] + rest) <==> next == '}' || next == ']' by {
      assert !IsWhite(next) by {
        assert ' ' in JSON_SPACE && '\t' in JSON_SPACE && '\n' in JSON_SPACE && '\r' in JSON_SPACE;
      }
    }
  }

  /** A second comma pass can remove more: of two commas only the last looks at the bracket. */
  lemma CommasNotIdempotent()
    ensures var once := Commas(false, false, "[,,]");
            once == "[,]" && Commas(false, false, once) == "[]"
  {
    assert "[,,]"[1..] == ",,]" && ",,]"[1..] == ",]" && ",]"[1..] == "]" && "]"[1..] == "" && "[,]"[1..] == ",]";
    assert ClosesNext("]") && !ClosesNext(",]");
    assert Commas(false, false, "]") == "]";
    assert Commas(false, false, ",]") == "]";
    assert Commas(false, false, ",,]") == ",]";
  }
}
