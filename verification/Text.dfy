/**
  The string helpers of the standard library that the modelled code calls: trimming,
  splitting, joining, and decimal printing and parsing.
 */
module Text {

  datatype Option<+T> = None | Some(value: T)

  function Min(a: int, b: int): int { if a <= b then a else b }

  function Max(a: int, b: int): int { if a >= b then a else b }

  predicate HasPrefix(s: string, p: string)
  {
    p <= s
  }

  predicate HasSuffix(s: string, p: string)
  {
    |p| <= |s| && s[|s| - |p|..] == p
  }

  /** Lower case, of the ASCII letters. */
  function ToLowerChar(c: char): char
  {
    if 'A' <= c <= 'Z' then c - 'A' + 'a' else c
  }

  function ToLower(s: string): (r: string)
    ensures |r| == |s| && forall i :: 0 <= i < |s| ==> r[i] == ToLowerChar(s[i])
  {
    seq(|s|, i requires 0 <= i < |s| => ToLowerChar(s[i]))
  }

  // ---------- Trimming ----------

  /** The white space that TrimSpace removes: the Unicode White_Space property. */
  predicate IsSpace(c: char)
  {
    || '\t' <= c <= '\r' || c == ' '
    || c == '\U{0085}' || c == '\U{00A0}' || c == '\U{1680}'
    || '\U{2000}' <= c <= '\U{200A}'
    || c == '\U{2028}' || c == '\U{2029}' || c == '\U{202F}' || c == '\U{205F}' || c == '\U{3000}'
  }

  function TrimLeft(s: string, cut: char -> bool): string
  {
    if s != "" && cut(s[0]) then TrimLeft(s[1..], cut) else s
  }

  function TrimRight(s: string, cut: char -> bool): string
  {
    if s != "" && cut(s[|s| - 1]) then TrimRight(s[..|s| - 1], cut) else s
  }

  function Trim(s: string, cut: char -> bool): string
  {
    TrimRight(TrimLeft(s, cut), cut)
  }

  function TrimSpace(s: string): string
  {
    Trim(s, IsSpace)
  }

  lemma {:induction false} TrimLeftSuffix(s: string, cut: char -> bool)
    ensures var r := TrimLeft(s, cut);
            && |r| <= |s| && r == s[|s| - |r|..]
            && (r == "" || !cut(r[0]))
            && forall i :: 0 <= i < |s| - |r| ==> cut(s[i])
  {
    if s != "" && cut(s[0]) {
      TrimLeftSuffix(s[1..], cut);
      assert forall i :: 1 <= i < |s| ==> s[i] == s[1..][i - 1];
    }
  }

  lemma {:induction false} TrimRightPrefix(s: string, cut: char -> bool)
    ensures var r := TrimRight(s, cut);
            && |r| <= |s| && r == s[..|r|]
            && (r == "" || !cut(r[|r| - 1]))
            && forall i :: |r| <= i < |s| ==> cut(s[i])
  {
    if s != "" && cut(s[|s| - 1]) {
      TrimRightPrefix(s[..|s| - 1], cut);
    }
  }

  /** Nothing to trim at either end. */
  predicate Trimmed(s: string, cut: char -> bool)
  {
    s == "" || (!cut(s[0]) && !cut(s[|s| - 1]))
  }

  lemma TrimIsTrimmed(s: string, cut: char -> bool)
    ensures Trimmed(Trim(s, cut), cut)
    ensures Trimmed(s, cut) ==> Trim(s, cut) == s
    ensures forall c :: c in Trim(s, cut) ==> c in s
  {
    var t := TrimLeft(s, cut);
    var r := TrimRight(t, cut);
    TrimLeftSuffix(s, cut);
    TrimRightPrefix(t, cut);
    assert r != "" ==> r[0] == t[0];
  }

  /** Trimming that keeps the length keeps the text. */
  lemma TrimShrinks(s: string, cut: char -> bool)
    ensures |Trim(s, cut)| <= |s|
    ensures |Trim(s, cut)| == |s| ==> Trim(s, cut) == s
  {
    TrimLeftSuffix(s, cut);
    TrimRightPrefix(TrimLeft(s, cut), cut);
  }

  /** Padding on the left does not change what is left after trimming. */
  lemma {:induction false} TrimPadding(pad: string, s: string, cut: char -> bool)
    requires forall c :: c in pad ==> cut(c)
    requires Trimmed(s, cut)
    ensures Trim(pad + s, cut) == s
  {
    if pad == "" {
      assert pad + s == s;
      TrimIsTrimmed(s, cut);
    } else {
      assert pad[0] in pad;
      assert (pad + s)[1..] == pad[1..] + s;
      forall c | c in pad[1..]
        ensures cut(c)
      {
        assert c in pad;
      }
      TrimPadding(pad[1..], s, cut);
    }
  }

  // ---------- Splitting and joining ----------

  /** The position of the first `c` in `s`, or the length of `s`. */
  function IndexOf(s: string, c: char): (i: nat)
    ensures i <= |s|
    ensures c !in s[..i]
    ensures i < |s| ==> s[i] == c
  {
    if s == "" || s[0] == c then 0 else 1 + IndexOf(s[1..], c)
  }

  lemma {:induction false} IndexOfConcat(a: string, b: string, c: char)
    requires c !in a
    ensures IndexOf(a + [c] + b, c) == |a|
    ensures IndexOf(a, c) == |a|
  {
    if a != "" {
      assert a[0] in a;
      assert forall x :: x in a[1..] ==> x in a;
      assert (a + [c] + b)[1..] == a[1..] + [c] + b;
      IndexOfConcat(a[1..], b, c);
    }
  }

  lemma {:induction false} IndexOfPresent(s: string, c: char)
    requires c in s
    ensures IndexOf(s, c) < |s|
  {
    if s[0] != c {
      IndexOfPresent(s[1..], c);
    }
  }

  /** The pieces between the separators; always one more than there are separators. */
  function Split(s: string, sep: char): (r: seq<string>)
    ensures |r| > 0
    decreases |s|
  {
    var i := IndexOf(s, sep);
    if i == |s| then [s] else [s[..i]] + Split(s[i + 1..], sep)
  }

  lemma SplitCons(a: string, b: string, sep: char)
    requires sep !in a
    ensures Split(a + [sep] + b, sep) == [a] + Split(b, sep)
  {
    IndexOfConcat(a, b, sep);
    assert (a + [sep] + b)[..|a|] == a;
    assert (a + [sep] + b)[|a| + 1..] == b;
  }

  lemma {:induction false} SplitPieces(s: string, sep: char)
    ensures forall p :: p in Split(s, sep) ==> sep !in p
    ensures forall p, c :: p in Split(s, sep) && c in p ==> c in s
    decreases |s|
  {
    var i := IndexOf(s, sep);
    if i < |s| {
      SplitPieces(s[i + 1..], sep);
      var rest := Split(s[i + 1..], sep);
      forall p | p in Split(s, sep)
        ensures sep !in p && forall c :: c in p ==> c in s
      {
        if p in rest {
          assert forall c :: c in p ==> c in s[i + 1..];
        } else {
          assert p == s[..i];
        }
      }
    }
  }

  function Join(parts: seq<string>, sep: string): string
  {
    if |parts| == 0 then ""
    else if |parts| == 1 then parts[0]
    else parts[0] + sep + Join(parts[1..], sep)
  }

  /** Lines as a log holds them: each one followed by a newline. */
  function JoinLines(lines: seq<string>): string
  {
    if |lines| == 0 then "" else lines[0] + "\n" + JoinLines(lines[1..])
  }

  lemma {:induction false} JoinLinesConcat(a: seq<string>, b: seq<string>)
    ensures JoinLines(a + b) == JoinLines(a) + JoinLines(b)
  {
    if a == [] {
      assert a + b == b;
    } else {
      assert (a + b)[1..] == a[1..] + b;
      JoinLinesConcat(a[1..], b);
    }
  }

  // ---------- Decimal numbers ----------

  function Digit(d: int): char
    requires 0 <= d < 10
  {
    '0' + d as char
  }

  predicate IsDigit(c: char) { '0' <= c <= '9' }

  function Itoa(n: nat): (s: string)
    ensures |s| > 0 && forall c :: c in s ==> IsDigit(c)
  {
    if n < 10 then [Digit(n)] else Itoa(n / 10) + [Digit(n % 10)]
  }

  /** The value of a run of digits. */
  function DigitsValue(s: string): (n: nat)
    requires forall c :: c in s ==> IsDigit(c)
  {
    if s == "" then 0
    else
      assert IsDigit(s[|s| - 1]);
      10 * DigitsValue(s[..|s| - 1]) + (s[|s| - 1] as int - '0' as int)
  }

  lemma {:induction false} ItoaValue(n: nat)
    ensures DigitsValue(Itoa(n)) == n
  {
    if n >= 10 {
      ItoaValue(n / 10);
      assert Itoa(n)[..|Itoa(n)| - 1] == Itoa(n / 10);
    }
  }

  lemma ItoaInjective(a: nat, b: nat)
    requires Itoa(a) == Itoa(b)
    ensures a == b
  {
    ItoaValue(a);
    ItoaValue(b);
  }

  const INT64_MAX := 0x7FFF_FFFF_FFFF_FFFF

  /** strconv.Atoi: an optional sign, at least one digit, and a value that fits 64 bits. */
  function Atoi(s: string): Option<int>
  {
    var negative := s != "" && s[0] == '-';
    var digits := if s != "" && (s[0] == '-' || s[0] == '+') then s[1..] else s;
    if digits == "" || exists c :: c in digits && !IsDigit(c) then None
    else
      var v: int := if negative then -(DigitsValue(digits) as int) else DigitsValue(digits);
      if -INT64_MAX - 1 <= v <= INT64_MAX then Some(v) else None
  }
}
