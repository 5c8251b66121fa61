/**
  What a run reads back from a log that the framing command of many runs has written
  (agent_run_logs.go:9-26 for the writer, 81-92 and 113-177 for the reader).
 */
module FrameRoundTrip {
  import opened Text
  import opened FramedLog

  /** A piece of a log: a stray line, or the whole output of one framed command. */
  datatype Item =
    | Noise(line: string)
    | Framed(run: string, body: seq<string>, code: nat)

  function ItemLines(item: Item): seq<string>
  {
    match item
    case Noise(line) => [line]
    case Framed(run, body, code) => [BeginSentinel(run)] + body + [EndLine(run, code)]
  }

  function LogLines(items: seq<Item>): seq<string>
  {
    if items == [] then [] else ItemLines(items[0]) + LogLines(items[1..])
  }

  // ---------- Sentinels of different runs ----------

  /** Two strings with the same text up to the first space have the same text before it. */
  lemma SameUpToSpace(a: string, b: string, x: string, y: string)
    requires ' ' !in a && ' ' !in b && a + " " + x == b + " " + y
    ensures a == b
  {
    IndexOfConcat(a, x, ' ');
    IndexOfConcat(b, y, ' ');
    assert a + [' '] + x == a + " " + x && b + [' '] + y == b + " " + y;
    assert (a + " " + x)[..|a|] == a && (b + " " + y)[..|b|] == b;
  }

  const END_MARK := "__HETCHY_RUN_END "
  const BEGIN_MARK := "__HETCHY_RUN_BEGIN "

  lemma MarksDiffer(a: string, b: string)
    ensures BEGIN_MARK + a != END_MARK + b
  {
    assert (BEGIN_MARK + a)[13] == 'B' && (END_MARK + b)[13] == 'E';
  }

  lemma BeginReadsAs(r: string, run: string)
    ensures Classify(r, BeginSentinel(run)) == if r == run then Begin else Other
  {
    var line := BeginSentinel(run);
    if line == BeginSentinel(r) {
      assert line == BEGIN_MARK + (run + "__") && BeginSentinel(r) == BEGIN_MARK + (r + "__");
      assert run + "__" == line[|BEGIN_MARK|..] == r + "__";
      assert run == (run + "__")[..|run + "__"| - 2] == (r + "__")[..|r + "__"| - 2] == r;
    }
    if HasPrefix(line, EndPrefix(r)) {
      assert line == END_MARK + (r + " " + line[|EndPrefix(r)|..]);
      assert line == BEGIN_MARK + (run + "__");
      MarksDiffer(run + "__", r + " " + line[|EndPrefix(r)|..]);
    }
  }

  lemma Between(prefix: string, middle: string, suffix: string)
    ensures var s := prefix + middle + suffix;
            && prefix <= s && s[|prefix|..] == middle + suffix
            && (middle + suffix)[..|middle + suffix| - |suffix|] == middle
            && (middle + suffix)[|middle + suffix| - |suffix|..] == suffix
  {
  }

  lemma DigitsParse(code: nat)
    requires code <= INT64_MAX
    ensures Atoi(TrimSpace(Itoa(code))) == Some(code)
  {
    hide Trim, Itoa, DigitsValue;
    var digits := Itoa(code);
    assert digits[0] in digits && digits[|digits| - 1] in digits;
    TrimIsTrimmed(digits, IsSpace);
    ItoaValue(code);
  }

  /** Printing an exit status and reading it back. */
  lemma ExitCodeRoundTrip(run: string, code: nat)
    requires code <= INT64_MAX
    ensures ParseExitCode(run, EndLine(run, code)) == Some(code)
  {
    hide EndPrefix, Itoa, Atoi, TrimSpace;
    Between(EndPrefix(run), Itoa(code), "__");
    DigitsParse(code);
  }

  /** A status with a sign is read as well, as far as it fits 64 bits. */
  lemma SignedStatusReads(run: string, n: nat)
    ensures ParseExitCode(run, EndPrefix(run) + ("-" + Itoa(n)) + "__")
         == if n <= 0x8000_0000_0000_0000 then Some(-(n as int)) else None
    ensures ParseExitCode(run, EndPrefix(run) + ("+" + Itoa(n)) + "__")
         == if n <= 0x7FFF_FFFF_FFFF_FFFF then Some(n) else None
  {
    hide EndPrefix, Itoa, Atoi, Trim;
    Between(EndPrefix(run), "-" + Itoa(n), "__");
    Between(EndPrefix(run), "+" + Itoa(n), "__");
    SignedParse('-', n);
    SignedParse('+', n);
  }

  lemma SignedParse(sign: char, n: nat)
    requires sign == '-' || sign == '+'
    ensures var v: int := if sign == '-' then -(n as int) else n;
            Atoi(TrimSpace([sign] + Itoa(n)))
              == if -0x8000_0000_0000_0000 <= v <= 0x7FFF_FFFF_FFFF_FFFF then Some(v) else None
  {
    hide Trim, Itoa, DigitsValue;
    var s := [sign] + Itoa(n);
    assert s[|s| - 1] in Itoa(n);
    TrimIsTrimmed(s, IsSpace);
    assert s[1..] == Itoa(n);
    ItoaValue(n);
  }

  lemma EndReadsAs(r: string, run: string, code: nat)
    requires ' ' !in r && ' ' !in run && code <= INT64_MAX
    ensures Classify(r, EndLine(run, code)) == if r == run then End(code) else Other
  {
    var line := EndLine(run, code);
    assert line == END_MARK + (run + " " + (Itoa(code) + "__"));
    assert BeginSentinel(r) == BEGIN_MARK + (r + "__");
    MarksDiffer(r + "__", run + " " + (Itoa(code) + "__"));
    if HasPrefix(line, EndPrefix(r)) {
      var y := line[|EndPrefix(r)|..];
      assert line == END_MARK + (r + " " + y);
      assert line[|END_MARK|..] == run + " " + (Itoa(code) + "__") == r + " " + y;
      SameUpToSpace(run, r, Itoa(code) + "__", y);
    }
    if r == run {
      ExitCodeRoundTrip(run, code);
      assert line[|line| - 2..] == "__";
    }
  }

  lemma SentinelsAreClean(run: string, code: nat)
    ensures Sanitize(BeginSentinel(run)) == BeginSentinel(run)
    ensures Sanitize(EndLine(run, code)) == EndLine(run, code)
  {
    assert BeginSentinel(run)[0] == '_' && EndLine(run, code)[0] == '_';
  }

  /** A reader of run `r` tells its own sentinels from those of other runs. */
  ghost predicate Speaks(read: Reader, r: string)
  {
    && (forall run :: read(BeginSentinel(run)) == Read(BeginSentinel(run), if r == run then Begin else Other))
    && (forall run, code: nat :: ' ' !in run && code <= INT64_MAX ==>
          read(EndLine(run, code)) == Read(EndLine(run, code), if r == run then End(code) else Other))
  }

  lemma ReaderSpeaks(r: string)
    requires ' ' !in r
    ensures Speaks(ReaderOf(r), r)
  {
    forall run
      ensures ReaderOf(r)(BeginSentinel(run)) == Read(BeginSentinel(run), if r == run then Begin else Other)
    {
      SentinelsAreClean(run, 0);
      BeginReadsAs(r, run);
    }
    forall run, code: nat | ' ' !in run && code <= INT64_MAX
      ensures ReaderOf(r)(EndLine(run, code)) == Read(EndLine(run, code), if r == run then End(code) else Other)
    {
      SentinelsAreClean(run, code);
      EndReadsAs(r, run, code);
    }
  }

  // ---------- The round trip ----------

  /** A line that is no sentinel of the reader's run. */
  predicate Quiet(read: Reader, line: string)
  {
    read(line).kind == Other
  }

  /** Run ids have no spaces, stray lines and bodies hold no sentinel of the run, and statuses fit a number. */
  predicate ItemOk(read: Reader, item: Item)
  {
    match item
    case Noise(line) => Quiet(read, line)
    case Framed(run, body, code) => ' ' !in run && code <= INT64_MAX && forall l :: l in body ==> Quiet(read, l)
  }

  /** One item as run `r` is meant to see it: its own body, sanitized, and its status. */
  function MeantItem(read: Reader, r: string, f: Frame, item: Item): (Frame, seq<string>)
  {
    if item.Framed? && item.run == r then (Frame(false, true, true, item.code), Cleaned(read, item.body)) else (f, [])
  }

  function Meant(read: Reader, r: string, f: Frame, items: seq<Item>): (Frame, seq<string>)
    decreases |items|
  {
    if items == [] then (f, [])
    else
      var first := MeantItem(read, r, f, items[0]);
      var rest := Meant(read, r, first.0, items[1..]);
      (rest.0, first.1 + rest.1)
  }

  function Cleaned(read: Reader, body: seq<string>): seq<string>
  {
    if body == [] then [] else [read(body[0]).line] + Cleaned(read, body[1..])
  }

  lemma QuietLine(read: Reader, s: Router, line: string)
    requires Quiet(read, line)
    ensures var s' := RouteLine(read, s, line);
            s'.frame == s.frame && s'.lines == if s.frame.inFrame then s.lines + [read(line).line] else s.lines
  {
  }

  /** Quiet lines inside a frame are handed on, outside it they are not. */
  lemma {:induction false} QuietLines(read: Reader, s: Router, body: seq<string>)
    requires forall l :: l in body ==> Quiet(read, l)
    ensures var s' := RouteLines(read, s, body);
            s'.frame == s.frame && s'.lines == if s.frame.inFrame then s.lines + Cleaned(read, body) else s.lines
    decreases |body|
  {
    hide Quiet, RouteLine;
    if body == [] {
      assert s.lines + [] == s.lines;
    } else {
      assert body[0] in body && forall l :: l in body[1..] ==> l in body;
      QuietLine(read, s, body[0]);
      QuietLines(read, RouteLine(read, s, body[0]), body[1..]);
      Assoc(s.lines, [read(body[0]).line], Cleaned(read, body[1..]));
    }
  }

  lemma OneLine(read: Reader, s: Router, line: string)
    ensures RouteLines(read, s, [line]) == RouteLine(read, s, line)
  {
    assert [line][1..] == [];
    assert RouteLines(read, RouteLine(read, s, line), []) == RouteLine(read, s, line);
  }

  lemma FramedItem(read: Reader, r: string, s: Router, run: string, body: seq<string>, code: nat)
    requires Speaks(read, r) && ItemOk(read, Framed(run, body, code)) && !s.frame.inFrame
    ensures var s' := RouteLines(read, s, ItemLines(Framed(run, body, code)));
            && s'.frame == (if run == r then Frame(false, true, true, code) else s.frame)
            && s'.lines == (if run == r then s.lines + Cleaned(read, body) else s.lines)
  {
    var begin, end := BeginSentinel(run), EndLine(run, code);
    RouteConcat(read, s, [begin] + body, [end]);
    RouteConcat(read, s, [begin], body);
    OneLine(read, s, begin);
    var s1 := RouteLine(read, s, begin);
    QuietLines(read, s1, body);
    var s2 := RouteLines(read, s1, body);
    OneLine(read, s2, end);
    assert read(begin) == Read(begin, if r == run then Begin else Other);
    assert read(end) == Read(end, if r == run then End(code) else Other);
  }

  lemma OneItem(read: Reader, r: string, s: Router, item: Item)
    requires Speaks(read, r) && !s.frame.inFrame && ItemOk(read, item)
    ensures var s' := RouteLines(read, s, ItemLines(item));
            var meant := MeantItem(read, r, s.frame, item);
            s'.frame == meant.0 && s'.lines == s.lines + meant.1
  {
    match item {
      case Noise(line) => QuietLines(read, s, [line]);
      case Framed(run, body, code) => FramedItem(read, r, s, run, body, code);
    }
  }

  lemma {:induction false} RouterRoundTrip(read: Reader, r: string, s: Router, items: seq<Item>)
    requires Speaks(read, r) && !s.frame.inFrame
    requires forall i :: i in items ==> ItemOk(read, i)
    ensures var s' := RouteLines(read, s, LogLines(items));
            var meant := Meant(read, r, s.frame, items);
            s'.frame == meant.0 && s'.lines == s.lines + meant.1
    decreases |items|
  {
    hide ItemOk, ItemLines, Speaks;
    if items != [] {
      assert ItemOk(read, items[0]);
      var s1 := RouteLines(read, s, ItemLines(items[0]));
      RouteConcat(read, s, ItemLines(items[0]), LogLines(items[1..]));
      OneItem(read, r, s, items[0]);
      RouterRoundTrip(read, r, s1, items[1..]);
      var first, rest := MeantItem(read, r, s.frame, items[0]).1, Meant(read, r, s1.frame, items[1..]).1;
      Assoc(s.lines, first, rest);
    }
  }

  /**
    Round trip and isolation: from the text of any frames of any runs and stray lines, the
    replay for run `r` shows exactly the sanitized body lines of its own frames, in order, and
    ends outside a frame with the status that its last frame printed.
   */
  lemma FrameRoundTrips(r: string, items: seq<Item>, through: int)
    requires ' ' !in r
    requires forall i :: i in items ==> ItemOk(ReaderOf(r), i)
    requires NoNewlines(LogLines(items))
    ensures var p := ReplayFrom(ReaderOf(r), JoinLines(LogLines(items)), 0, through, NO_FRAME);
            var meant := Meant(ReaderOf(r), r, NO_FRAME, items);
            && LinesOf(p.shown) == meant.1 && p.frame == meant.0
            && (p.frame.seenBegin <==> exists i :: i in items && i.Framed? && i.run == r)
            && (p.frame.seenEnd <==> p.frame.seenBegin) && !p.frame.inFrame
  {
    var read := ReaderOf(r);
    var lines := LogLines(items);
    ReaderRemoves(r);
    ReaderSpeaks(r);
    RouterRoundTrip(read, r, NEW_ROUTER, items);
    RouterRefinesReplay(read, through, NEW_ROUTER, NEW_REPLAY, lines);
    ReplayTextLines(read, through, NEW_REPLAY, lines, "");
    assert JoinLines(lines) + "" == JoinLines(lines);
    MeantFlags(read, r, NO_FRAME, items);
  }

  lemma {:induction false} MeantFlags(read: Reader, r: string, f: Frame, items: seq<Item>)
    requires !f.inFrame && f.seenBegin == f.seenEnd
    ensures var g := Meant(read, r, f, items).0;
            && !g.inFrame && g.seenBegin == g.seenEnd
            && (g.seenBegin <==> f.seenBegin || exists i :: i in items && i.Framed? && i.run == r)
    decreases |items|
  {
    if items != [] {
      var mine := items[0].Framed? && items[0].run == r;
      MeantFlags(read, r, if mine then Frame(false, true, true, items[0].code) else f, items[1..]);
      assert forall i :: i in items <==> i == items[0] || i in items[1..];
    }
  }

  // ---------- Where it stops ----------

  lemma {:induction false} SanitizeStops(piece: string, line: string)
    requires line != "" && !IsControl(line[0])
    ensures Sanitize(piece + line) == Sanitize(piece) + line
  {
    if piece == "" {
      assert piece + line == line;
    } else if IsControl(piece[0]) {
      assert (piece + line)[1..] == piece[1..] + line;
      SanitizeStops(piece[1..], line);
    }
  }

  lemma GluedIsNoBegin(r: string, piece: string, code: nat)
    ensures piece + EndLine(r, code) != BeginSentinel(r)
  {
    var line := EndLine(r, code);
    assert |piece + line| == |piece| + |BeginSentinel(r)| - 1 + |Itoa(code)|;
    if piece == "" {
      assert piece + line == line;
      assert line[13] == 'E' && BeginSentinel(r)[13] == 'B';
    }
  }

  lemma GluedReadsAs(r: string, piece: string, code: nat)
    ensures var glued := Sanitize(piece + EndLine(r, code));
            if HasPrefix(glued, EndPrefix(r)) then Classify(r, glued).End? else Classify(r, glued) == Other
  {
    var line := EndLine(r, code);
    assert line[0] == '_';
    SanitizeStops(piece, line);
    GluedIsNoBegin(r, Sanitize(piece), code);
    var glued := Sanitize(piece) + line;
    assert glued[|glued| - 2..] == "__";
  }

  /**
    A body that does not end in a newline glues its last piece to the end sentinel. The run
    then sees its end only if the two, control bytes in front removed, start like its end
    line; otherwise it reads them as one line of output and is left inside the frame.
   */
  lemma UnterminatedBodyLosesEnd(r: string, piece: string, code: nat)
    ensures var glued := Sanitize(piece + EndLine(r, code));
            var s := RouteLines(ReaderOf(r), NEW_ROUTER, [BeginSentinel(r), piece + EndLine(r, code)]);
            && (s.frame.seenEnd <==> HasPrefix(glued, EndPrefix(r)))
            && (!s.frame.seenEnd ==> s.frame.inFrame && s.lines == [glued])
  {
    hide Classify, Sanitize, EndLine, BeginSentinel, EndPrefix;
    var read := ReaderOf(r);
    var begin, last := BeginSentinel(r), piece + EndLine(r, code);
    SentinelsAreClean(r, code);
    BeginReadsAs(r, r);
    GluedReadsAs(r, piece, code);
    assert read(begin) == Read(begin, Begin);
    OneLine(read, RouteLine(read, NEW_ROUTER, begin), last);
    assert [begin, last][1..] == [last];
  }

  /**
    An end sentinel whose status does not parse still ends the frame, with status zero; so a
    status of zero says no more than that the end line was there.
   */
  lemma GarbledStatusReadsAsZero(r: string, digits: string)
    requires Atoi(TrimSpace(digits)) == None
    ensures ParseExitCode(r, EndPrefix(r) + digits + "__") == None
    ensures Classify(r, EndPrefix(r) + digits + "__") == End(0)
  {
    hide TrimSpace, Atoi;
    var line := EndPrefix(r) + digits + "__";
    var rest := line[|EndPrefix(r)|..];
    assert rest == digits + "__";
    assert rest[|rest| - 2..] == "__" && rest[..|rest| - 2] == digits;
    assert line[|line| - 2..] == "__";
    assert line == END_MARK + (r + " " + rest);
    assert BeginSentinel(r) == BEGIN_MARK + (r + "__");
    MarksDiffer(r + "__", r + " " + rest);
  }
}
