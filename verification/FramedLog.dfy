/**
  The framed run log (agent_run_logs.go): the live router, the recovery replay, and the
  framing they both read. A log is a sequence of bytes, written here as characters.
 */
module FramedLog {
  import opened Text

  // ---------- The wire format ----------

  function BeginSentinel(run: string): string
  {
    "__HETCHY_RUN_BEGIN " + run + "__"
  }

  function EndPrefix(run: string): string
  {
    "__HETCHY_RUN_END " + run + " "
  }

  /** The last line that the framing command prints for an exit status. */
  function EndLine(run: string, code: nat): string
  {
    EndPrefix(run) + Itoa(code) + "__"
  }

  predicate IsControl(c: char) { c < ' ' && c != '\t' }

  function Sanitize(line: string): string
  {
    TrimLeft(line, IsControl)
  }

  function ParseExitCode(run: string, line: string): Option<int>
  {
    if !HasPrefix(line, EndPrefix(run)) || !HasSuffix(line[|EndPrefix(run)|..], "__") then None
    else
      var rest := line[|EndPrefix(run)|..];
      Atoi(TrimSpace(rest[..|rest| - 2]))
  }

  datatype LineKind = Begin | End(code: int) | Other

  /** What a sanitized line means to a run. */
  function Classify(run: string, line: string): LineKind
  {
    if line == BeginSentinel(run) then Begin
    else if HasPrefix(line, EndPrefix(run)) && HasSuffix(line, "__") then
      End(match ParseExitCode(run, line) case Some(code) => code case None => 0)
    else Other
  }

  /** A raw line as a run reads it: its sanitized text and what that means. */
  datatype Read = Read(line: string, kind: LineKind)

  type Reader = string -> Read

  function ReaderOf(run: string): Reader
  {
    raw => Read(Sanitize(raw), Classify(run, Sanitize(raw)))
  }

  /** What the proofs below need of a reader: it only ever removes bytes. */
  ghost predicate Removes(read: Reader)
  {
    forall raw :: |read(raw).line| <= |raw| && (|read(raw).line| == |raw| <==> read(raw).line == raw)
  }

  lemma ReaderRemoves(run: string)
    ensures Removes(ReaderOf(run))
  {
    forall raw
      ensures |Sanitize(raw)| <= |raw| && (|Sanitize(raw)| == |raw| <==> Sanitize(raw) == raw)
    {
      TrimLeftSuffix(raw, IsControl);
    }
  }

  /** Sanitizing takes the control bytes off the front of a line, tabs excepted, and nothing else. */
  lemma SanitizeExactly(line: string)
    ensures var r := Sanitize(line);
            && |r| <= |line| && r == line[|line| - |r|..]
            && (forall i :: 0 <= i < |line| - |r| ==> line[i] < ' ' && line[i] != '\t')
            && (r == "" || r[0] >= ' ' || r[0] == '\t')
  {
    TrimLeftSuffix(line, IsControl);
  }

  datatype Frame = Frame(inFrame: bool, seenBegin: bool, seenEnd: bool, exitCode: int)

  const NO_FRAME := Frame(false, false, false, 0)

  function Advance(f: Frame, kind: LineKind): Frame
  {
    match kind
    case Begin => f.(inFrame := true, seenBegin := true)
    case End(code) => f.(inFrame := false, seenEnd := true, exitCode := code)
    case Other => f
  }

  /** The line is output of the run, to be handed on. */
  predicate Emits(f: Frame, kind: LineKind)
  {
    kind == Other && f.inFrame
  }

  // ---------- The live router ----------

  /** A router's fields, and the calls it has made to onLine and onCursor. */
  datatype Router = Router(frame: Frame, cursor: int, lines: seq<string>, marks: seq<int>)

  const NEW_ROUTER := Router(NO_FRAME, 0, [], [])

  function RouteLine(read: Reader, r: Router, raw: string): Router
  {
    var Read(line, kind) := read(raw);
    var cursor := r.cursor + |line| + 1;
    Router(Advance(r.frame, kind), cursor,
           if Emits(r.frame, kind) then r.lines + [line] else r.lines,
           r.marks + [cursor])
  }

  function RouteLines(read: Reader, r: Router, raws: seq<string>): Router
    decreases |raws|
  {
    if raws == [] then r else RouteLines(read, RouteLine(read, r, raws[0]), raws[1..])
  }

  /** Where each line ends: the lengths of the lines up to it, as they are read, and a newline for each. */
  function LineEnds(read: Reader, start: int, raws: seq<string>): seq<int>
    decreases |raws|
  {
    if raws == [] then []
    else
      var end := start + |read(raws[0]).line| + 1;
      [end] + LineEnds(read, end, raws[1..])
  }

  /** The router reports its cursor once for every line, and each time the end of that line. */
  lemma {:induction false} RouterMarks(read: Reader, r: Router, raws: seq<string>)
    ensures var ends := LineEnds(read, r.cursor, raws);
            && RouteLines(read, r, raws).marks == r.marks + ends && |ends| == |raws|
            && RouteLines(read, r, raws).cursor == if raws == [] then r.cursor else ends[|raws| - 1]
    decreases |raws|
  {
    hide Advance, Emits;
    if raws == [] {
      assert r.marks + [] == r.marks;
    } else {
      var r1 := RouteLine(read, r, raws[0]);
      var end := r.cursor + |read(raws[0]).line| + 1;
      RouterMarks(read, r1, raws[1..]);
      assert r1.cursor == end && r1.marks == r.marks + [end];
      Assoc(r.marks, [end], LineEnds(read, end, raws[1..]));
    }
  }

  /** The cursor that was saved: the last one reported. */
  function SavedCursor(r: Router): int
  {
    if r.marks == [] then 0 else r.marks[|r.marks| - 1]
  }

  lemma SavedIsCursor(read: Reader, raws: seq<string>)
    ensures SavedCursor(RouteLines(read, NEW_ROUTER, raws)) == RouteLines(read, NEW_ROUTER, raws).cursor
  {
    hide RouteLines, LineEnds;
    RouterMarks(read, NEW_ROUTER, raws);
  }

  class FrameRouter {
    const runID: string
    const read: Reader
    var cursor: int
    var inFrame: bool
    var seenBegin: bool
    var seenEnd: bool
    var exitCode: int
    var lines: seq<string>
    var marks: seq<int>

    constructor (runID: string)
      ensures State() == NEW_ROUTER && this.runID == runID && read == ReaderOf(runID)
    {
      this.runID, read := runID, ReaderOf(runID);
      cursor, inFrame, seenBegin, seenEnd, exitCode := 0, false, false, false, 0;
      lines, marks := [], [];
    }

    function State(): Router
      reads this
    {
      Router(Frame(inFrame, seenBegin, seenEnd, exitCode), cursor, lines, marks)
    }

    method MarkCursor()
      modifies this`marks
      ensures marks == old(marks) + [cursor]
    {
      marks := marks + [cursor];
    }

    method Line(raw: string)
      modifies this
      ensures State() == RouteLine(read, old(State()), raw)
    {
      var Read(line, kind) := read(raw);
      cursor := cursor + |line| + 1;
      match kind {
        case Begin =>
          inFrame := true;
          seenBegin := true;
        case End(code) =>
          inFrame := false;
          seenEnd := true;
          exitCode := code;
        case Other =>
          if inFrame {
            lines := lines + [line];
          }
      }
      MarkCursor();
    }
  }

  // ---------- The recovery replay ----------

  /** One call of onLine, with the suppression that was set for it. */
  datatype Shown = Shown(line: string, suppressed: bool)

  datatype Replay = Replay(frame: Frame, cursor: int, shown: seq<Shown>, marks: seq<int>)

  const NEW_REPLAY := Replay(NO_FRAME, 0, [], [])

  /** One line of `bytes` bytes, its newline included when it has one. */
  function ReplayLine(read: Reader, through: int, r: Replay, raw: string, bytes: nat): Replay
  {
    var Read(line, kind) := read(raw);
    var cursor := r.cursor + bytes;
    Replay(Advance(r.frame, kind), cursor,
           if Emits(r.frame, kind) then r.shown + [Shown(line, r.cursor < through)] else r.shown,
           if kind != Other || r.frame.inFrame then r.marks + [cursor] else r.marks)
  }

  function ReplayText(read: Reader, through: int, r: Replay, text: string): Replay
    decreases |text|
  {
    if text == "" then r
    else
      var i := IndexOf(text, '\n');
      if i == |text| then ReplayLine(read, through, r, text, |text|)
      else ReplayText(read, through, ReplayLine(read, through, r, text[..i], i + 1), text[i + 1..])
  }

  /** replayHetchyFramedLogState from a cursor and a state. */
  function ReplayFrom(read: Reader, text: string, start: int, through: int, state: Frame): Replay
  {
    ReplayText(read, through, Replay(state, start, [], []), text)
  }

  /** Cutting the first line, with its newline if it has one, off a log text. */
  predicate FirstLine(text: string, raw: string, bytes: nat, rest: string)
  {
    var next := IndexOf(text, '\n');
    && text != "" && raw == text[..next]
    && bytes == (if next < |text| then next + 1 else next)
    && rest == text[bytes..]
  }

  lemma ReplayTextStep(read: Reader, through: int, r: Replay, text: string, raw: string, bytes: nat, rest: string)
    requires FirstLine(text, raw, bytes, rest)
    ensures ReplayText(read, through, r, text)
         == ReplayText(read, through, ReplayLine(read, through, r, raw, bytes), rest)
    ensures |rest| < |text|
  {
    if bytes == |raw| {
      assert text[..|text|] == text;
    }
  }

  method CutLine(text: string) returns (raw: string, bytes: nat, rest: string)
    requires text != ""
    ensures FirstLine(text, raw, bytes, rest)
  {
    var next := IndexOf(text, '\n');
    if next == |text| {
      return text, next, "";
    }
    return text[..next], next + 1, text[next + 1..];
  }

  /** One turn of the replay loop; the gate keeps what it was last set to, for the last line shown. */
  method ReplayTurn(read: Reader, suppressThrough: int, frame: Frame, cursor: int, shown: seq<Shown>, marks: seq<int>,
                    gate: bool, raw: string, lineBytes: nat)
    returns (frame': Frame, cursor': int, shown': seq<Shown>, marks': seq<int>, gate': bool)
    ensures gate' == if |shown'| > |shown| then shown'[|shown|].suppressed else gate
    ensures Replay(frame', cursor', shown', marks')
         == ReplayLine(read, suppressThrough, Replay(frame, cursor, shown, marks), raw, lineBytes)
  {
    frame', shown', marks', gate' := frame, shown, marks, gate;
    var lineStart := cursor;
    cursor' := cursor + lineBytes;
    var Read(line, kind) := read(raw);
    match kind {
      case Begin =>
        frame' := frame.(inFrame := true, seenBegin := true);
      case End(code) =>
        frame' := frame.(inFrame := false, seenEnd := true, exitCode := code);
      case Other =>
        if frame.inFrame {
          gate' := lineStart < suppressThrough;
          shown' := shown + [Shown(line, gate')];
        }
    }
    if kind != Other || frame.inFrame {
      marks' := marks + [cursor'];
    }
  }

  /** The replay loop; the gate ends unsuppressed. */
  method ReplayFramedLog(read: Reader, logText: string, startCursor: int, suppressThrough: int, state: Frame)
    returns (result: Replay, gate: bool)
    ensures result == ReplayFrom(read, logText, startCursor, suppressThrough, state)
    ensures !gate
  {
    var frame := state;
    var cursor := startCursor;
    var shown: seq<Shown>, marks: seq<int> := [], [];
    var text := logText;
    gate := false;
    ghost var whole := ReplayFrom(read, logText, startCursor, suppressThrough, state);
    while |text| > 0
      invariant whole == ReplayText(read, suppressThrough, Replay(frame, cursor, shown, marks), text)
      invariant gate == (shown != [] && shown[|shown| - 1].suppressed)
      decreases |text|
    {
      var raw, lineBytes, rest := CutLine(text);
      ReplayTextStep(read, suppressThrough, Replay(frame, cursor, shown, marks), text, raw, lineBytes, rest);
      text := rest;
      frame, cursor, shown, marks, gate :=
        ReplayTurn(read, suppressThrough, frame, cursor, shown, marks, gate, raw, lineBytes);
    }
    gate := false;
    result := Replay(frame, cursor, shown, marks);
  }

  function ReplayLines(read: Reader, through: int, r: Replay, raws: seq<string>): Replay
    decreases |raws|
  {
    if raws == [] then r
    else ReplayLines(read, through, ReplayLine(read, through, r, raws[0], |raws[0]| + 1), raws[1..])
  }

  /** The lines for which the replay reports a cursor: the sentinels, and the lines in a frame. */
  function HandledEnds(read: Reader, f: Frame, start: int, raws: seq<string>): seq<int>
    decreases |raws|
  {
    if raws == [] then []
    else
      var kind, end := read(raws[0]).kind, start + |raws[0]| + 1;
      (if kind == Other && !f.inFrame then [] else [end]) + HandledEnds(read, Advance(f, kind), end, raws[1..])
  }

  lemma OneReplayMark(read: Reader, through: int, r: Replay, raw: string)
    ensures var kind, r1 := read(raw).kind, ReplayLine(read, through, r, raw, |raw| + 1);
            && r1.frame == Advance(r.frame, kind) && r1.cursor == r.cursor + |raw| + 1
            && r1.marks == r.marks + if kind == Other && !r.frame.inFrame then [] else [r1.cursor]
  {
    assert r.marks + [] == r.marks;
  }

  /** For each of them the replay reports its end in the log, and for no other line. */
  lemma {:induction false} ReplayMarks(read: Reader, through: int, r: Replay, raws: seq<string>)
    ensures ReplayLines(read, through, r, raws).marks == r.marks + HandledEnds(read, r.frame, r.cursor, raws)
    decreases |raws|
  {
    hide Advance, ReplayLine;
    if raws == [] {
      assert r.marks + [] == r.marks;
    } else {
      var r1 := ReplayLine(read, through, r, raws[0], |raws[0]| + 1);
      OneReplayMark(read, through, r, raws[0]);
      ReplayMarks(read, through, r1, raws[1..]);
      var here := if read(raws[0]).kind == Other && !r.frame.inFrame then [] else [r1.cursor];
      Assoc(r.marks, here, HandledEnds(read, r1.frame, r1.cursor, raws[1..]));
    }
  }

  predicate NoNewlines(raws: seq<string>)
  {
    forall l :: l in raws ==> '\n' !in l
  }

  /** Replaying the text of a list of lines is replaying the lines. */
  lemma {:induction false} ReplayTextLines(read: Reader, through: int, r: Replay, raws: seq<string>, rest: string)
    requires NoNewlines(raws)
    ensures ReplayText(read, through, r, JoinLines(raws) + rest)
         == ReplayText(read, through, ReplayLines(read, through, r, raws), rest)
    decreases |raws|
  {
    if raws == [] {
      assert JoinLines(raws) + rest == rest;
    } else {
      var tail := JoinLines(raws[1..]) + rest;
      assert raws[0] in raws;
      assert JoinLines(raws) + rest == raws[0] + ['\n'] + tail;
      IndexOfConcat(raws[0], tail, '\n');
      assert (raws[0] + ['\n'] + tail)[..|raws[0]|] == raws[0];
      assert (raws[0] + ['\n'] + tail)[|raws[0]| + 1..] == tail;
      ReplayTextLines(read, through, ReplayLine(read, through, r, raws[0], |raws[0]| + 1), raws[1..], rest);
    }
  }

  // ---------- Chunks ----------

  /** Earlier output in front of a replay's own. */
  function After(shown: seq<Shown>, marks: seq<int>, r: Replay): Replay
  {
    Replay(r.frame, r.cursor, shown + r.shown, marks + r.marks)
  }

  lemma Assoc<T>(a: seq<T>, b: seq<T>, c: seq<T>)
    ensures a + (b + c) == a + b + c
  {
  }

  lemma ReplayLineAppends(read: Reader, through: int, shown: seq<Shown>, marks: seq<int>, r: Replay, raw: string,
                          bytes: nat)
    ensures ReplayLine(read, through, After(shown, marks, r), raw, bytes)
         == After(shown, marks, ReplayLine(read, through, r, raw, bytes))
  {
    hide Advance, Emits;
    var next := ReplayLine(read, through, r, raw, bytes);
    var line := Shown(read(raw).line, r.cursor < through);
    Assoc(shown, r.shown, [line]);
    Assoc(marks, r.marks, [next.cursor]);
  }

  /** A replay appends to what was shown and marked before, and depends on neither. */
  lemma {:induction false} ReplayAppends(read: Reader, through: int, shown: seq<Shown>, marks: seq<int>, r: Replay,
                                         text: string)
    ensures ReplayText(read, through, After(shown, marks, r), text)
         == After(shown, marks, ReplayText(read, through, r, text))
    decreases |text|
  {
    if text != "" {
      var i := IndexOf(text, '\n');
      if i == |text| {
        ReplayLineAppends(read, through, shown, marks, r, text, |text|);
      } else {
        ReplayLineAppends(read, through, shown, marks, r, text[..i], i + 1);
        ReplayAppends(read, through, shown, marks, ReplayLine(read, through, r, text[..i], i + 1), text[i + 1..]);
      }
    }
  }

  predicate WholeLines(text: string)
  {
    text == "" || text[|text| - 1] == '\n'
  }

  /** The first line of whole lines is also the first line of anything they start. */
  lemma FirstLineConcat(a: string, b: string)
    requires a != "" && WholeLines(a)
    ensures var i := IndexOf(a, '\n');
            && i < |a| && IndexOf(a + b, '\n') == i
            && (a + b)[..i] == a[..i] && (a + b)[i + 1..] == a[i + 1..] + b
            && WholeLines(a[i + 1..])
  {
    var i := IndexOf(a, '\n');
    assert a[|a| - 1] in a;
    IndexOfPresent(a, '\n');
    assert a + b == a[..i] + ['\n'] + (a[i + 1..] + b);
    IndexOfConcat(a[..i], a[i + 1..] + b, '\n');
  }

  lemma {:induction false} ReplayTextConcat(read: Reader, through: int, r: Replay, a: string, b: string)
    requires WholeLines(a)
    ensures ReplayText(read, through, r, a + b) == ReplayText(read, through, ReplayText(read, through, r, a), b)
    decreases |a|
  {
    hide IndexOf, ReplayLine;
    if a == "" {
      assert a + b == b;
    } else {
      var i := IndexOf(a, '\n');
      FirstLineConcat(a, b);
      ReplayTextConcat(read, through, ReplayLine(read, through, r, a[..i], i + 1), a[i + 1..], b);
    }
  }

  lemma {:induction false} ReplayCursor(read: Reader, through: int, r: Replay, text: string)
    ensures ReplayText(read, through, r, text).cursor == r.cursor + |text|
    decreases |text|
  {
    hide IndexOf;
    if text != "" {
      var i := IndexOf(text, '\n');
      if i < |text| {
        ReplayCursor(read, through, ReplayLine(read, through, r, text[..i], i + 1), text[i + 1..]);
      }
    }
  }

  lemma RaiseStep(read: Reader, through: int, r: Replay, raw: string, bytes: nat, to: int)
    requires through <= to && (to <= r.cursor || to == through)
    ensures ReplayLine(read, through, r, raw, bytes) == ReplayLine(read, to, r, raw, bytes)
  {
  }

  /** Suppression looks only at line starts, so a threshold below the cursor may be raised to it. */
  lemma {:induction false} RaiseThreshold(read: Reader, through: int, r: Replay, text: string, to: int)
    requires through <= to && (to <= r.cursor || to == through)
    ensures ReplayText(read, through, r, text) == ReplayText(read, to, r, text)
    decreases |text|
  {
    hide IndexOf;
    if text != "" {
      var i := IndexOf(text, '\n');
      if i < |text| {
        RaiseStep(read, through, r, text[..i], i + 1, to);
        RaiseThreshold(read, through, ReplayLine(read, through, r, text[..i], i + 1), text[i + 1..], to);
      } else {
        RaiseStep(read, through, r, text, |text|, to);
      }
    }
  }

  /**
    Chunk composition: when the first chunk holds whole lines, replaying both at once is
    replaying the second from the state and cursor the first returned, with the saved cursor
    raised in between as recovery does.
   */
  lemma ReplayComposes(read: Reader, a: string, b: string, start: int, through: int, state: Frame)
    requires WholeLines(a)
    ensures var r1 := ReplayFrom(read, a, start, through, state);
            var r2 := ReplayFrom(read, b, r1.cursor, Max(through, r1.cursor), r1.frame);
            && ReplayFrom(read, a + b, start, through, state)
               == After(r1.shown, r1.marks, r2)
            && r2.cursor == start + |a| + |b|
  {
    var r1 := ReplayFrom(read, a, start, through, state);
    ReplayTextConcat(read, through, Replay(state, start, [], []), a, b);
    ReplayAppends(read, through, r1.shown, r1.marks, Replay(r1.frame, r1.cursor, [], []), b);
    assert After(r1.shown, r1.marks, Replay(r1.frame, r1.cursor, [], [])) == r1;
    RaiseThreshold(read, through, Replay(r1.frame, r1.cursor, [], []), b, Max(through, r1.cursor));
    ReplayCursor(read, through, Replay(state, start, [], []), a);
    ReplayCursor(read, through, Replay(r1.frame, r1.cursor, [], []), b);
  }

  // ---------- Chunks cut anywhere ----------

  /** The unfinished last line of a text. */
  function Tail(text: string): (tail: string)
    ensures |tail| <= |text|
    decreases |text|
  {
    var i := IndexOf(text, '\n');
    if i == |text| then text else Tail(text[i + 1..])
  }

  /** The whole lines in front of it. */
  function Head(text: string): string
  {
    text[..|text| - |Tail(text)|]
  }

  function FirstLineOf(text: string): string { text[..IndexOf(text, '\n')] }

  /** What is behind the first line and its newline. */
  function AfterFirstLine(text: string): string
  {
    var i := IndexOf(text, '\n');
    if i == |text| then "" else text[i + 1..]
  }

  function FrameAfter(read: Reader, f: Frame, text: string): Frame
    decreases |text|
  {
    if text == "" then f else FrameAfter(read, Advance(f, read(FirstLineOf(text)).kind), AfterFirstLine(text))
  }

  predicate SeesBegin(read: Reader, text: string)
    decreases |text|
  {
    text != "" && (read(FirstLineOf(text)).kind == Begin || SeesBegin(read, AfterFirstLine(text)))
  }

  predicate SeesEnd(read: Reader, text: string)
    decreases |text|
  {
    text != "" && (read(FirstLineOf(text)).kind.End? || SeesEnd(read, AfterFirstLine(text)))
  }

  /** From two frames the text shows the same lines and leads to the same frame. */
  predicate Heals(read: Reader, f: Frame, g: Frame, text: string)
  {
    && (f.inFrame == g.inFrame || (text != "" && read(FirstLineOf(text)).kind != Other))
    && (f.seenBegin == g.seenBegin || SeesBegin(read, text))
    && ((f.seenEnd == g.seenEnd && f.exitCode == g.exitCode) || SeesEnd(read, text))
  }

  /**
    Reading the line `x + y` as two leaves no trace: outside a frame, its first piece is no
    sentinel, its second is one just when the whole is, and the frames meet again.
   */
  predicate Seamless(read: Reader, f: Frame, x: string, y: string, rest: string)
  {
    && !f.inFrame && read(x).kind == Other && (read(y).kind == Other <==> read(x + y).kind == Other)
    && Heals(read, Advance(f, read(y).kind), Advance(f, read(x + y).kind), rest)
  }

  /** The log may be cut between `a` and `b`. */
  predicate CutOk(read: Reader, f: Frame, a: string, b: string)
  {
    || Tail(a) == "" || b == ""
    || Seamless(read, FrameAfter(read, f, Head(a)), Tail(a), FirstLineOf(b), AfterFirstLine(b))
  }

  lemma ReplayTextFirst(read: Reader, through: int, r: Replay, text: string)
    requires text != ""
    ensures ReplayText(read, through, r, text)
         == ReplayText(read, through, ReplayLine(read, through, r, FirstLineOf(text), |text| - |AfterFirstLine(text)|),
                       AfterFirstLine(text))
    ensures |AfterFirstLine(text)| < |text|
  {
    hide IndexOf, ReplayLine;
    assert text[..|text|] == text;
  }

  lemma {:induction false} ReplayFrame(read: Reader, through: int, r: Replay, text: string)
    ensures ReplayText(read, through, r, text).frame == FrameAfter(read, r.frame, text)
    decreases |text|
  {
    hide IndexOf, FirstLineOf, AfterFirstLine;
    if text != "" {
      ReplayTextFirst(read, through, r, text);
      ReplayFrame(read, through, ReplayLine(read, through, r, FirstLineOf(text), |text| - |AfterFirstLine(text)|),
                  AfterFirstLine(text));
    }
  }

  /** Marks are only added, each behind the cursor that the replay started from. */
  lemma {:induction false} MarksGrow(read: Reader, through: int, r: Replay, text: string)
    ensures var marks := ReplayText(read, through, r, text).marks;
            r.marks <= marks && forall i :: |r.marks| <= i < |marks| ==> marks[i] > r.cursor
    decreases |text|
  {
    hide IndexOf, FirstLineOf, AfterFirstLine;
    if text != "" {
      ReplayTextFirst(read, through, r, text);
      MarksGrow(read, through, ReplayLine(read, through, r, FirstLineOf(text), |text| - |AfterFirstLine(text)|),
                AfterFirstLine(text));
    }
  }

  /** A mark that only one of two replays has keeps them apart for good. */
  lemma MarkParts(read: Reader, through: int, p: Replay, q: Replay, mark: int, text: string)
    requires p.marks == q.marks + [mark] && mark <= q.cursor
    ensures ReplayText(read, through, p, text) != ReplayText(read, through, q, text)
  {
    hide ReplayText;
    MarksGrow(read, through, p, text);
    MarksGrow(read, through, q, text);
    var marks := ReplayText(read, through, p, text).marks;
    assert marks[|q.marks|] == p.marks[|q.marks|] == mark;
  }

  lemma HealsStep(read: Reader, f: Frame, g: Frame, text: string)
    requires text != "" && (read(FirstLineOf(text)).kind != Other || f.inFrame == g.inFrame)
    ensures var kind := read(FirstLineOf(text)).kind;
            Heals(read, f, g, text) <==> Heals(read, Advance(f, kind), Advance(g, kind), AfterFirstLine(text))
  {
    hide IndexOf, FirstLineOf, AfterFirstLine;
  }

  lemma HealsLine(read: Reader, through: int, p: Replay, f: Frame, line: string, bytes: nat)
    ensures var kind := read(line).kind;
            var p1 := ReplayLine(read, through, p, line, bytes);
            var q1 := ReplayLine(read, through, p.(frame := f), line, bytes);
            && p1.frame == Advance(p.frame, kind) && q1.frame == Advance(f, kind)
            && (kind != Other || p.frame.inFrame == f.inFrame ==> q1 == p1.(frame := q1.frame))
            && (kind == Other && p.frame.inFrame != f.inFrame ==>
                  if p.frame.inFrame then p1.marks == q1.marks + [p1.cursor] && p1.cursor == q1.cursor
                  else q1.marks == p1.marks + [q1.cursor] && p1.cursor == q1.cursor)
  {
  }

  lemma HealsNothing(read: Reader, f: Frame, g: Frame)
    ensures Heals(read, f, g, "") <==> f == g
  {
  }

  /** Two replays that differ in the frame only agree in the end exactly when the text heals it. */
  lemma {:induction false} HealsExactly(read: Reader, through: int, p: Replay, f: Frame, text: string)
    ensures ReplayText(read, through, p, text) == ReplayText(read, through, p.(frame := f), text)
       <==> Heals(read, p.frame, f, text)
    decreases |text|
  {
    hide IndexOf, FirstLineOf, AfterFirstLine, ReplayText, ReplayLine, Heals, Advance;
    var q := p.(frame := f);
    if text == "" {
      NothingMore(read, through, p);
      NothingMore(read, through, q);
      HealsNothing(read, p.frame, f);
    } else {
      ReplayTextFirst(read, through, p, text);
      ReplayTextFirst(read, through, q, text);
      var line, bytes, rest := FirstLineOf(text), |text| - |AfterFirstLine(text)|, AfterFirstLine(text);
      var p1, q1 := ReplayLine(read, through, p, line, bytes), ReplayLine(read, through, q, line, bytes);
      HealsLine(read, through, p, f, line, bytes);
      if read(line).kind == Other && p.frame.inFrame != f.inFrame {
        HealsNot(read, p.frame, f, text);
        if p.frame.inFrame {
          MarkParts(read, through, p1, q1, p1.cursor, rest);
        } else {
          MarkParts(read, through, q1, p1, q1.cursor, rest);
        }
      } else {
        HealsStep(read, p.frame, f, text);
        HealsExactly(read, through, p1, q1.frame, rest);
      }
    }
  }

  lemma HealsNot(read: Reader, f: Frame, g: Frame, text: string)
    requires text != "" && read(FirstLineOf(text)).kind == Other && f.inFrame != g.inFrame
    ensures !Heals(read, f, g, text)
  {
  }

  /** One line read in two pieces is replayed as if read whole exactly when the cut leaves no trace. */
  lemma SplitLineExactly(read: Reader, through: int, r: Replay, x: string, y: string, bytes: nat, rest: string)
    requires x != "" && bytes > 0
    ensures var split := ReplayLine(read, through, ReplayLine(read, through, r, x, |x|), y, bytes);
            var whole := ReplayLine(read, through, r, x + y, |x| + bytes);
            ReplayText(read, through, split, rest) == ReplayText(read, through, whole, rest)
            <==> Seamless(read, r.frame, x, y, rest)
  {
    hide ReplayText, Heals;
    var s1 := ReplayLine(read, through, r, x, |x|);
    var split, whole := ReplayLine(read, through, s1, y, bytes), ReplayLine(read, through, r, x + y, |x| + bytes);
    if r.frame.inFrame || read(x).kind != Other {
      MarksGrow(read, through, split, rest);
      MarksGrow(read, through, whole, rest);
      var marks := ReplayText(read, through, split, rest).marks;
      assert marks[|r.marks|] == s1.marks[|r.marks|] == s1.cursor;
      assert |whole.marks| > |r.marks| ==> whole.marks[|r.marks|] == whole.cursor;
    } else if (read(y).kind == Other) != (read(x + y).kind == Other) {
      if read(y).kind == Other {
        MarkParts(read, through, whole, split, whole.cursor, rest);
      } else {
        MarkParts(read, through, split, whole, split.cursor, rest);
      }
    } else {
      assert whole == split.(frame := whole.frame);
      HealsExactly(read, through, split, whole.frame, rest);
    }
  }

  lemma DropDrop(text: string, j: nat, k: nat)
    requires j + k <= |text|
    ensures text[j..][k..] == text[j + k..]
    ensures k > 0 ==> text[j..][k - 1] == text[j + k - 1]
  {
  }

  lemma WholePrefix(text: string, i: nat)
    requires i == |text|
    ensures text[..i] == text
  {
  }

  lemma TailUnfolds(text: string)
    ensures var i := IndexOf(text, '\n');
            if i == |text| then Tail(text) == text && '\n' !in text
            else text[i] == '\n' && Tail(text) == Tail(text[i + 1..])
  {
    hide IndexOf;
    var i := IndexOf(text, '\n');
    if i == |text| {
      WholePrefix(text, i);
    }
  }

  lemma {:induction false} TailSuffix(text: string)
    ensures Tail(text) == text[|text| - |Tail(text)|..]
    decreases |text|
  {
    hide IndexOf, Tail;
    var i := IndexOf(text, '\n');
    TailUnfolds(text);
    if i < |text| {
      var rest := text[i + 1..];
      TailSuffix(rest);
      DropDrop(text, i + 1, |rest| - |Tail(rest)|);
    }
  }

  lemma {:induction false} TailStarts(text: string)
    ensures var n := |text| - |Tail(text)|;
            '\n' !in Tail(text) && (n > 0 ==> text[n - 1] == '\n')
    decreases |text|
  {
    hide IndexOf, Tail;
    var i := IndexOf(text, '\n');
    TailUnfolds(text);
    if i < |text| {
      var rest := text[i + 1..];
      TailStarts(rest);
      DropDrop(text, i + 1, |rest| - |Tail(rest)|);
    }
  }

  lemma TailIsTail(text: string)
    ensures Head(text) + Tail(text) == text
    ensures WholeLines(Head(text)) && '\n' !in Tail(text)
  {
    hide Tail;
    TailSuffix(text);
    TailStarts(text);
  }

  lemma TailThenLine(x: string, b: string)
    requires x != "" && b != "" && '\n' !in x
    ensures FirstLineOf(x + b) == x + FirstLineOf(b) && AfterFirstLine(x + b) == AfterFirstLine(b)
    ensures FirstLineOf(x) == x && AfterFirstLine(x) == ""
  {
    var i := IndexOf(b, '\n');
    IndexOfConcat(x, "", '\n');
    if i == |b| {
      assert b[..i] == b;
      NoNewlineConcat(x, b);
    } else {
      assert x + b == (x + b[..i]) + ['\n'] + b[i + 1..];
      assert '\n' !in x + b[..i];
      IndexOfConcat(x + b[..i], b[i + 1..], '\n');
      assert (x + b)[..|x| + i] == x + b[..i] && (x + b)[|x| + i + 1..] == b[i + 1..];
    }
  }

  lemma NoNewlineConcat(x: string, y: string)
    requires '\n' !in x && '\n' !in y
    ensures IndexOf(x + y, '\n') == |x + y|
  {
    assert '\n' !in x + y;
    IndexOfConcat(x + y, "", '\n');
  }

  /** A cut inside a line. */
  lemma CutInLine(read: Reader, through: int, r: Replay, x: string, b: string)
    requires x != "" && b != "" && '\n' !in x
    ensures ReplayText(read, through, r, x + b) == ReplayText(read, through, ReplayText(read, through, r, x), b)
       <==> Seamless(read, r.frame, x, FirstLineOf(b), AfterFirstLine(b))
  {
    hide ReplayText, Seamless, IndexOf, FirstLineOf, AfterFirstLine, ReplayLine;
    var y, rest := FirstLineOf(b), AfterFirstLine(b);
    TailThenLine(x, b);
    ReplayTextFirst(read, through, r, x);
    ReplayTextFirst(read, through, r, x + b);
    var s1 := ReplayLine(read, through, r, x, |x|);
    NothingMore(read, through, s1);
    ReplayTextFirst(read, through, s1, b);
    SplitLineExactly(read, through, r, x, y, |b| - |rest|, rest);
  }

  /** A cut leaves the replay as it is exactly when it is at a line's end or leaves no trace. */
  lemma CutExactly(read: Reader, through: int, r: Replay, a: string, b: string)
    ensures ReplayText(read, through, r, a + b) == ReplayText(read, through, ReplayText(read, through, r, a), b)
       <==> CutOk(read, r.frame, a, b)
  {
    hide ReplayText, Seamless, IndexOf, Tail, Head, FrameAfter, FirstLineOf, AfterFirstLine, WholeLines;
    var h, x := Head(a), Tail(a);
    var r0 := ReplayText(read, through, r, h);
    TailIsTail(a);
    Assoc(h, x, b);
    ReplayTextConcat(read, through, r, h, x);
    ReplayTextConcat(read, through, r, h, x + b);
    ReplayFrame(read, through, r, h);
    NothingMore(read, through, ReplayText(read, through, r, a));
    NothingMore(read, through, r0);
    assert "" + b == b && a + "" == a;
    if x != "" && b != "" {
      CutInLine(read, through, r0, x, b);
    }
  }

  lemma NothingMore(read: Reader, through: int, r: Replay)
    ensures ReplayText(read, through, r, "") == r
  {
  }

  /** Going on from a first replay, with the saved cursor raised, is going on with the replay. */
  lemma GoOn(read: Reader, r1: Replay, through: int, b: string)
    ensures After(r1.shown, r1.marks, ReplayFrom(read, b, r1.cursor, Max(through, r1.cursor), r1.frame))
         == ReplayText(read, through, r1, b)
  {
    hide ReplayText;
    var empty := Replay(r1.frame, r1.cursor, [], []);
    ReplayAppends(read, through, r1.shown, r1.marks, empty, b);
    assert After(r1.shown, r1.marks, empty) == r1;
    RaiseThreshold(read, through, empty, b, Max(through, r1.cursor));
  }

  /** Chunk composition, for chunks of any bytes. */
  lemma ComposesExactly(read: Reader, a: string, b: string, start: int, through: int, state: Frame)
    ensures var r1 := ReplayFrom(read, a, start, through, state);
            var r2 := ReplayFrom(read, b, r1.cursor, Max(through, r1.cursor), r1.frame);
            ReplayFrom(read, a + b, start, through, state) == After(r1.shown, r1.marks, r2)
            <==> CutOk(read, state, a, b)
  {
    hide ReplayText, CutOk, After;
    GoOn(read, ReplayFrom(read, a, start, through, state), through, b);
    CutExactly(read, through, Replay(state, start, [], []), a, b);
  }

  /** Recovery's polls: each replays the log's new part and raises the saved cursor. */
  function Poll(read: Reader, chunks: seq<string>, start: int, saved: int, state: Frame): Replay
  {
    if chunks == [] then Replay(state, start, [], [])
    else
      var r := ReplayFrom(read, chunks[0], start, saved, state);
      After(r.shown, r.marks, Poll(read, chunks[1..], r.cursor, Max(saved, r.cursor), r.frame))
  }

  function Concat(chunks: seq<string>): string
  {
    if chunks == [] then "" else chunks[0] + Concat(chunks[1..])
  }

  lemma {:induction false} ConcatSnoc(chunks: seq<string>, c: string)
    ensures Concat(chunks + [c]) == Concat(chunks) + c
  {
    if chunks == [] {
      assert (chunks + [c])[1..] == [];
    } else {
      assert (chunks + [c])[1..] == chunks[1..] + [c];
      ConcatSnoc(chunks[1..], c);
    }
  }

  lemma AfterAfter(s: seq<Shown>, m: seq<int>, r: Replay, q: Replay)
    ensures After(s, m, After(r.shown, r.marks, q)) == After(s + r.shown, m + r.marks, q)
  {
    Assoc(s, r.shown, q.shown);
    Assoc(m, r.marks, q.marks);
  }

  lemma PollOne(read: Reader, c: string, start: int, saved: int, state: Frame)
    ensures Poll(read, [c], start, saved, state) == ReplayFrom(read, c, start, saved, state)
  {
    assert [c][1..] == [];
  }

  lemma {:induction false} PollCursor(read: Reader, chunks: seq<string>, start: int, saved: int, state: Frame)
    ensures Poll(read, chunks, start, saved, state).cursor >= start
    decreases |chunks|
  {
    if chunks != [] {
      var r := ReplayFrom(read, chunks[0], start, saved, state);
      ReplayCursor(read, saved, Replay(state, start, [], []), chunks[0]);
      PollCursor(read, chunks[1..], r.cursor, Max(saved, r.cursor), r.frame);
    }
  }

  /** The last poll goes on from all the polls before it. */
  lemma {:induction false} PollSnoc(read: Reader, chunks: seq<string>, c: string, start: int, saved: int, state: Frame)
    ensures var r := Poll(read, chunks, start, saved, state);
            Poll(read, chunks + [c], start, saved, state)
              == After(r.shown, r.marks, ReplayFrom(read, c, r.cursor, Max(saved, r.cursor), r.frame))
    decreases |chunks|
  {
    hide ReplayText;
    if chunks == [] {
      var r := Poll(read, chunks, start, saved, state);
      assert chunks + [c] == [c];
      PollOne(read, c, start, saved, state);
      GoOn(read, r, saved, c);
    } else {
      var r := ReplayFrom(read, chunks[0], start, saved, state);
      var more := Poll(read, chunks[1..], r.cursor, Max(saved, r.cursor), r.frame);
      assert (chunks + [c])[1..] == chunks[1..] + [c];
      PollSnoc(read, chunks[1..], c, r.cursor, Max(saved, r.cursor), r.frame);
      PollCursor(read, chunks[1..], r.cursor, Max(saved, r.cursor), r.frame);
      AfterAfter(r.shown, r.marks, more,
                 ReplayFrom(read, c, more.cursor, Max(Max(saved, r.cursor), more.cursor), more.frame));
    }
  }

  /** After `n` polls what was shown is one replay of the log so far. */
  predicate PollsMatch(read: Reader, chunks: seq<string>, n: nat, start: int, saved: int, state: Frame)
    requires n <= |chunks|
  {
    Poll(read, chunks[..n], start, saved, state) == ReplayFrom(read, Concat(chunks[..n]), start, saved, state)
  }

  lemma PollsMatchNext(read: Reader, chunks: seq<string>, n: nat, start: int, saved: int, state: Frame)
    requires n < |chunks| && PollsMatch(read, chunks, n, start, saved, state)
    ensures PollsMatch(read, chunks, n + 1, start, saved, state)
       <==> CutOk(read, state, Concat(chunks[..n]), chunks[n])
  {
    hide ReplayText, CutOk, After;
    assert chunks[..n + 1] == chunks[..n] + [chunks[n]];
    PollSnoc(read, chunks[..n], chunks[n], start, saved, state);
    ConcatSnoc(chunks[..n], chunks[n]);
    ComposesExactly(read, Concat(chunks[..n]), chunks[n], start, saved, state);
  }

  /**
    However the log grows between polls, byte by byte if need be: after every poll what was
    shown is one replay of the log so far exactly when every cut may be made.
   */
  lemma PollsReplayExactly(read: Reader, chunks: seq<string>, start: int, saved: int, state: Frame)
    ensures (forall n :: 0 <= n <= |chunks| ==> PollsMatch(read, chunks, n, start, saved, state))
       <==> (forall n :: 0 <= n < |chunks| ==> CutOk(read, state, Concat(chunks[..n]), chunks[n]))
  {
    hide CutOk, PollsMatch;
    if forall n :: 0 <= n <= |chunks| ==> PollsMatch(read, chunks, n, start, saved, state) {
      forall n | 0 <= n < |chunks|
        ensures CutOk(read, state, Concat(chunks[..n]), chunks[n])
      {
        PollsMatchNext(read, chunks, n, start, saved, state);
      }
    }
    if forall n :: 0 <= n < |chunks| ==> CutOk(read, state, Concat(chunks[..n]), chunks[n]) {
      forall n | 0 <= n <= |chunks|
        ensures PollsMatch(read, chunks, n, start, saved, state)
      {
        CutsMatch(read, chunks, n, start, saved, state);
      }
    }
  }

  lemma {:induction false} CutsMatch(read: Reader, chunks: seq<string>, n: nat, start: int, saved: int, state: Frame)
    requires n <= |chunks|
    requires forall i :: 0 <= i < |chunks| ==> CutOk(read, state, Concat(chunks[..i]), chunks[i])
    ensures PollsMatch(read, chunks, n, start, saved, state)
  {
    hide CutOk;
    if n > 0 {
      CutsMatch(read, chunks, n - 1, start, saved, state);
      PollsMatchNext(read, chunks, n - 1, start, saved, state);
    }
  }

  /** Polling a log that always grows by whole lines is replaying it once. */
  lemma PollsReplayOnce(read: Reader, chunks: seq<string>, start: int, saved: int, state: Frame)
    requires forall c :: c in chunks ==> WholeLines(c)
    ensures Poll(read, chunks, start, saved, state) == ReplayFrom(read, Concat(chunks), start, saved, state)
  {
    forall i | 0 <= i < |chunks|
      ensures CutOk(read, state, Concat(chunks[..i]), chunks[i])
    {
      forall c | c in chunks[..i]
        ensures WholeLines(c)
      {
        assert c in chunks;
      }
      WholeConcat(chunks[..i]);
    }
    CutsMatch(read, chunks, |chunks|, start, saved, state);
    assert chunks[..|chunks|] == chunks;
  }

  lemma {:induction false} WholeConcat(chunks: seq<string>)
    requires forall c :: c in chunks ==> WholeLines(c)
    ensures Tail(Concat(chunks)) == ""
  {
    if chunks != [] {
      assert chunks[0] in chunks && forall c :: c in chunks[1..] ==> c in chunks;
      WholeConcat(chunks[1..]);
      TailConcat(chunks[0], Concat(chunks[1..]));
    }
  }

  lemma {:induction false} TailConcat(a: string, b: string)
    requires WholeLines(a)
    ensures Tail(a + b) == Tail(b)
    decreases |a|
  {
    if a == "" {
      assert a + b == b;
    } else {
      FirstLineConcat(a, b);
      TailConcat(a[IndexOf(a, '\n') + 1..], b);
    }
  }

  /** Lines that a run reads as its own output: nothing removed, and no sentinel. */
  predicate Plain(read: Reader, line: string)
  {
    read(line) == Read(line, Other)
  }

  lemma OneLineText(read: Reader, r: Replay, line: string)
    requires '\n' !in line && r.frame.inFrame && r.shown == [] && Plain(read, line)
    ensures ReplayText(read, 0, r, line + "\n").shown == [Shown(line, r.cursor < 0)]
    ensures line != "" ==> ReplayText(read, 0, r, line).shown == [Shown(line, r.cursor < 0)]
    ensures line != "" ==> ReplayText(read, 0, r, line).frame == r.frame
  {
    IndexOfConcat(line, "", '\n');
    assert line + ['\n'] + "" == line + "\n";
    assert (line + "\n")[..|line|] == line && (line + "\n")[|line| + 1..] == "";
  }

  /** A snapshot cut inside a line is not whole lines: its two halves are shown as two lines. */
  lemma CutLineShownTwice(read: Reader, a: string, b: string, start: int, state: Frame)
    requires state.inFrame && a != "" && '\n' !in a && '\n' !in b
    requires Plain(read, a) && Plain(read, b) && Plain(read, a + b)
    ensures var whole := ReplayFrom(read, a + b + "\n", start, 0, state);
            var first := ReplayFrom(read, a, start, 0, state);
            var second := ReplayFrom(read, b + "\n", first.cursor, 0, first.frame);
            && whole.shown == [Shown(a + b, start < 0)]
            && first.shown == [Shown(a, start < 0)] && second.shown == [Shown(b, first.cursor < 0)]
  {
    OneLineText(read, Replay(state, start, [], []), a + b);
    OneLineText(read, Replay(state, start, [], []), a);
    var first := ReplayFrom(read, a, start, 0, state);
    OneLineText(read, Replay(first.frame, first.cursor, [], []), b);
  }

  // ---------- The router refines the replay ----------

  function LinesOf(shown: seq<Shown>): (r: seq<string>)
    ensures |r| == |shown|
  {
    if shown == [] then [] else LinesOf(shown[..|shown| - 1]) + [shown[|shown| - 1].line]
  }

  predicate Unchanged(read: Reader, raws: seq<string>)
  {
    forall l :: l in raws ==> read(l).line == l
  }

  /** The two parsers stand at the same place. */
  predicate Agree(r: Router, p: Replay)
  {
    r.frame == p.frame && r.lines == LinesOf(p.shown) && r.cursor <= p.cursor
  }

  lemma AgreeStep(read: Reader, through: int, r: Router, p: Replay, raw: string)
    requires Removes(read) && Agree(r, p)
    ensures var r1, p1 := RouteLine(read, r, raw), ReplayLine(read, through, p, raw, |raw| + 1);
            Agree(r1, p1) && (r1.cursor == p1.cursor <==> r.cursor == p.cursor && read(raw).line == raw)
  {
    var p1 := ReplayLine(read, through, p, raw, |raw| + 1);
    if Emits(r.frame, read(raw).kind) {
      assert p1.shown[..|p1.shown| - 1] == p.shown;
    }
  }

  lemma UnchangedCons(read: Reader, raws: seq<string>)
    requires raws != []
    ensures Unchanged(read, raws) <==> read(raws[0]).line == raws[0] && Unchanged(read, raws[1..])
  {
    assert raws == [raws[0]] + raws[1..];
  }

  /**
    On every list of lines the router and the replay agree on frame and lines. The router's
    cursor never passes the replay's, and meets it exactly when sanitizing removed nothing.
   */
  lemma {:induction false} RouterRefinesReplay(read: Reader, through: int, r: Router, p: Replay, raws: seq<string>)
    requires Removes(read) && Agree(r, p)
    ensures var r', p' := RouteLines(read, r, raws), ReplayLines(read, through, p, raws);
            && r'.frame == p'.frame && r'.lines == LinesOf(p'.shown)
            && r'.cursor <= p'.cursor
            && (r'.cursor == p'.cursor <==> r.cursor == p.cursor && Unchanged(read, raws))
    decreases |raws|
  {
    if raws != [] {
      AgreeStep(read, through, r, p, raws[0]);
      UnchangedCons(read, raws);
      var p1 := ReplayLine(read, through, p, raws[0], |raws[0]| + 1);
      RouterRefinesReplay(read, through, RouteLine(read, r, raws[0]), p1, raws[1..]);
    }
  }

  // ---------- Live, then recover ----------

  /** The lines that a replay delivers: those shown without suppression. */
  function Delivered(shown: seq<Shown>): seq<string>
  {
    if shown == [] then []
    else
      var before := Delivered(shown[..|shown| - 1]);
      if shown[|shown| - 1].suppressed then before else before + [shown[|shown| - 1].line]
  }

  lemma {:induction false} RouteConcat(read: Reader, r: Router, a: seq<string>, b: seq<string>)
    ensures RouteLines(read, r, a + b) == RouteLines(read, RouteLines(read, r, a), b)
    decreases |a|
  {
    if a == [] {
      assert a + b == b;
    } else {
      assert (a + b)[0] == a[0] && (a + b)[1..] == a[1..] + b;
      RouteConcat(read, RouteLine(read, r, a[0]), a[1..], b);
    }
  }

  lemma {:induction false} ReplayLinesConcat(read: Reader, through: int, r: Replay, a: seq<string>, b: seq<string>)
    ensures ReplayLines(read, through, r, a + b) == ReplayLines(read, through, ReplayLines(read, through, r, a), b)
    decreases |a|
  {
    if a == [] {
      assert a + b == b;
    } else {
      assert (a + b)[0] == a[0] && (a + b)[1..] == a[1..] + b;
      ReplayLinesConcat(read, through, ReplayLine(read, through, r, a[0], |a[0]| + 1), a[1..], b);
    }
  }

  /** What was delivered so far is a suffix of what was shown so far. */
  predicate Suffix(shown: seq<Shown>, from: nat)
  {
    from <= |shown| && Delivered(shown) == LinesOf(shown)[from..]
  }

  lemma SuffixStep(read: Reader, through: int, r: Replay, raw: string, from: nat)
    requires through <= r.cursor && Suffix(r.shown, from)
    ensures Suffix(ReplayLine(read, through, r, raw, |raw| + 1).shown, from)
  {
    var r1 := ReplayLine(read, through, r, raw, |raw| + 1);
    if r1.shown != r.shown {
      assert r1.shown[..|r1.shown| - 1] == r.shown;
    }
  }

  /** Once the cursor has passed the threshold, every further line is delivered. */
  lemma {:induction false} PastThreshold(read: Reader, through: int, r: Replay, raws: seq<string>, from: nat)
    requires through <= r.cursor && Suffix(r.shown, from)
    ensures Suffix(ReplayLines(read, through, r, raws).shown, from)
    decreases |raws|
  {
    hide Suffix;
    if raws != [] {
      SuffixStep(read, through, r, raws[0], from);
      PastThreshold(read, through, ReplayLine(read, through, r, raws[0], |raws[0]| + 1), raws[1..], from);
    }
  }

  lemma SuppressedStep(read: Reader, through: int, r: Replay, raw: string)
    requires r.cursor < through && Suffix(r.shown, |r.shown|)
    ensures var r1 := ReplayLine(read, through, r, raw, |raw| + 1);
            Suffix(r1.shown, |r1.shown|)
  {
    var r1 := ReplayLine(read, through, r, raw, |raw| + 1);
    if r1.shown != r.shown {
      assert r1.shown[..|r1.shown| - 1] == r.shown;
    }
  }

  /** Before that every line is suppressed, so the delivered lines always form a suffix. */
  lemma {:induction false} UpToThreshold(read: Reader, through: int, r: Replay, raws: seq<string>) returns (from: nat)
    requires Suffix(r.shown, |r.shown|)
    ensures Suffix(ReplayLines(read, through, r, raws).shown, from)
    ensures r.cursor <= through && ReplayLines(read, through, r, raws).cursor <= through ==>
              from == |ReplayLines(read, through, r, raws).shown|
    decreases |raws|
  {
    hide Suffix;
    if raws == [] {
      from := |r.shown|;
    } else if through <= r.cursor {
      from := |r.shown|;
      PastThreshold(read, through, r, raws, from);
      ReplayLinesCursor(read, through, r, raws);
    } else {
      var r1 := ReplayLine(read, through, r, raws[0], |raws[0]| + 1);
      SuppressedStep(read, through, r, raws[0]);
      from := UpToThreshold(read, through, r1, raws[1..]);
      ReplayLinesCursor(read, through, r1, raws[1..]);
    }
  }

  lemma {:induction false} ReplayLinesCursor(read: Reader, through: int, r: Replay, raws: seq<string>)
    ensures ReplayLines(read, through, r, raws).cursor >= r.cursor + |raws|
    decreases |raws|
  {
    if raws != [] {
      ReplayLinesCursor(read, through, ReplayLine(read, through, r, raws[0], |raws[0]| + 1), raws[1..]);
    }
  }

  lemma {:induction false} ShownExtends(read: Reader, through: int, r: Replay, raws: seq<string>)
    ensures r.shown <= ReplayLines(read, through, r, raws).shown
    decreases |raws|
  {
    if raws != [] {
      ShownExtends(read, through, ReplayLine(read, through, r, raws[0], |raws[0]| + 1), raws[1..]);
    }
  }

  lemma {:induction false} LinesOfConcat(a: seq<Shown>, b: seq<Shown>)
    ensures LinesOf(a + b) == LinesOf(a) + LinesOf(b)
    decreases |b|
  {
    if b == [] {
      assert a + b == a;
    } else {
      assert (a + b)[..|a + b| - 1] == a + b[..|b| - 1];
      LinesOfConcat(a, b[..|b| - 1]);
    }
  }

  /** Where the last line that is shown starts, if any is. */
  function LastStart(read: Reader, f: Frame, cursor: int, raws: seq<string>): Option<int>
    decreases |raws|
  {
    if raws == [] then None
    else
      var kind := read(raws[0]).kind;
      var later := LastStart(read, Advance(f, kind), cursor + |raws[0]| + 1, raws[1..]);
      if later.Some? then later else if Emits(f, kind) then Some(cursor) else None
  }

  /** The cursor has passed the start of every line that is shown from this frame. */
  predicate PassedFrom(read: Reader, f: Frame, seen: seq<string>, cursor: int)
  {
    var last := LastStart(read, f, 0, seen);
    last.Some? ==> last.value < cursor
  }

  predicate PassedAll(read: Reader, seen: seq<string>, cursor: int)
  {
    PassedFrom(read, NO_FRAME, seen, cursor)
  }

  lemma {:induction false} LastStartIsLater(read: Reader, f: Frame, cursor: int, raws: seq<string>)
    ensures var last := LastStart(read, f, cursor, raws);
            last.Some? ==> last.value >= cursor
    decreases |raws|
  {
    if raws != [] {
      LastStartIsLater(read, Advance(f, read(raws[0]).kind), cursor + |raws[0]| + 1, raws[1..]);
    }
  }

  lemma DeliveredStep(read: Reader, through: int, r: Replay, raw: string)
    ensures var r1 := ReplayLine(read, through, r, raw, |raw| + 1);
            Delivered(r1.shown) == Delivered(r.shown)
              + if Emits(r.frame, read(raw).kind) && r.cursor >= through then [read(raw).line] else []
  {
    var r1 := ReplayLine(read, through, r, raw, |raw| + 1);
    if r1.shown != r.shown {
      assert r1.shown[..|r1.shown| - 1] == r.shown;
    }
  }

  lemma {:induction false} DeliveredGrows(read: Reader, through: int, r: Replay, raws: seq<string>)
    ensures |Delivered(r.shown)| <= |Delivered(ReplayLines(read, through, r, raws).shown)|
    decreases |raws|
  {
    hide Delivered;
    if raws != [] {
      DeliveredStep(read, through, r, raws[0]);
      DeliveredGrows(read, through, ReplayLine(read, through, r, raws[0], |raws[0]| + 1), raws[1..]);
    }
  }

  /** Nothing is delivered exactly when the last line shown starts before the threshold. */
  lemma {:induction false} DeliversNothing(read: Reader, through: int, r: Replay, raws: seq<string>)
    requires Delivered(r.shown) == []
    ensures var last := LastStart(read, r.frame, r.cursor, raws);
            Delivered(ReplayLines(read, through, r, raws).shown) == []
            <==> (last.Some? ==> last.value < through)
    decreases |raws|
  {
    hide Delivered;
    if raws != [] {
      var r1 := ReplayLine(read, through, r, raws[0], |raws[0]| + 1);
      DeliveredStep(read, through, r, raws[0]);
      LastStartIsLater(read, r1.frame, r1.cursor, raws[1..]);
      if Emits(r.frame, read(raws[0]).kind) && r.cursor >= through {
        DeliveredGrows(read, through, r1, raws[1..]);
      } else {
        DeliversNothing(read, through, r1, raws[1..]);
      }
    }
  }

  /** Where delivery resumes: inside what was live, and at its end when the cursor passed it all. */
  lemma ResumePoint(read: Reader, seen: seq<string>, later: seq<string>) returns (from: nat)
    requires Removes(read)
    ensures var through := RouteLines(read, NEW_ROUTER, seen).cursor;
            var p1 := ReplayLines(read, through, NEW_REPLAY, seen);
            && from <= |p1.shown|
            && Suffix(ReplayLines(read, through, p1, later).shown, from)
            && (Unchanged(read, seen) ==> from == |p1.shown|)
            && (from == |p1.shown| <==> PassedAll(read, seen, through))
  {
    hide RouteLines, ReplayLines, LastStart;
    var through := RouteLines(read, NEW_ROUTER, seen).cursor;
    RouterRefinesReplay(read, through, NEW_ROUTER, NEW_REPLAY, seen);
    RouterCursorGrows(read, NEW_ROUTER, seen);
    from := UpToThreshold(read, through, NEW_REPLAY, seen);
    DeliversNothing(read, through, NEW_REPLAY, seen);
    PastThreshold(read, through, ReplayLines(read, through, NEW_REPLAY, seen), later, from);
  }

  /** What both parsers show of a log in two parts. */
  lemma BothShow(read: Reader, seen: seq<string>, later: seq<string>, through: int)
    requires Removes(read)
    ensures var p1 := ReplayLines(read, through, NEW_REPLAY, seen);
            var p2 := ReplayLines(read, through, p1, later);
            && RouteLines(read, NEW_ROUTER, seen).lines == LinesOf(p1.shown)
            && RouteLines(read, NEW_ROUTER, seen + later).lines == LinesOf(p2.shown)
            && LinesOf(p1.shown) <= LinesOf(p2.shown)
  {
    hide RouteLines, ReplayLines;
    var p1 := ReplayLines(read, through, NEW_REPLAY, seen);
    var p2 := ReplayLines(read, through, p1, later);
    RouteConcat(read, NEW_ROUTER, seen, later);
    RouterRefinesReplay(read, through, NEW_ROUTER, NEW_REPLAY, seen);
    RouterRefinesReplay(read, through, RouteLines(read, NEW_ROUTER, seen), p1, later);
    ShownExtends(read, through, p1, later);
    assert p2.shown == p1.shown + p2.shown[|p1.shown|..];
    LinesOfConcat(p1.shown, p2.shown[|p1.shown|..]);
  }

  lemma CutInTwo<T>(first: seq<T>, all: seq<T>, from: nat)
    requires first <= all && from <= |first|
    ensures all[from..] == first[from..] + all[|first|..]
  {
  }

  /**
    Crash recovery: the router handled the lines `seen` live and the last cursor it reported was
    saved; the replay of the whole log with that cursor delivers every later line of the run. What it
    delivers again is a suffix of what was live: nothing exactly when the cursor passed the
    start of the last line shown, and so whenever no control byte was removed.
   */
  lemma LiveThenRecover(read: Reader, seen: seq<string>, later: seq<string>) returns (again: nat)
    requires Removes(read) && NoNewlines(seen) && NoNewlines(later)
    ensures var live := RouteLines(read, NEW_ROUTER, seen);
            var all := RouteLines(read, NEW_ROUTER, seen + later).lines;
            var saved := SavedCursor(live);
            var recovered := Delivered(ReplayFrom(read, JoinLines(seen + later), 0, saved, NO_FRAME).shown);
            && live.lines <= all
            && again <= |live.lines|
            && recovered == live.lines[|live.lines| - again..] + all[|live.lines|..]
            && (again == 0 <==> PassedAll(read, seen, saved))
            && (Unchanged(read, seen) ==> again == 0)
  {
    hide ReplayLines, RouteLines, JoinLines;
    SavedIsCursor(read, seen);
    var live := RouteLines(read, NEW_ROUTER, seen);
    var all := RouteLines(read, NEW_ROUTER, seen + later).lines;
    ReplayTextLines(read, live.cursor, NEW_REPLAY, seen + later, "");
    assert JoinLines(seen + later) + "" == JoinLines(seen + later);
    ReplayLinesConcat(read, live.cursor, NEW_REPLAY, seen, later);
    BothShow(read, seen, later, live.cursor);
    var from := ResumePoint(read, seen, later);
    again := |live.lines| - from;
    CutInTwo(live.lines, all, from);
  }

  // ---------- Resuming without a begin line ----------

  /** The frame that recovery assumes when its run has events of the command already. */
  const RESUMED := Frame(true, true, false, 0)

  lemma FrameIgnoresThreshold(read: Reader, text: string, start: int, through: int, through': int, state: Frame)
    ensures var r, r' := ReplayFrom(read, text, start, through, state), ReplayFrom(read, text, start, through', state);
            r'.frame == r.frame && r'.cursor == r.cursor == start + |text|
  {
    var r := Replay(state, start, [], []);
    ReplayFrame(read, through, r, text);
    ReplayFrame(read, through', r, text);
    ReplayCursor(read, through, r, text);
    ReplayCursor(read, through', r, text);
  }

  lemma {:induction false} DeliveredConcat(a: seq<Shown>, b: seq<Shown>)
    ensures Delivered(a + b) == Delivered(a) + Delivered(b)
    decreases |b|
  {
    if b == [] {
      assert a + b == a;
    } else {
      assert (a + b)[..|a + b| - 1] == a + b[..|b| - 1];
      DeliveredConcat(a, b[..|b| - 1]);
    }
  }

  lemma {:induction false} StartsBeforeEnd(read: Reader, f: Frame, cursor: int, raws: seq<string>)
    ensures var last := LastStart(read, f, cursor, raws);
            last.Some? ==> last.value < cursor + |JoinLines(raws)|
    decreases |raws|
  {
    if raws != [] {
      StartsBeforeEnd(read, Advance(f, read(raws[0]).kind), cursor + |raws[0]| + 1, raws[1..]);
    }
  }

  /** A replay of whole lines delivers nothing exactly when the last line it shows starts before the threshold. */
  lemma WholeDeliversNothing(read: Reader, seen: seq<string>, through: int, state: Frame)
    requires NoNewlines(seen)
    ensures var last := LastStart(read, state, 0, seen);
            Delivered(ReplayFrom(read, JoinLines(seen), 0, through, state).shown) == []
            <==> (last.Some? ==> last.value < through)
  {
    hide ReplayLines, LastStart;
    var r := Replay(state, 0, [], []);
    ReplayTextLines(read, through, r, seen, "");
    assert JoinLines(seen) + "" == JoinLines(seen);
    DeliversNothing(read, through, r, seen);
  }

  lemma {:induction false} NoBeginShowsNothing(read: Reader, through: int, r: Replay, text: string)
    requires !r.frame.inFrame && !ReplayText(read, through, r, text).frame.seenBegin
    ensures ReplayText(read, through, r, text).shown == r.shown
    decreases |text|
  {
    hide IndexOf, FirstLineOf, AfterFirstLine;
    if text != "" {
      ReplayTextFirst(read, through, r, text);
      var r1 := ReplayLine(read, through, r, FirstLineOf(text), |text| - |AfterFirstLine(text)|);
      BeginStays(read, through, r1, AfterFirstLine(text));
      NoBeginShowsNothing(read, through, r1, AfterFirstLine(text));
    }
  }

  lemma {:induction false} BeginStays(read: Reader, through: int, r: Replay, text: string)
    ensures r.frame.seenBegin ==> ReplayText(read, through, r, text).frame.seenBegin
    decreases |text|
  {
    hide IndexOf, FirstLineOf, AfterFirstLine;
    if text != "" {
      ReplayTextFirst(read, through, r, text);
      BeginStays(read, through, ReplayLine(read, through, r, FirstLineOf(text), |text| - |AfterFirstLine(text)|),
                 AfterFirstLine(text));
    }
  }

  /**
    A log without a begin line is replayed twice: first to find none, which shows nothing but
    raises the saved cursor to the log's end, and then inside the frame from the start. The
    second pass delivers only what the log has grown by since the first. With the cursor that
    was saved it would deliver in front of that the lines not delivered live; the two agree
    exactly when the saved cursor had passed the start of the last line shown.
   */
  lemma ResumeSkipsUndelivered(read: Reader, seen: seq<string>, grown: string, saved: int)
    requires NoNewlines(seen)
    ensures var log := JoinLines(seen);
            var first := ReplayFrom(read, log, 0, saved, NO_FRAME);
            var missed := Delivered(ReplayFrom(read, log, 0, saved, RESUMED).shown);
            var second := Delivered(ReplayFrom(read, log + grown, 0, Max(saved, first.cursor), RESUMED).shown);
            && first.cursor == |log| && (!first.frame.seenBegin ==> first.shown == [])
            && (grown == "" ==> second == [])
            && Delivered(ReplayFrom(read, log + grown, 0, saved, RESUMED).shown) == missed + second
            && (missed == [] <==> PassedFrom(read, RESUMED, seen, saved))
  {
    hide ReplayText, LastStart, JoinLines;
    var log := JoinLines(seen);
    var raised := Max(saved, |log|);
    FrameIgnoresThreshold(read, log, 0, saved, saved, NO_FRAME);
    FrameIgnoresThreshold(read, log, 0, saved, raised, RESUMED);
    if !ReplayFrom(read, log, 0, saved, NO_FRAME).frame.seenBegin {
      NoBeginShowsNothing(read, saved, NEW_REPLAY, log);
    }
    var kept, skipped := ReplayFrom(read, log, 0, saved, RESUMED), ReplayFrom(read, log, 0, raised, RESUMED);
    var more := ReplayFrom(read, grown, |log|, raised, kept.frame);
    JoinedIsWhole(seen);
    ReplayComposes(read, log, grown, 0, saved, RESUMED);
    ReplayComposes(read, log, grown, 0, raised, RESUMED);
    StartsBeforeEnd(read, RESUMED, 0, seen);
    WholeDeliversNothing(read, seen, saved, RESUMED);
    WholeDeliversNothing(read, seen, raised, RESUMED);
    DeliveredConcat(kept.shown, more.shown);
    DeliveredConcat(skipped.shown, more.shown);
    if grown == "" {
      assert log + grown == log;
    }
  }

  lemma {:induction false} JoinedIsWhole(raws: seq<string>)
    ensures WholeLines(JoinLines(raws))
    decreases |raws|
  {
    if raws != [] {
      JoinedIsWhole(raws[1..]);
    }
  }

  lemma {:induction false} RouterCursorGrows(read: Reader, r: Router, raws: seq<string>)
    ensures RouteLines(read, r, raws).cursor >= r.cursor
    decreases |raws|
  {
    if raws != [] {
      RouterCursorGrows(read, RouteLine(read, r, raws[0]), raws[1..]);
    }
  }
}
