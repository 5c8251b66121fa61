/**
  The `.env.example` reader (detect.go) and the prompt's printing of its entries (prompt.go):
  printing what was read and reading it again gives the same entries.
 */
module EnvExample {
  import opened Text

  datatype EnvEntry = EnvEntry(key: string, comment: string, value: string)

  predicate KeyStart(c: char) { 'A' <= c <= 'Z' || c == '_' }

  predicate KeyChar(c: char) { KeyStart(c) || IsDigit(c) }

  predicate IsKey(s: string)
  {
    s != "" && KeyStart(s[0]) && forall c :: c in s ==> KeyChar(c)
  }

  /** The entry pattern: a key, an equals sign, and the rest of the line as the value. */
  function MatchEntry(line: string): Option<(string, string)>
  {
    var i := IndexOf(line, '=');
    if i < |line| && IsKey(line[..i]) && '\n' !in line[i + 1..] then Some((line[..i], line[i + 1..])) else None
  }

  function TrimPrefix(s: string, p: string): string
  {
    if HasPrefix(s, p) then s[|p|..] else s
  }

  /** The entries of the remaining lines, given the comments collected above them. */
  function ParseLines(lines: seq<string>, comments: seq<string>): seq<EnvEntry>
  {
    if lines == [] then []
    else
      var trimmed := TrimSpace(lines[0]);
      if trimmed == "" then ParseLines(lines[1..], [])
      else if HasPrefix(trimmed, "#") then ParseLines(lines[1..], comments + [TrimPrefix(trimmed, "# ")])
      else match MatchEntry(trimmed)
        case Some((key, value)) => [EnvEntry(key, Join(comments, " "), value)] + ParseLines(lines[1..], [])
        case None => ParseLines(lines[1..], comments)
  }

  function Parse(data: string): seq<EnvEntry>
  {
    ParseLines(Split(data, '\n'), [])
  }

  function Keys(entries: seq<EnvEntry>): seq<string>
  {
    seq(|entries|, i requires 0 <= i < |entries| => entries[i].key)
  }

  method DetectEnvExample(data: string) returns (keys: seq<string>, entries: seq<EnvEntry>)
    ensures entries == Parse(data)
    ensures keys == Keys(entries)
  {
    var lines := Split(data, '\n');
    var trailingComments: seq<string> := [];
    keys, entries := [], [];
    for i := 0 to |lines|
      invariant keys == Keys(entries)
      invariant Parse(data) == entries + ParseLines(lines[i..], trailingComments)
    {
      assert lines[i..][1..] == lines[i + 1..];
      var trimmed := TrimSpace(lines[i]);
      if trimmed == "" {
        trailingComments := [];
        continue;
      }
      if HasPrefix(trimmed, "#") {
        trailingComments := trailingComments + [TrimPrefix(trimmed, "# ")];
        continue;
      }
      var m := MatchEntry(trimmed);
      if m.Some? {
        var (key, value) := m.value;
        keys := keys + [key];
        entries := entries + [EnvEntry(key, Join(trailingComments, " "), value)];
        trailingComments := [];
      }
    }
  }

  // ---------- What is read, line by line ----------

  /** The entry pattern, character by character. */
  lemma MatchExactly(line: string, key: string, value: string)
    ensures MatchEntry(line) == Some((key, value)) <==>
              && line == key + "=" + value && '\n' !in value
              && key != "" && ('A' <= key[0] <= 'Z' || key[0] == '_')
              && forall c :: c in key ==> 'A' <= c <= 'Z' || '0' <= c <= '9' || c == '_'
  {
    var i := IndexOf(line, '=');
    if MatchEntry(line) == Some((key, value)) {
      assert line == line[..i] + "=" + line[i + 1..];
    } else if line == key + "=" + value && forall c :: c in key ==> 'A' <= c <= 'Z' || '0' <= c <= '9' || c == '_' {
      IndexOfConcat(key, value, '=');
      assert line[..|key|] == key && line[|key| + 1..] == value;
    }
  }

  predicate IsBlank(line: string) { TrimSpace(line) == "" }

  predicate IsComment(line: string) { TrimSpace(line) != "" && TrimSpace(line)[0] == '#' }

  predicate IsEntry(line: string)
  {
    !IsBlank(line) && !IsComment(line) && MatchEntry(TrimSpace(line)).Some?
  }

  /** A comment without its mark, if a blank follows the mark. */
  function CommentText(line: string): string
  {
    var t := TrimSpace(line);
    if |t| >= 2 && t[0] == '#' && t[1] == ' ' then t[2..] else t
  }

  /** The comments at the end of some lines, back to the last blank line or entry. */
  function CommentsAbove(lines: seq<string>): seq<string>
  {
    if lines == [] then []
    else
      var last := lines[|lines| - 1];
      if IsBlank(last) || IsEntry(last) then []
      else CommentsAbove(lines[..|lines| - 1]) + if IsComment(last) then [CommentText(last)] else []
  }

  /** Comments with a blank between them. */
  function Spaced(comments: seq<string>): string
  {
    if |comments| == 0 then ""
    else if |comments| == 1 then comments[0]
    else Spaced(comments[..|comments| - 1]) + " " + comments[|comments| - 1]
  }

  /** Every entry line with the comments directly above it. */
  function EntriesOf(lines: seq<string>): seq<EnvEntry>
  {
    if lines == [] then []
    else
      var above, last := lines[..|lines| - 1], lines[|lines| - 1];
      EntriesOf(above)
      + if IsEntry(last) then
          var (key, value) := MatchEntry(TrimSpace(last)).value;
          [EnvEntry(key, Spaced(CommentsAbove(above)), value)]
        else []
  }

  lemma {:induction false} JoinSnoc(parts: seq<string>, last: string, sep: string)
    requires parts != []
    ensures Join(parts + [last], sep) == Join(parts, sep) + sep + last
  {
    if |parts| > 1 {
      assert (parts + [last])[1..] == parts[1..] + [last];
      JoinSnoc(parts[1..], last, sep);
    }
  }

  lemma {:induction false} JoinIsSpaced(comments: seq<string>)
    ensures Join(comments, " ") == Spaced(comments)
  {
    if |comments| > 1 {
      var above := comments[..|comments| - 1];
      JoinIsSpaced(above);
      JoinSnoc(above, comments[|comments| - 1], " ");
      assert above + [comments[|comments| - 1]] == comments;
    }
  }

  lemma LineReads(line: string)
    ensures IsComment(line) <==> HasPrefix(TrimSpace(line), "#")
    ensures CommentText(line) == TrimPrefix(TrimSpace(line), "# ")
  {
    var t := TrimSpace(line);
    assert |t| >= 1 ==> t[..1] == [t[0]];
    assert |t| >= 2 ==> t[..2] == [t[0], t[1]];
  }

  /** Reading on from some lines needs only the comments at their end. */
  lemma {:induction false} ReadsOn(above: seq<string>, lines: seq<string>)
    ensures EntriesOf(above + lines) == EntriesOf(above) + ParseLines(lines, CommentsAbove(above))
    decreases |lines|
  {
    hide TrimSpace, MatchEntry, TrimPrefix, HasPrefix, CommentText;
    if lines == [] {
      assert above + lines == above;
    } else {
      var above' := above + [lines[0]];
      assert above + lines == above' + lines[1..];
      assert above'[..|above'| - 1] == above;
      LineReads(lines[0]);
      JoinIsSpaced(CommentsAbove(above));
      ReadsOn(above', lines[1..]);
      var done, rest := EntriesOf(above), ParseLines(lines[1..], CommentsAbove(above'));
      if IsEntry(lines[0]) {
        var (key, value) := MatchEntry(TrimSpace(lines[0])).value;
        var e := EnvEntry(key, Spaced(CommentsAbove(above)), value);
        assert EntriesOf(above') == done + [e] && done + [e] + rest == done + ([e] + rest);
      } else {
        assert EntriesOf(above') == done + [] == done;
        assert !IsBlank(lines[0]) && !IsComment(lines[0]) ==>
            CommentsAbove(above') == CommentsAbove(above) + [] == CommentsAbove(above);
      }
    }
  }

  /**
    The entries of a file are its entry lines, in order, each with the comments above it: those
    since the last blank line or entry, joined by blanks. Other lines do not matter.
   */
  lemma ParseExactly(data: string)
    ensures Parse(data) == EntriesOf(Split(data, '\n'))
  {
    var lines := Split(data, '\n');
    ReadsOn([], lines);
    assert [] + lines == lines;
  }

  // ---------- The printer ----------

  function EntryLines(e: EnvEntry): seq<string>
  {
    (if e.comment != "" then ["  # " + e.comment] else []) + ["  " + e.key + "=" + e.value]
  }

  function EntryText(e: EnvEntry): string
  {
    (if e.comment != "" then "  # " + e.comment + "\n" else "") + ("  " + e.key + "=" + e.value + "\n")
  }

  lemma EntryTextIsLines(e: EnvEntry)
    ensures JoinLines(EntryLines(e)) == EntryText(e)
  {
    var line := "  " + e.key + "=" + e.value;
    assert [line][1..] == [];
    assert JoinLines([line]) == line + "\n";
    if e.comment != "" {
      assert EntryLines(e)[1..] == [line];
    }
  }

  function RenderLines(entries: seq<EnvEntry>): seq<string>
  {
    if entries == [] then [] else EntryLines(entries[0]) + RenderLines(entries[1..])
  }

  function Render(entries: seq<EnvEntry>): string
  {
    JoinLines(RenderLines(entries))
  }

  /** One turn of the printing loop. */
  method PrintEntry(b: string, e: EnvEntry) returns (b': string)
    ensures b' == b + EntryText(e)
  {
    var line := "  " + e.key + "=" + e.value + "\n";
    if e.comment == "" {
      assert "" + line == line;
      b' := b + line;
    } else {
      var comment := "  # " + e.comment + "\n";
      b' := b + comment;
      b' := b' + line;
      assert b + comment + line == b + (comment + line);
    }
  }

  lemma RenderStep(done: seq<EnvEntry>, e: EnvEntry)
    ensures Render(done + [e]) == Render(done) + EntryText(e)
  {
    RenderLinesConcat(done, e);
    JoinLinesConcat(RenderLines(done), EntryLines(e));
    EntryTextIsLines(e);
  }

  lemma {:induction false} RenderLinesConcat(done: seq<EnvEntry>, e: EnvEntry)
    ensures RenderLines(done + [e]) == RenderLines(done) + EntryLines(e)
  {
    if done == [] {
      assert done + [e] == [e] && [e][1..] == [];
      assert EntryLines(e) + [] == EntryLines(e) && [] + EntryLines(e) == EntryLines(e);
    } else {
      RenderLinesConcat(done[1..], e);
      assert (done + [e])[1..] == done[1..] + [e];
    }
  }

  method RenderEntries(entries: seq<EnvEntry>) returns (b: string)
    ensures b == Render(entries)
  {
    b := "";
    for i := 0 to |entries|
      invariant b == Render(entries[..i])
    {
      b := PrintEntry(b, entries[i]);
      RenderStep(entries[..i], entries[i]);
      assert entries[..i] + [entries[i]] == entries[..i + 1];
    }
    assert entries[..|entries|] == entries;
  }

  /** The text that is shown, entry by entry. */
  lemma RenderExactly(e: EnvEntry, rest: seq<EnvEntry>)
    ensures Render([]) == ""
    ensures Render([e] + rest)
         == (if e.comment == "" then "" else "  # " + e.comment + "\n") + ("  " + e.key + "=" + e.value + "\n")
            + Render(rest)
  {
    assert ([e] + rest)[1..] == rest;
    JoinLinesConcat(EntryLines(e), RenderLines(rest));
    EntryTextIsLines(e);
  }

  // ---------- Reading back ----------

  /** Text with no line break and no white space at its end. */
  predicate Tidy(s: string)
  {
    '\n' !in s && (s == "" || !IsSpace(s[|s| - 1]))
  }

  /** What an entry that was read looks like. */
  predicate EntryOk(e: EnvEntry)
  {
    IsKey(e.key) && Tidy(e.value) && Tidy(e.comment)
  }

  predicate AllOk(entries: seq<EnvEntry>)
  {
    forall e :: e in entries ==> EntryOk(e)
  }

  predicate CommentsOk(comments: seq<string>)
  {
    forall c :: c in comments ==> c != "" && Tidy(c)
  }

  lemma {:induction false} JoinTidy(comments: seq<string>)
    requires CommentsOk(comments)
    ensures Tidy(Join(comments, " ")) && (comments != [] ==> Join(comments, " ") != "")
  {
    if |comments| > 0 {
      assert comments[0] in comments;
      assert forall c :: c in comments[1..] ==> c in comments;
      JoinTidy(comments[1..]);
    }
  }

  /** One line: what it can add, a comment or an entry, is tidy. */
  lemma LineTidy(line: string)
    requires '\n' !in line
    ensures var t := TrimSpace(line);
            && Tidy(t)
            && (HasPrefix(t, "#") ==> TrimPrefix(t, "# ") != "" && Tidy(TrimPrefix(t, "# ")))
            && (MatchEntry(t).Some? ==> IsKey(MatchEntry(t).value.0) && Tidy(MatchEntry(t).value.1))
  {
    TrimIsTrimmed(line, IsSpace);
  }

  lemma {:induction false} LinesOk(lines: seq<string>, comments: seq<string>)
    requires (forall l :: l in lines ==> '\n' !in l) && CommentsOk(comments)
    ensures AllOk(ParseLines(lines, comments))
  {
    if lines != [] {
      var t := TrimSpace(lines[0]);
      assert lines[0] in lines && forall l :: l in lines[1..] ==> l in lines;
      LineTidy(lines[0]);
      if t == "" {
        LinesOk(lines[1..], []);
      } else if HasPrefix(t, "#") {
        LinesOk(lines[1..], comments + [TrimPrefix(t, "# ")]);
      } else if MatchEntry(t).Some? {
        JoinTidy(comments);
        LinesOk(lines[1..], []);
      } else {
        LinesOk(lines[1..], comments);
      }
    }
  }

  /** Every entry that was read can be printed on a line of its own. */
  lemma ParseOk(data: string)
    ensures AllOk(Parse(data))
  {
    SplitPieces(data, '\n');
    LinesOk(Split(data, '\n'), []);
  }

  lemma CommentLine(comment: string)
    requires comment != "" && Tidy(comment)
    ensures var t := TrimSpace("  # " + comment);
            t != "" && HasPrefix(t, "#") && TrimPrefix(t, "# ") == comment
  {
    var s := "# " + comment;
    TrimPadding("  ", s, IsSpace);
    assert "  " + s == "  # " + comment;
  }

  lemma EntryLine(e: EnvEntry)
    requires EntryOk(e)
    ensures var t := TrimSpace("  " + e.key + "=" + e.value);
            t != "" && !HasPrefix(t, "#") && MatchEntry(t) == Some((e.key, e.value))
  {
    var s := e.key + "=" + e.value;
    TrimPadding("  ", s, IsSpace);
    assert "  " + s == "  " + e.key + "=" + e.value;
    IndexOfConcat(e.key, e.value, '=');
    assert s[..|e.key|] == e.key && s[|e.key| + 1..] == e.value;
  }

  lemma EntryRead(e: EnvEntry, rest: seq<string>)
    requires EntryOk(e)
    ensures ParseLines(EntryLines(e) + rest, []) == [e] + ParseLines(rest, [])
  {
    var line := "  " + e.key + "=" + e.value;
    EntryLine(e);
    assert ([line] + rest)[1..] == rest;
    if e.comment != "" {
      CommentLine(e.comment);
      assert (EntryLines(e) + rest)[1..] == [line] + rest;
      assert [] + [e.comment] == [e.comment];
    }
  }

  lemma {:induction false} RenderedRead(entries: seq<EnvEntry>)
    requires AllOk(entries)
    ensures ParseLines(RenderLines(entries) + [""], []) == entries
  {
    if entries == [] {
      TrimIsTrimmed("", IsSpace);
      assert [""][1..] == [];
    } else {
      assert entries[0] in entries && forall x :: x in entries[1..] ==> x in entries;
      RenderedRead(entries[1..]);
      EntryRead(entries[0], RenderLines(entries[1..]) + [""]);
      assert RenderLines(entries) + [""] == EntryLines(entries[0]) + (RenderLines(entries[1..]) + [""]);
    }
  }

  lemma SplitNothing()
    ensures Split("", '\n') == [] + [""]
  {
  }

  lemma {:induction false} SplitJoined(lines: seq<string>)
    requires forall l :: l in lines ==> '\n' !in l
    ensures Split(JoinLines(lines), '\n') == lines + [""]
  {
    hide Split, IndexOf;
    if lines == [] {
      SplitNothing();
    } else {
      assert lines[0] in lines && forall l :: l in lines[1..] ==> l in lines;
      SplitJoined(lines[1..]);
      SplitCons(lines[0], JoinLines(lines[1..]), '\n');
      assert lines + [""] == [lines[0]] + (lines[1..] + [""]);
    }
  }

  lemma EntryLinesWhole(e: EnvEntry)
    requires EntryOk(e)
    ensures forall l :: l in EntryLines(e) ==> '\n' !in l
  {
    assert forall c :: c in e.key ==> KeyChar(c);
  }

  lemma {:induction false} RenderedLines(entries: seq<EnvEntry>)
    requires AllOk(entries)
    ensures forall l :: l in RenderLines(entries) ==> '\n' !in l
  {
    hide EntryOk, EntryLines;
    if entries != [] {
      assert entries[0] in entries && forall x :: x in entries[1..] ==> x in entries;
      EntryLinesWhole(entries[0]);
      RenderedLines(entries[1..]);
    }
  }

  /** Printed entries are read back as they were, comments and values included. */
  lemma ParseRender(entries: seq<EnvEntry>)
    requires AllOk(entries)
    ensures Parse(Render(entries)) == entries
  {
    RenderedLines(entries);
    SplitJoined(RenderLines(entries));
    RenderedRead(entries);
  }

  /** For any file: the entries shown in the prompt read back as the entries of the file. */
  lemma RenderedFileReads(data: string)
    ensures Parse(Render(Parse(data))) == Parse(data)
  {
    ParseOk(data);
    ParseRender(Parse(data));
  }

  /** What can be read is exactly what can be printed. */
  lemma Readable(entries: seq<EnvEntry>)
    ensures (exists data :: Parse(data) == entries) <==> AllOk(entries)
  {
    if AllOk(entries) {
      ParseRender(entries);
    }
    forall data | Parse(data) == entries
      ensures AllOk(entries)
    {
      ParseOk(data);
    }
  }
}
