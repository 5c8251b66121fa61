/**
  What a block says, told by the calls alone: for a recorder on its own and through the tee
  (recorder.go, tee.go).
 */
module BlockHistory {
  import opened Text
  import opened Blocks
  import opened TeeMirror

  // ---------- A recorder on its own ----------

  datatype RecorderCall =
    | StartCall(kind: Kind, title: string, meta: map<string, string>, at: int)
    | AppendCall(id: string, delta: string)
    | FinishCall(id: string, summary: string, status: Status, at: int)

  function RecorderStep(log: seq<Block>, call: RecorderCall): seq<Block>
  {
    match call
    case StartCall(kind, title, meta, at) => StartLog(log, kind, title, meta, at)
    case AppendCall(id, delta) => ChangeLog(log, id, AppendBody(delta))
    case FinishCall(id, summary, status, at) => ChangeLog(log, id, Finish(summary, status, at))
  }

  function RecorderRun(log: seq<Block>, calls: seq<RecorderCall>): seq<Block>
    decreases |calls|
  {
    if calls == [] then log else RecorderRun(RecorderStep(log, calls[0]), calls[1..])
  }

  /** Everything appended under an id, in call order. */
  function Appended(calls: seq<RecorderCall>, id: string): string
    decreases |calls|
  {
    if calls == [] then ""
    else (if calls[0].AppendCall? && calls[0].id == id then calls[0].delta else "") + Appended(calls[1..], id)
  }

  /** The last call that finished an id. */
  function LastFinish(calls: seq<RecorderCall>, id: string): Option<RecorderCall>
    decreases |calls|
  {
    if calls == [] then None
    else
      var later := LastFinish(calls[1..], id);
      if later.Some? then later
      else if calls[0].FinishCall? && calls[0].id == id then Some(calls[0])
      else None
  }

  /** A block with more text at its end, and finished if a call says so. */
  function Grown(b: Block, text: string, end: Option<RecorderCall>): Block
  {
    match end
    case Some(FinishCall(_, summary, status, at)) =>
      b.(body := b.body + text, summary := summary, status := status, endedAt := at)
    case _ => b.(body := b.body + text)
  }

  lemma StepKeepsNumbers(log: seq<Block>, call: RecorderCall)
    requires Numbered(log)
    ensures Numbered(RecorderStep(log, call))
    ensures |RecorderStep(log, call)| == |log| + if call.StartCall? then 1 else 0
  {
  }

  /** One call changes the block that it names, at its end, and no other. */
  lemma StepGrows(log: seq<Block>, call: RecorderCall, k: nat)
    requires Numbered(log) && k < |log|
    ensures |RecorderStep(log, call)| >= |log|
    ensures RecorderStep(log, call)[k] == Grown(log[k], Appended([call], Id(k + 1)), LastFinish([call], Id(k + 1)))
  {
    assert [call][1..] == [];
    var b := log[k];
    assert b.body + "" == b.body && b.(body := b.body) == b;
    if call.AppendCall? && call.id == b.id {
      assert Appended([call], Id(k + 1)) == call.delta + "" == call.delta;
    } else {
      assert Appended([call], Id(k + 1)) == "" + "" == "";
    }
  }

  lemma GrownTwice(b: Block, x: string, end: Option<RecorderCall>, y: string, later: Option<RecorderCall>)
    requires (end.Some? ==> end.value.FinishCall?) && (later.Some? ==> later.value.FinishCall?)
    ensures Grown(Grown(b, x, end), y, later) == Grown(b, x + y, if later.Some? then later else end)
  {
    assert b.body + x + y == b.body + (x + y);
  }

  lemma {:induction false} LastFinishFinishes(calls: seq<RecorderCall>, id: string)
    ensures LastFinish(calls, id).Some? ==> LastFinish(calls, id).value.FinishCall?
    decreases |calls|
  {
    if calls != [] {
      LastFinishFinishes(calls[1..], id);
    }
  }

  /**
    After any calls on a recorder, a block's body is what it was and then every text appended
    under its id, in call order, finished or not; summary, status and end time are those of
    the last call that finished it, and everything else is as it was started.
   */
  lemma {:induction false} RecorderTells(log: seq<Block>, calls: seq<RecorderCall>, k: nat)
    requires Numbered(log) && k < |log|
    ensures k < |RecorderRun(log, calls)|
    ensures RecorderRun(log, calls)[k] == Grown(log[k], Appended(calls, Id(k + 1)), LastFinish(calls, Id(k + 1)))
    decreases |calls|
  {
    hide RecorderStep, Grown, Numbered, Id;
    var id := Id(k + 1);
    if calls == [] {
      GrownByNothing(log[k]);
    } else {
      var log' := RecorderStep(log, calls[0]);
      StepKeepsNumbers(log, calls[0]);
      StepGrows(log, calls[0], k);
      RecorderTells(log', calls[1..], k);
      LastFinishFinishes([calls[0]], id);
      LastFinishFinishes(calls[1..], id);
      GrownTwice(log[k], Appended([calls[0]], id), LastFinish([calls[0]], id),
                 Appended(calls[1..], id), LastFinish(calls[1..], id));
      AppendedHead(calls, id);
    }
  }

  lemma GrownByNothing(b: Block)
    ensures Grown(b, "", None) == b
  {
    assert b.body + "" == b.body;
  }

  lemma AppendedHead(calls: seq<RecorderCall>, id: string)
    requires calls != []
    ensures Appended(calls, id) == Appended([calls[0]], id) + Appended(calls[1..], id)
    ensures LastFinish(calls, id)
         == if LastFinish(calls[1..], id).Some? then LastFinish(calls[1..], id) else LastFinish([calls[0]], id)
  {
    assert [calls[0]][1..] == [];
    assert Appended([calls[0]], id) == if calls[0].AppendCall? && calls[0].id == id then calls[0].delta else "";
  }

  /** The whole story of a block of a recorder, from the call that started it. */
  lemma RecorderTellsStarted(log: seq<Block>, kind: Kind, title: string, meta: map<string, string>, at: int,
                             later: seq<RecorderCall>)
    requires Numbered(log)
    ensures var id, all := Id(|log| + 1), RecorderRun(log, [StartCall(kind, title, meta, at)] + later);
            && |log| < |all|
            && all[|log|] == Grown(Block(id, kind, title, "", Streaming, "", meta, at, ZERO_TIME),
                                   Appended(later, id), LastFinish(later, id))
  {
    var start := StartCall(kind, title, meta, at);
    assert ([start] + later)[1..] == later;
    StepKeepsNumbers(log, start);
    RecorderTells(RecorderStep(log, start), later, |log|);
  }

  // ---------- Through the tee ----------

  /** What is appended under an id until it is closed, in call order. */
  function Said(calls: seq<Call>, id: string): string
    decreases |calls|
  {
    if calls == [] || (calls[0].Close? && calls[0].id == id) then ""
    else (if calls[0].Append? && calls[0].id == id then calls[0].delta else "") + Said(calls[1..], id)
  }

  /** The first call that closes an id; the later ones find it forgotten. */
  function FirstClose(calls: seq<Call>, id: string): Option<Call>
    decreases |calls|
  {
    if calls == [] then None
    else if calls[0].Close? && calls[0].id == id then Some(calls[0])
    else FirstClose(calls[1..], id)
  }

  /** An open block with more text at its end, and closed if a call closes it. */
  function Told(b: Block, text: string, close: Option<Call>): Block
  {
    match close
    case Some(Close(_, summary, failed, at)) =>
      b.(body := b.body + text, summary := summary, status := if failed then Failed else Done, endedAt := at)
    case _ => b.(body := b.body + text)
  }

  /** How many blocks the calls open. */
  function Openings(calls: seq<Call>): nat
    decreases |calls|
  {
    if calls == [] then 0 else (if calls[0].Start? || calls[0].OneShot? then 1 else 0) + Openings(calls[1..])
  }

  /** One call on an open block: appended to, closed, or left alone. */
  lemma WriteTells(base: nat, blocks: seq<Block>, call: Call, k: nat)
    requires k < |blocks| && blocks[k].status.Streaming?
    ensures var id := Id(base + k + 1);
            var blocks' := Write(base, blocks, call);
            && |blocks'| == |blocks| + (if call.Start? || call.OneShot? then 1 else 0)
            && blocks'[k] == match call
                             case Append(i, delta) => if i == id then Told(blocks[k], delta, None) else blocks[k]
                             case Close(i, _, _, _) => if i == id then Told(blocks[k], "", Some(call)) else blocks[k]
                             case _ => blocks[k]
  {
    var id := Id(base + k + 1);
    assert IsOpen(base, blocks, k, id);
    assert blocks[k].body + "" == blocks[k].body;
    if call.Append? || call.Close? {
      var j := OpenBlock(base, blocks, call.id);
      if call.id == id {
        OpenAmongFinds(base, blocks, id, |blocks|, k);
      } else if j == k {
        assert IsOpen(base, blocks, k, call.id);
      }
    }
  }

  lemma {:induction false} OpenTells(base: nat, blocks: seq<Block>, calls: seq<Call>, k: nat)
    requires k < |blocks| && blocks[k].status.Streaming?
    ensures var id, all := Id(base + k + 1), Transcript(base, blocks, calls);
            k < |all| && all[k] == Told(blocks[k], Said(calls, id), FirstClose(calls, id))
    decreases |calls|
  {
    hide Write, OpenBlock, Id;
    var id := Id(base + k + 1);
    var b := blocks[k];
    if calls == [] {
      assert b.body + "" == b.body;
    } else {
      var blocks' := Write(base, blocks, calls[0]);
      WriteTells(base, blocks, calls[0], k);
      if calls[0].Close? && calls[0].id == id {
        ClosedStaysInTranscript(base, blocks', calls[1..], k);
      } else {
        OpenTells(base, blocks', calls[1..], k);
        var rest := Said(calls[1..], id);
        if calls[0].Append? && calls[0].id == id {
          assert b.body + calls[0].delta + rest == b.body + (calls[0].delta + rest);
        } else {
          assert "" + rest == rest;
        }
      }
    }
  }

  lemma {:induction false} OpeningsCount(base: nat, blocks: seq<Block>, calls: seq<Call>)
    ensures |Transcript(base, blocks, calls)| == |blocks| + Openings(calls)
    decreases |calls|
  {
    if calls != [] {
      OpeningsCount(base, Write(base, blocks, calls[0]), calls[1..]);
    }
  }

  lemma {:induction false} TranscriptParts(base: nat, blocks: seq<Block>, a: seq<Call>, b: seq<Call>)
    ensures Transcript(base, blocks, a + b) == Transcript(base, Transcript(base, blocks, a), b)
    decreases |a|
  {
    hide Write;
    if a == [] {
      assert a + b == b;
    } else {
      assert (a + b)[0] == a[0] && (a + b)[1..] == a[1..] + b;
      TranscriptParts(base, Write(base, blocks, a[0]), a[1..], b);
    }
  }

  /** What the transcript says of the block that a call opens. */
  function Story(call: Call, later: seq<Call>, id: string): Block
    requires call.Start? || call.OneShot?
  {
    match call
    case Start(kind, title, meta, at) =>
      Told(Block("", kind, title, "", Streaming, "", meta, at, ZERO_TIME), Said(later, id), FirstClose(later, id))
    case OneShot(kind, title, body, failed, at) =>
      Block("", kind, title, body, if failed then Failed else Done, "", map[], at, at)
  }

  lemma TranscriptTells(base: nat, earlier: seq<Call>, call: Call, later: seq<Call>)
    requires call.Start? || call.OneShot?
    ensures var k, all := Openings(earlier), Transcript(base, [], earlier + [call] + later);
            k < |all| && all[k] == Story(call, later, Id(base + k + 1))
  {
    hide Id, Write, Transcript, Story;
    var blocks := Transcript(base, [], earlier);
    OpeningsCount(base, [], earlier);
    TranscriptParts(base, [], earlier + [call], later);
    TranscriptParts(base, [], earlier, [call]);
    OneWrite(base, blocks, call);
    OpenedTells(base, blocks, call, later);
  }

  lemma OneWrite(base: nat, blocks: seq<Block>, call: Call)
    ensures Transcript(base, blocks, [call]) == Write(base, blocks, call)
  {
    hide Write;
    assert [call][1..] == [] && Transcript(base, Write(base, blocks, call), []) == Write(base, blocks, call);
  }

  lemma OpenedTells(base: nat, blocks: seq<Block>, call: Call, later: seq<Call>)
    requires call.Start? || call.OneShot?
    ensures var k, all := |blocks|, Transcript(base, Write(base, blocks, call), later);
            k < |all| && all[k] == Story(call, later, Id(base + k + 1))
  {
    hide Id, Transcript, Said, FirstClose;
    if call.Start? {
      OpenTells(base, Write(base, blocks, call), later, |blocks|);
    } else {
      ClosedStaysInTranscript(base, Write(base, blocks, call), later, |blocks|);
    }
  }

  /**
    After any calls on a tee, every recorder tells the same story of a block, by the calls
    alone: kind, title, meta and start time of the call that opened it; the texts appended
    under its id before it was closed, in call order; and summary, status and end time of the
    call that closed it first. The id is that of the first recorder.
   */
  lemma TeeTells(prefixes: seq<seq<Block>>, earlier: seq<Call>, call: Call, later: seq<Call>, i: nat)
    requires AllNumbered(prefixes) && i < |prefixes| && (call.Start? || call.OneShot?)
    ensures var k, log := Openings(earlier), TeeRun(TeeState(prefixes, map[]), earlier + [call] + later).logs[i];
            && |prefixes[i]| + k < |log|
            && log[|prefixes[i]| + k]
                 == Story(call, later, Id(|prefixes[0]| + k + 1)).(id := Id(|prefixes[i]| + k + 1))
  {
    hide Id, Story, Mirrors, TeeRun, Transcript, AllNumbered;
    var base, calls := |prefixes[0]|, earlier + [call] + later;
    TeeMirrors(prefixes, calls);
    TranscriptTells(base, earlier, call, later);
    MirrorsAt(TeeRun(TeeState(prefixes, map[]), calls), prefixes, Transcript(base, [], calls), i, Openings(earlier));
  }

  lemma MirrorsAt(t: TeeState, prefixes: seq<seq<Block>>, blocks: seq<Block>, i: nat, k: nat)
    requires i < |prefixes| && k < |blocks| && Mirrors(t, prefixes, blocks)
    ensures i < |t.logs| && |prefixes[i]| + k < |t.logs[i]|
    ensures t.logs[i][|prefixes[i]| + k] == blocks[k].(id := Id(|prefixes[i]| + k + 1))
  {
    hide Id, MapsOpen;
    assert t.logs[i] == prefixes[i] + Named(|prefixes[i]|, blocks);
  }
}
