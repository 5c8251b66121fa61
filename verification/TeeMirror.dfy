/**
  The tee keeps its recorders in step. One list of blocks without ids, the transcript,
  determines every wrapped recorder: each holds what it had before, then the transcript under
  its own numbering.
 */
module TeeMirror {
  import opened Text
  import opened Blocks

  /** The transcript as a recorder that already held `base` blocks records it. */
  function Named(base: nat, blocks: seq<Block>): seq<Block>
  {
    seq(|blocks|, k requires 0 <= k < |blocks| => blocks[k].(id := Id(base + k + 1)))
  }

  /** Block `k` is open, and the first recorder knows it as `id`. */
  predicate IsOpen(base: nat, blocks: seq<Block>, k: nat, id: string)
  {
    k < |blocks| && blocks[k].status.Streaming? && id == Id(base + k + 1)
  }

  /** The open block with this id; the length when there is none. */
  function OpenBlock(base: nat, blocks: seq<Block>, id: string): (k: nat)
    ensures k <= |blocks| && (k < |blocks| ==> IsOpen(base, blocks, k, id))
  {
    OpenAmong(base, blocks, id, |blocks|)
  }

  function OpenAmong(base: nat, blocks: seq<Block>, id: string, n: nat): (k: nat)
    requires n <= |blocks|
    ensures k == |blocks| || (k < n && IsOpen(base, blocks, k, id))
  {
    if n == 0 then |blocks|
    else if IsOpen(base, blocks, n - 1, id) then n - 1
    else OpenAmong(base, blocks, id, n - 1)
  }

  /** An id names one block at most. */
  lemma OneOpen(base: nat, blocks: seq<Block>, j: nat, k: nat, id: string)
    requires IsOpen(base, blocks, j, id) && IsOpen(base, blocks, k, id)
    ensures j == k
  {
    IdInjective(base + j + 1, base + k + 1);
  }

  lemma {:induction false} OpenAmongFinds(base: nat, blocks: seq<Block>, id: string, n: nat, k: nat)
    requires k < n <= |blocks| && IsOpen(base, blocks, k, id)
    ensures OpenAmong(base, blocks, id, n) == k
  {
    if IsOpen(base, blocks, n - 1, id) {
      OneOpen(base, blocks, n - 1, k, id);
    } else {
      OpenAmongFinds(base, blocks, id, n - 1, k);
    }
  }

  function ChangeOpen(base: nat, blocks: seq<Block>, id: string, c: Change): seq<Block>
  {
    var k := OpenBlock(base, blocks, id);
    if k < |blocks| then blocks[k := Changed(blocks[k], c)] else blocks
  }

  /** What a call on the tee writes: a new block, or a change of a block that is still open. */
  function Write(base: nat, blocks: seq<Block>, call: Call): seq<Block>
  {
    match call
    case Start(kind, title, meta, at) => blocks + [NewBlock("", kind, title, meta, at)]
    case Append(id, delta) => ChangeOpen(base, blocks, id, AppendBody(delta))
    case Close(id, summary, failed, at) => ChangeOpen(base, blocks, id, Finish(summary, EndStatus(failed), at))
    case OneShot(kind, title, body, failed, at) =>
      blocks + [Block("", kind, title, body, EndStatus(failed), "", map[], at, at)]
  }

  function Transcript(base: nat, blocks: seq<Block>, calls: seq<Call>): seq<Block>
    decreases |calls|
  {
    if calls == [] then blocks else Transcript(base, Write(base, blocks, calls[0]), calls[1..])
  }

  /** The ids of transcript block `k`, one for each recorder. */
  function IdsOf(prefixes: seq<seq<Block>>, k: nat): seq<string>
  {
    seq(|prefixes|, i requires 0 <= i < |prefixes| => Id(|prefixes[i]| + k + 1))
  }

  predicate LogsMirror(logs: seq<seq<Block>>, prefixes: seq<seq<Block>>, blocks: seq<Block>)
  {
    && |logs| == |prefixes| > 0
    && forall i :: 0 <= i < |logs| ==> logs[i] == prefixes[i] + Named(|prefixes[i]|, blocks)
  }

  /** The id map holds the ids of exactly the blocks that are still open. */
  ghost predicate MapsOpen(idMap: map<string, seq<string>>, prefixes: seq<seq<Block>>, blocks: seq<Block>)
    requires |prefixes| > 0
  {
    var base := |prefixes[0]|;
    && (forall k: nat, id :: IsOpen(base, blocks, k, id) ==> id in idMap && idMap[id] == IdsOf(prefixes, k))
    && (forall id :: id in idMap ==> exists k: nat :: IsOpen(base, blocks, k, id))
  }

  ghost predicate Mirrors(t: TeeState, prefixes: seq<seq<Block>>, blocks: seq<Block>)
  {
    LogsMirror(t.logs, prefixes, blocks) && MapsOpen(t.idMap, prefixes, blocks)
  }

  predicate AllNumbered(prefixes: seq<seq<Block>>)
  {
    |prefixes| > 0 && forall i :: 0 <= i < |prefixes| ==> Numbered(prefixes[i])
  }

  // ---------- One recorder ----------

  lemma NamedStart(prefix: seq<Block>, blocks: seq<Block>, kind: Kind, title: string, meta: map<string, string>,
                   at: int)
    ensures StartLog(prefix + Named(|prefix|, blocks), kind, title, meta, at)
         == prefix + Named(|prefix|, blocks + [NewBlock("", kind, title, meta, at)])
  {
    var b := NewBlock("", kind, title, meta, at);
    assert Named(|prefix|, blocks + [b]) == Named(|prefix|, blocks) + [b.(id := Id(|prefix| + |blocks| + 1))];
  }

  lemma NamedChange(prefix: seq<Block>, blocks: seq<Block>, k: nat, c: Change)
    requires Numbered(prefix) && k < |blocks|
    ensures ChangeLog(prefix + Named(|prefix|, blocks), Id(|prefix| + k + 1), c)
         == prefix + Named(|prefix|, blocks[k := Changed(blocks[k], c)])
  {
    var log := prefix + Named(|prefix|, blocks);
    forall j | 0 <= j < |log|
      ensures log[j].id == Id(j + 1)
      ensures log[j].id == Id(|prefix| + k + 1) <==> j == |prefix| + k
    {
      if log[j].id == Id(|prefix| + k + 1) {
        IdInjective(j + 1, |prefix| + k + 1);
      }
    }
  }

  // ---------- All recorders ----------

  lemma StartMirrors(logs: seq<seq<Block>>, prefixes: seq<seq<Block>>, blocks: seq<Block>,
                     kind: Kind, title: string, meta: map<string, string>, at: int)
    requires LogsMirror(logs, prefixes, blocks)
    ensures LogsMirror(StartAll(logs, kind, title, meta, at), prefixes, blocks + [NewBlock("", kind, title, meta, at)])
    ensures NextIds(logs) == IdsOf(prefixes, |blocks|)
  {
    forall i | 0 <= i < |logs|
      ensures StartLog(logs[i], kind, title, meta, at)
           == prefixes[i] + Named(|prefixes[i]|, blocks + [NewBlock("", kind, title, meta, at)])
    {
      NamedStart(prefixes[i], blocks, kind, title, meta, at);
    }
  }

  lemma ChangeMirrors(logs: seq<seq<Block>>, prefixes: seq<seq<Block>>, blocks: seq<Block>, k: nat, c: Change)
    requires LogsMirror(logs, prefixes, blocks) && AllNumbered(prefixes) && k < |blocks|
    ensures LogsMirror(ChangeAll(logs, IdsOf(prefixes, k), c), prefixes, blocks[k := Changed(blocks[k], c)])
  {
    forall i | 0 <= i < |logs|
      ensures ChangeLog(logs[i], IdsOf(prefixes, k)[i], c)
           == prefixes[i] + Named(|prefixes[i]|, blocks[k := Changed(blocks[k], c)])
    {
      NamedChange(prefixes[i], blocks, k, c);
    }
  }

  lemma ShotMirrors(logs: seq<seq<Block>>, prefixes: seq<seq<Block>>, blocks: seq<Block>,
                    kind: Kind, title: string, body: string, failed: bool, at: int)
    requires LogsMirror(logs, prefixes, blocks) && AllNumbered(prefixes)
    ensures LogsMirror(Shot(logs, kind, title, body, failed, at), prefixes,
                       blocks + [Block("", kind, title, body, EndStatus(failed), "", map[], at, at)])
  {
    var b := NewBlock("", kind, title, map[], at);
    var ids := IdsOf(prefixes, |blocks|);
    var started := StartAll(logs, kind, title, map[], at);
    StartMirrors(logs, prefixes, blocks, kind, title, map[], at);
    var bodied := if body != "" then ChangeAll(started, ids, AppendBody(body)) else started;
    if body != "" {
      ChangeMirrors(started, prefixes, blocks + [b], |blocks|, AppendBody(body));
      assert "" + body == body;
    }
    var withBody := b.(body := body);
    assert (blocks + [b])[|blocks| := withBody] == blocks + [withBody];
    assert LogsMirror(bodied, prefixes, blocks + [withBody]);
    ChangeMirrors(bodied, prefixes, blocks + [withBody], |blocks|, Finish("", EndStatus(failed), at));
    var done := Changed(withBody, Finish("", EndStatus(failed), at));
    assert (blocks + [withBody])[|blocks| := done] == blocks + [done];
  }

  // ---------- The id map ----------

  lemma MapAfterStart(idMap: map<string, seq<string>>, prefixes: seq<seq<Block>>, blocks: seq<Block>, b: Block)
    requires |prefixes| > 0 && MapsOpen(idMap, prefixes, blocks) && b.status.Streaming?
    ensures MapsOpen(idMap[Id(|prefixes[0]| + |blocks| + 1) := IdsOf(prefixes, |blocks|)], prefixes, blocks + [b])
  {
    var base, blocks' := |prefixes[0]|, blocks + [b];
    var newId := Id(base + |blocks| + 1);
    var idMap' := idMap[newId := IdsOf(prefixes, |blocks|)];
    forall k: nat, id | IsOpen(base, blocks', k, id)
      ensures id in idMap' && idMap'[id] == IdsOf(prefixes, k)
    {
      if k < |blocks| {
        assert IsOpen(base, blocks, k, id);
        if id == newId {
          IdInjective(base + k + 1, base + |blocks| + 1);
        }
      }
    }
    forall id | id in idMap'
      ensures exists k: nat :: IsOpen(base, blocks', k, id)
    {
      if id == newId {
        assert IsOpen(base, blocks', |blocks|, id);
      } else {
        var k: nat :| IsOpen(base, blocks, k, id);
        assert IsOpen(base, blocks', k, id);
      }
    }
  }

  lemma MapAfterShot(idMap: map<string, seq<string>>, prefixes: seq<seq<Block>>, blocks: seq<Block>, b: Block)
    requires |prefixes| > 0 && MapsOpen(idMap, prefixes, blocks) && !b.status.Streaming?
    ensures MapsOpen(idMap, prefixes, blocks + [b])
  {
    var base, blocks' := |prefixes[0]|, blocks + [b];
    forall k: nat, id
      ensures IsOpen(base, blocks', k, id) <==> IsOpen(base, blocks, k, id)
    {
    }
    forall id | id in idMap
      ensures exists k: nat :: IsOpen(base, blocks', k, id)
    {
      var k: nat :| IsOpen(base, blocks, k, id);
      assert IsOpen(base, blocks', k, id);
    }
  }

  lemma MapAfterAppend(idMap: map<string, seq<string>>, prefixes: seq<seq<Block>>, blocks: seq<Block>, k: nat, b: Block)
    requires |prefixes| > 0 && MapsOpen(idMap, prefixes, blocks)
    requires k < |blocks| && b.status == blocks[k].status
    ensures MapsOpen(idMap, prefixes, blocks[k := b])
  {
    var base, blocks' := |prefixes[0]|, blocks[k := b];
    forall j: nat, id
      ensures IsOpen(base, blocks', j, id) <==> IsOpen(base, blocks, j, id)
    {
    }
    forall id | id in idMap
      ensures exists j: nat :: IsOpen(base, blocks', j, id)
    {
      var j: nat :| IsOpen(base, blocks, j, id);
      assert IsOpen(base, blocks', j, id);
    }
  }

  lemma MapAfterClose(idMap: map<string, seq<string>>, prefixes: seq<seq<Block>>, blocks: seq<Block>, k: nat,
                      id0: string, b: Block)
    requires |prefixes| > 0 && MapsOpen(idMap, prefixes, blocks)
    requires IsOpen(|prefixes[0]|, blocks, k, id0) && !b.status.Streaming?
    ensures MapsOpen(idMap - {id0}, prefixes, blocks[k := b])
  {
    hide IdsOf;
    var base, blocks' := |prefixes[0]|, blocks[k := b];
    forall j: nat, id | IsOpen(base, blocks', j, id)
      ensures IsOpen(base, blocks, j, id) && id != id0
    {
      assert IsOpen(base, blocks, j, id);
      if id == id0 {
        OneOpen(base, blocks, j, k, id);
      }
    }
    forall id | id in idMap - {id0}
      ensures exists j: nat :: IsOpen(base, blocks', j, id)
    {
      var j: nat :| IsOpen(base, blocks, j, id);
      assert IsOpen(base, blocks', j, id);
    }
  }

  // ---------- Runs ----------

  lemma CallMirrors(t: TeeState, prefixes: seq<seq<Block>>, blocks: seq<Block>, call: Call)
    requires TeeOk(t) && AllNumbered(prefixes) && Mirrors(t, prefixes, blocks)
    ensures Mirrors(TeeStep(t, call), prefixes, Write(|prefixes[0]|, blocks, call))
  {
    match call
    case Start(kind, title, meta, at) =>
      StartMirrors(t.logs, prefixes, blocks, kind, title, meta, at);
      MapAfterStart(t.idMap, prefixes, blocks, NewBlock("", kind, title, meta, at));
    case Append(id, delta) =>
      ChangeCallMirrors(t, prefixes, blocks, id, AppendBody(delta));
    case Close(id, summary, failed, at) =>
      ChangeCallMirrors(t, prefixes, blocks, id, Finish(summary, EndStatus(failed), at));
    case OneShot(kind, title, body, failed, at) =>
      ShotMirrors(t.logs, prefixes, blocks, kind, title, body, failed, at);
      MapAfterShot(t.idMap, prefixes, blocks, Block("", kind, title, body, EndStatus(failed), "", map[], at, at));
  }

  lemma ChangeCallMirrors(t: TeeState, prefixes: seq<seq<Block>>, blocks: seq<Block>, id: string, c: Change)
    requires TeeOk(t) && AllNumbered(prefixes) && Mirrors(t, prefixes, blocks)
    requires c.Finish? ==> !c.status.Streaming?
    ensures var blocks' := ChangeOpen(|prefixes[0]|, blocks, id, c);
            if id !in t.idMap then blocks' == blocks
            else
              && LogsMirror(ChangeAll(t.logs, t.idMap[id], c), prefixes, blocks')
              && MapsOpen(if c.Finish? then t.idMap - {id} else t.idMap, prefixes, blocks')
  {
    var base := |prefixes[0]|;
    var k := OpenBlock(base, blocks, id);
    if id in t.idMap {
      var open: nat :| IsOpen(base, blocks, open, id);
      OpenAmongFinds(base, blocks, id, |blocks|, open);
      ChangeMirrors(t.logs, prefixes, blocks, k, c);
      if c.Finish? {
        MapAfterClose(t.idMap, prefixes, blocks, k, id, Changed(blocks[k], c));
      } else {
        MapAfterAppend(t.idMap, prefixes, blocks, k, Changed(blocks[k], c));
      }
    }
  }

  lemma {:induction false} RunMirrors(t: TeeState, prefixes: seq<seq<Block>>, blocks: seq<Block>, calls: seq<Call>)
    requires TeeOk(t) && AllNumbered(prefixes) && Mirrors(t, prefixes, blocks)
    ensures Mirrors(TeeRun(t, calls), prefixes, Transcript(|prefixes[0]|, blocks, calls))
    decreases |calls|
  {
    if calls != [] {
      CallMirrors(t, prefixes, blocks, calls[0]);
      RunMirrors(TeeStep(t, calls[0]), prefixes, Write(|prefixes[0]|, blocks, calls[0]), calls[1..]);
    }
  }

  /**
    After any calls on a new tee, every recorder holds what it had and then the same
    transcript, and the id map knows exactly the blocks that are still open.
   */
  lemma TeeMirrors(prefixes: seq<seq<Block>>, calls: seq<Call>)
    requires AllNumbered(prefixes)
    ensures var t := TeeRun(TeeState(prefixes, map[]), calls);
            Mirrors(t, prefixes, Transcript(|prefixes[0]|, [], calls))
  {
    forall i | 0 <= i < |prefixes|
      ensures prefixes[i] == prefixes[i] + Named(|prefixes[i]|, [])
    {
    }
    assert MapsOpen(map[], prefixes, []);
    RunMirrors(TeeState(prefixes, map[]), prefixes, [], calls);
  }

  function Anonymous(blocks: seq<Block>): seq<Block>
  {
    seq(|blocks|, k requires 0 <= k < |blocks| => blocks[k].(id := ""))
  }

  /** Recorders that were new when the tee was made have the same snapshots, ids included. */
  lemma SnapshotsAgree(count: nat, calls: seq<Call>, i: nat, j: nat, maxKeep: int)
    requires i < count && j < count
    ensures var t := TeeRun(TeeState(seq(count, n => []), map[]), calls);
            LastBlocks(t.logs[i], maxKeep) == LastBlocks(t.logs[j], maxKeep)
  {
    var prefixes: seq<seq<Block>> := seq(count, n => []);
    TeeMirrors(prefixes, calls);
  }

  /** With older blocks in the recorders, whatever the tee wrote still differs in the ids only. */
  lemma TeeBlocksAgree(prefixes: seq<seq<Block>>, calls: seq<Call>, i: nat, j: nat)
    requires AllNumbered(prefixes) && i < |prefixes| && j < |prefixes|
    ensures var t := TeeRun(TeeState(prefixes, map[]), calls);
            && prefixes[i] <= t.logs[i] && prefixes[j] <= t.logs[j]
            && Anonymous(t.logs[i][|prefixes[i]|..]) == Anonymous(t.logs[j][|prefixes[j]|..])
  {
    TeeMirrors(prefixes, calls);
    var blocks := Transcript(|prefixes[0]|, [], calls);
    assert Anonymous(Named(|prefixes[i]|, blocks)) == Anonymous(Named(|prefixes[j]|, blocks));
  }

  // ---------- Closed blocks ----------

  lemma {:induction false} ClosedStaysInTranscript(base: nat, blocks: seq<Block>, calls: seq<Call>, k: nat)
    requires k < |blocks| && !blocks[k].status.Streaming?
    ensures k < |Transcript(base, blocks, calls)| && Transcript(base, blocks, calls)[k] == blocks[k]
    decreases |calls|
  {
    if calls != [] {
      ClosedStaysInTranscript(base, Write(base, blocks, calls[0]), calls[1..], k);
    }
  }

  /**
    A block that was there before the tee, or that was closed through it, is never changed by
    later calls on the tee, whatever ids they carry. The state is any that a run can reach.
   */
  lemma ClosedStays(prefixes: seq<seq<Block>>, calls: seq<Call>, more: seq<Call>, i: nat, k: nat)
    requires AllNumbered(prefixes) && i < |prefixes|
    requires var log := TeeRun(TeeState(prefixes, map[]), calls).logs[i];
             k < |log| && (k < |prefixes[i]| || !log[k].status.Streaming?)
    ensures var t := TeeRun(TeeState(prefixes, map[]), calls);
            k < |TeeRun(t, more).logs[i]| && TeeRun(t, more).logs[i][k] == t.logs[i][k]
  {
    TeeMirrors(prefixes, calls);
    ClosedStaysFrom(TeeRun(TeeState(prefixes, map[]), calls), prefixes,
                    Transcript(|prefixes[0]|, [], calls), more, i, k);
  }

  lemma ClosedStaysFrom(t: TeeState, prefixes: seq<seq<Block>>, blocks: seq<Block>, more: seq<Call>, i: nat, k: nat)
    requires TeeOk(t) && AllNumbered(prefixes) && i < |prefixes| && Mirrors(t, prefixes, blocks)
    requires k < |t.logs[i]| && (k < |prefixes[i]| || !t.logs[i][k].status.Streaming?)
    ensures k < |TeeRun(t, more).logs[i]| && TeeRun(t, more).logs[i][k] == t.logs[i][k]
  {
    var base, before := |prefixes[0]|, |prefixes[i]|;
    RunMirrors(t, prefixes, blocks, more);
    var log := TeeRun(t, more).logs[i];
    var later := Transcript(base, blocks, more);
    assert log == prefixes[i] + Named(before, later);
    assert t.logs[i] == prefixes[i] + Named(before, blocks);
    if k >= before {
      ClosedStaysInTranscript(base, blocks, more, k - before);
    }
  }

  /** A recorder by itself lets a closed block grow and be closed a second time. */
  lemma BareRecorderReopens(log: seq<Block>, k: nat, delta: string, summary: string, at: int)
    requires Numbered(log) && k < |log| && log[k].status.Done? && delta != ""
    ensures ChangeLog(log, log[k].id, AppendBody(delta))[k] != log[k]
    ensures ChangeLog(log, log[k].id, Finish(summary, Failed, at))[k].status == Failed
  {
    assert |log[k].body + delta| > |log[k].body|;
  }
}
