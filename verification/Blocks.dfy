/**
  The block recorder (recorder.go) and the tee that fans calls out to several of them
  (tee.go). The clock is an argument of every call.
 */
module Blocks {
  import opened Text

  datatype Kind = Setup | Notify | ClaudeText | ToolUse | AutoMergeAssessment | Result | Error

  datatype Status = Streaming | Done | Failed

  const ZERO_TIME: int := 0

  datatype Block = Block(id: string, kind: Kind, title: string, body: string, status: Status, summary: string,
                         meta: map<string, string>, startedAt: int, endedAt: int)

  function Id(n: nat): string { "b" + Itoa(n) }

  lemma IdInjective(m: nat, n: nat)
    requires Id(m) == Id(n)
    ensures m == n
  {
    assert Id(m)[1..] == Itoa(m) && Id(n)[1..] == Itoa(n);
    ItoaInjective(m, n);
  }

  // ---------- A recorder's log, in emit order ----------

  function NewBlock(id: string, kind: Kind, title: string, meta: map<string, string>, at: int): Block
  {
    Block(id, kind, title, "", Streaming, "", meta, at, ZERO_TIME)
  }

  /** What a call with a block id does to the block. */
  datatype Change = AppendBody(delta: string) | Finish(summary: string, status: Status, at: int)

  function Changed(b: Block, c: Change): Block
  {
    match c
    case AppendBody(delta) => b.(body := b.body + delta)
    case Finish(summary, status, at) => b.(status := status, summary := summary, endedAt := at)
  }

  function StartLog(log: seq<Block>, kind: Kind, title: string, meta: map<string, string>, at: int): seq<Block>
  {
    log + [NewBlock(Id(|log| + 1), kind, title, meta, at)]
  }

  function ChangeLog(log: seq<Block>, id: string, c: Change): seq<Block>
  {
    seq(|log|, k requires 0 <= k < |log| => if log[k].id == id then Changed(log[k], c) else log[k])
  }

  /** The blocks carry their numbers. */
  predicate Numbered(log: seq<Block>)
  {
    forall k :: 0 <= k < |log| ==> log[k].id == Id(k + 1)
  }

  function LastBlocks(log: seq<Block>, maxKeep: int): seq<Block>
  {
    if maxKeep <= 0 || |log| <= maxKeep then log else log[|log| - maxKeep..]
  }

  /** A block is in the snapshot exactly when it is among the last `maxKeep`, whatever its status. */
  lemma KeptExactly(log: seq<Block>, maxKeep: int, k: nat)
    requires Numbered(log) && k < |log|
    ensures log[k] in LastBlocks(log, maxKeep) <==> maxKeep <= 0 || |log| - maxKeep <= k
    ensures var kept := LastBlocks(log, maxKeep); |kept| <= |log| && kept == log[|log| - |kept|..]
  {
    hide Id;
    var kept := LastBlocks(log, maxKeep);
    var drop := |log| - |kept|;
    if log[k] in kept {
      var j :| 0 <= j < |kept| && kept[j] == log[k];
      assert log[drop + j] == log[k];
      IdInjective(drop + j + 1, k + 1);
    }
  }

  /** So a block in flight is dropped as soon as `maxKeep` later ones have started. */
  lemma InFlightDropped(log: seq<Block>, later: seq<Block>, maxKeep: nat, kind: Kind, title: string,
                        meta: map<string, string>, at: int)
    requires maxKeep > 0 && Numbered(StartLog(log, kind, title, meta, at) + later)
    ensures var all := StartLog(log, kind, title, meta, at) + later;
            all[|log|].status == Streaming && (all[|log|] in LastBlocks(all, maxKeep) <==> |later| < maxKeep)
  {
    KeptExactly(StartLog(log, kind, title, meta, at) + later, maxKeep, |log|);
  }

  /** A recorder's map and list agree, and its ids count up from 1. */
  predicate Indexed(byID: map<string, Block>, order: seq<string>)
  {
    && (forall k :: 0 <= k < |order| ==> order[k] == Id(k + 1) && order[k] in byID && byID[order[k]].id == order[k])
    && (forall id :: id in byID ==> id in order)
  }

  function Listed(byID: map<string, Block>, order: seq<string>): seq<Block>
    requires Indexed(byID, order)
  {
    seq(|order|, k requires 0 <= k < |order| => byID[order[k]])
  }

  lemma ListedStart(byID: map<string, Block>, order: seq<string>, b: Block)
    requires Indexed(byID, order) && b.id == Id(|order| + 1)
    ensures Indexed(byID[b.id := b], order + [b.id])
    ensures Listed(byID[b.id := b], order + [b.id]) == Listed(byID, order) + [b]
  {
    forall k | 0 <= k < |order|
      ensures order[k] != b.id
    {
      if order[k] == b.id {
        IdInjective(k + 1, |order| + 1);
      }
    }
    var order' := order + [b.id];
    forall id | id in byID[b.id := b]
      ensures id in order'
    {
      assert id == b.id || id in order;
      assert order'[|order|] == b.id;
    }
  }

  lemma ListedChange(byID: map<string, Block>, order: seq<string>, id: string, c: Change)
    requires Indexed(byID, order) && id in byID
    ensures Indexed(byID[id := Changed(byID[id], c)], order)
    ensures Listed(byID[id := Changed(byID[id], c)], order) == ChangeLog(Listed(byID, order), id, c)
  {
  }

  lemma ListedMissing(byID: map<string, Block>, order: seq<string>, id: string, c: Change)
    requires Indexed(byID, order) && id !in byID
    ensures ChangeLog(Listed(byID, order), id, c) == Listed(byID, order)
  {
  }

  class Recorder {
    var idGen: nat
    var byID: map<string, Block>
    var order: seq<string>
    const maxKeep: int

    /** The recorded blocks in emit order. */
    ghost var log: seq<Block>

    ghost predicate Valid()
      reads this
    {
      |order| == idGen && Indexed(byID, order) && log == Listed(byID, order)
    }

    constructor (maxKeep: int)
      ensures Valid() && log == [] && this.maxKeep == maxKeep
    {
      this.idGen := 0;
      this.byID := map[];
      this.order := [];
      this.log := [];
      this.maxKeep := maxKeep;
    }

    method StartAt(kind: Kind, title: string, meta: map<string, string>, startedAt: int) returns (id: string)
      requires Valid()
      modifies this
      ensures Valid() && log == StartLog(old(log), kind, title, meta, startedAt)
      ensures id == Id(|old(log)| + 1)
    {
      idGen := idGen + 1;
      id := Id(idGen);
      ListedStart(byID, order, NewBlock(id, kind, title, meta, startedAt));
      byID := byID[id := NewBlock(id, kind, title, meta, startedAt)];
      order := order + [id];
      log := StartLog(log, kind, title, meta, startedAt);
    }

    method Append(id: string, delta: string)
      requires Valid()
      modifies this
      ensures Valid() && log == ChangeLog(old(log), id, AppendBody(delta))
    {
      if id !in byID {
        ListedMissing(byID, order, id, AppendBody(delta));
      } else {
        ListedChange(byID, order, id, AppendBody(delta));
        byID := byID[id := byID[id].(body := byID[id].body + delta)];
        log := ChangeLog(log, id, AppendBody(delta));
      }
    }

    method FinishAt(id: string, summary: string, status: Status, endedAt: int)
      requires Valid()
      modifies this
      ensures Valid() && log == ChangeLog(old(log), id, Finish(summary, status, endedAt))
    {
      if id !in byID {
        ListedMissing(byID, order, id, Finish(summary, status, endedAt));
      } else {
        ListedChange(byID, order, id, Finish(summary, status, endedAt));
        byID := byID[id := byID[id].(status := status, summary := summary, endedAt := endedAt)];
        log := ChangeLog(log, id, Finish(summary, status, endedAt));
      }
    }

    method Snapshot() returns (out: seq<Block>)
      requires Valid()
      ensures out == LastBlocks(log, maxKeep)
    {
      out := [];
      for i := 0 to |order|
        invariant out == log[..i]
      {
        if order[i] in byID {
          out := out + [byID[order[i]]];
        }
      }
      assert out == log;
      if maxKeep <= 0 || |out| <= maxKeep {
        return;
      }
      var drop := |out| - maxKeep;
      out := out[drop..];
    }
  }

  // ---------- The tee ----------

  /** The logs of the wrapped recorders, and the ids of the open blocks in each of them. */
  datatype TeeState = TeeState(logs: seq<seq<Block>>, idMap: map<string, seq<string>>)

  predicate TeeOk(t: TeeState)
  {
    |t.logs| > 0 && forall id :: id in t.idMap ==> |t.idMap[id]| == |t.logs|
  }

  function NextIds(logs: seq<seq<Block>>): (ids: seq<string>)
    ensures |ids| == |logs|
  {
    seq(|logs|, i requires 0 <= i < |logs| => Id(|logs[i]| + 1))
  }

  function StartAll(logs: seq<seq<Block>>, kind: Kind, title: string, meta: map<string, string>,
                    at: int): (started: seq<seq<Block>>)
    ensures |started| == |logs|
  {
    seq(|logs|, i requires 0 <= i < |logs| => StartLog(logs[i], kind, title, meta, at))
  }

  function ChangeAll(logs: seq<seq<Block>>, ids: seq<string>, c: Change): (changed: seq<seq<Block>>)
    requires |ids| == |logs|
    ensures |changed| == |logs|
  {
    seq(|logs|, i requires 0 <= i < |logs| => ChangeLog(logs[i], ids[i], c))
  }

  lemma StartAllAt(logs: seq<seq<Block>>, kind: Kind, title: string, meta: map<string, string>, at: int, i: nat)
    requires i < |logs|
    ensures StartAll(logs, kind, title, meta, at)[i] == StartLog(logs[i], kind, title, meta, at)
    ensures NextIds(logs)[i] == Id(|logs[i]| + 1)
  {
  }

  lemma ChangeAllAt(logs: seq<seq<Block>>, ids: seq<string>, c: Change, i: nat)
    requires i < |logs| == |ids|
    ensures ChangeAll(logs, ids, c)[i] == ChangeLog(logs[i], ids[i], c)
  {
  }

  /** A call on the tee; `Notify`, `Result` and `Error` are one-shot calls. */
  datatype Call =
    | Start(kind: Kind, title: string, meta: map<string, string>, at: int)
    | Append(id: string, delta: string)
    | Close(id: string, summary: string, failed: bool, at: int)
    | OneShot(kind: Kind, title: string, body: string, failed: bool, at: int)

  function EndStatus(failed: bool): Status { if failed then Failed else Done }

  function Shot(logs: seq<seq<Block>>, kind: Kind, title: string, body: string, failed: bool, at: int): seq<seq<Block>>
  {
    var ids := NextIds(logs);
    var started := StartAll(logs, kind, title, map[], at);
    var bodied := if body != "" then ChangeAll(started, ids, AppendBody(body)) else started;
    ChangeAll(bodied, ids, Finish("", EndStatus(failed), at))
  }

  function TeeStep(t: TeeState, call: Call): (t': TeeState)
    requires TeeOk(t)
    ensures TeeOk(t') && |t'.logs| == |t.logs|
  {
    match call
    case Start(kind, title, meta, at) =>
      var ids := NextIds(t.logs);
      TeeState(StartAll(t.logs, kind, title, meta, at), t.idMap[ids[0] := ids])
    case Append(id, delta) =>
      if id !in t.idMap then t else t.(logs := ChangeAll(t.logs, t.idMap[id], AppendBody(delta)))
    case Close(id, summary, failed, at) =>
      if id !in t.idMap then t
      else TeeState(ChangeAll(t.logs, t.idMap[id], Finish(summary, EndStatus(failed), at)), t.idMap - {id})
    case OneShot(kind, title, body, failed, at) =>
      t.(logs := Shot(t.logs, kind, title, body, failed, at))
  }

  function TeeRun(t: TeeState, calls: seq<Call>): (t': TeeState)
    requires TeeOk(t)
    ensures TeeOk(t') && |t'.logs| == |t.logs|
    decreases |calls|
  {
    if calls == [] then t else TeeRun(TeeStep(t, calls[0]), calls[1..])
  }

  class Tee {
    const emitters: seq<Recorder>
    var idMap: map<string, seq<string>>

    ghost predicate Valid()
      reads this, emitters
    {
      && |emitters| > 1
      && (forall i, j :: 0 <= i < j < |emitters| ==> emitters[i] != emitters[j])
      && (forall i :: 0 <= i < |emitters| ==> emitters[i].Valid())
      && (forall id :: id in idMap ==> |idMap[id]| == |emitters|)
    }

    ghost function Logs(): (logs: seq<seq<Block>>)
      reads emitters
      ensures |logs| == |emitters| && forall i :: 0 <= i < |emitters| ==> logs[i] == emitters[i].log
    {
      seq(|emitters|, i requires 0 <= i < |emitters| reads emitters => emitters[i].log)
    }

    ghost function State(): (t: TeeState)
      requires Valid()
      reads this, emitters
      ensures TeeOk(t)
    {
      TeeState(Logs(), idMap)
    }

    constructor (emitters: seq<Recorder>)
      requires |emitters| > 1
      requires forall i, j :: 0 <= i < j < |emitters| ==> emitters[i] != emitters[j]
      requires forall i :: 0 <= i < |emitters| ==> emitters[i].Valid()
      ensures Valid() && this.emitters == emitters && State().idMap == map[]
    {
      this.emitters := emitters;
      this.idMap := map[];
    }

    /** The loop that starts a block in every recorder. */
    method StartEach(kind: Kind, title: string, meta: map<string, string>, now: int) returns (ids: seq<string>)
      requires Valid()
      modifies emitters
      ensures Valid() && idMap == old(idMap)
      ensures ids == NextIds(old(Logs()))
      ensures Logs() == StartAll(old(Logs()), kind, title, meta, now)
    {
      hide Recorder.Valid, Logs, StartLog, StartAll, NextIds;
      ids := [];
      ghost var before := Logs();
      ghost var goal, nextIds := StartAll(before, kind, title, meta, now), NextIds(before);
      for i := 0 to |emitters|
        invariant forall j :: 0 <= j < |emitters| ==> emitters[j].Valid()
        invariant ids == nextIds[..i]
        invariant forall j :: 0 <= j < i ==> emitters[j].log == goal[j]
        invariant forall j :: i <= j < |emitters| ==> emitters[j].log == before[j]
      {
        StartAllAt(before, kind, title, meta, now, i);
        var id := emitters[i].StartAt(kind, title, meta, now);
        assert emitters[i].log == goal[i] && id == nextIds[i];
        ids := ids + [id];
      }
    }

    method AppendEach(ids: seq<string>, delta: string)
      requires Valid() && |ids| == |emitters|
      modifies emitters
      ensures Valid() && idMap == old(idMap)
      ensures Logs() == ChangeAll(old(Logs()), ids, AppendBody(delta))
    {
      hide Recorder.Valid, Logs, ChangeLog, ChangeAll;
      ghost var before := Logs();
      ghost var goal := ChangeAll(before, ids, AppendBody(delta));
      for i := 0 to |emitters|
        invariant forall j :: 0 <= j < |emitters| ==> emitters[j].Valid()
        invariant forall j :: 0 <= j < i ==> emitters[j].log == goal[j]
        invariant forall j :: i <= j < |emitters| ==> emitters[j].log == before[j]
      {
        ChangeAllAt(before, ids, AppendBody(delta), i);
        emitters[i].Append(ids[i], delta);
        assert emitters[i].log == goal[i];
      }
    }

    method FinishEach(ids: seq<string>, summary: string, status: Status, now: int)
      requires Valid() && |ids| == |emitters|
      modifies emitters
      ensures Valid() && idMap == old(idMap)
      ensures Logs() == ChangeAll(old(Logs()), ids, Finish(summary, status, now))
    {
      hide Recorder.Valid, Logs, ChangeLog, ChangeAll;
      ghost var before := Logs();
      ghost var goal := ChangeAll(before, ids, Finish(summary, status, now));
      for i := 0 to |emitters|
        invariant forall j :: 0 <= j < |emitters| ==> emitters[j].Valid()
        invariant forall j :: 0 <= j < i ==> emitters[j].log == goal[j]
        invariant forall j :: i <= j < |emitters| ==> emitters[j].log == before[j]
      {
        ChangeAllAt(before, ids, Finish(summary, status, now), i);
        emitters[i].FinishAt(ids[i], summary, status, now);
        assert emitters[i].log == goal[i];
      }
    }

    method Start(kind: Kind, title: string, meta: map<string, string>, now: int) returns (id: string)
      requires Valid()
      modifies this, emitters
      ensures Valid() && State() == TeeStep(old(State()), Call.Start(kind, title, meta, now))
      ensures id == Id(|old(Logs())[0]| + 1)
    {
      hide Recorder.Valid, Logs, StartAll, ChangeAll, NextIds, Shot;
      StartAllAt(Logs(), kind, title, meta, now, 0);
      var ids := StartEach(kind, title, meta, now);
      idMap := idMap[ids[0] := ids];
      id := ids[0];
    }

    method Append(id: string, delta: string)
      requires Valid()
      modifies this, emitters
      ensures Valid() && State() == TeeStep(old(State()), Call.Append(id, delta))
    {
      hide Recorder.Valid, Logs, StartAll, ChangeAll, NextIds, Shot;
      if id !in idMap {
        return;
      }
      AppendEach(idMap[id], delta);
    }

    method Done(id: string, summary: string, now: int)
      requires Valid()
      modifies this, emitters
      ensures Valid() && State() == TeeStep(old(State()), Close(id, summary, false, now))
    {
      hide Recorder.Valid, Logs, StartAll, ChangeAll, NextIds, Shot;
      if id !in idMap {
        return;
      }
      FinishEach(idMap[id], summary, Status.Done, now);
      idMap := idMap - {id};
    }

    method Fail(id: string, summary: string, now: int)
      requires Valid()
      modifies this, emitters
      ensures Valid() && State() == TeeStep(old(State()), Close(id, summary, true, now))
    {
      hide Recorder.Valid, Logs, StartAll, ChangeAll, NextIds, Shot;
      if id !in idMap {
        return;
      }
      FinishEach(idMap[id], summary, Failed, now);
      idMap := idMap - {id};
    }

    method OneShotAt(kind: Kind, title: string, body: string, failed: bool, now: int)
      requires Valid()
      modifies this, emitters
      ensures Valid() && State() == TeeStep(old(State()), OneShot(kind, title, body, failed, now))
    {
      hide Recorder.Valid, Logs, StartAll, ChangeAll, NextIds;
      ghost var before := Logs();
      var ids := StartEach(kind, title, map[], now);
      ghost var started := Logs();
      assert started == StartAll(before, kind, title, map[], now);
      if body != "" {
        AppendEach(ids, body);
      }
      ghost var bodied := Logs();
      assert bodied == if body != "" then ChangeAll(started, ids, AppendBody(body)) else started;
      FinishEach(ids, "", EndStatus(failed), now);
      assert Logs() == Shot(before, kind, title, body, failed, now);
    }
  }
}
