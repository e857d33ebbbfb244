/** Evaluating one cycle keeps the pipeline's structure and leaves nothing of that cycle behind. */
module PipelineCycles {
  import opened TageHistories
  import opened Pipelines
  import opened PipelineInvariants

  /** What one cycle never changes. */
  ghost predicate SameFront(p: Pipe, q: Pipe) {
    && q.ops == p.ops && q.hist == p.hist
    && q.fetchCycle == p.fetchCycle && q.previousFetchCycle == p.previousFetchCycle
    && q.numFetched == p.numFetched && q.numFetchedBranch == p.numFetchedBranch
    && p.log <= q.log && |q.window| <= |p.window|
  }

  // ---------------------------------------------------------------- decode

  lemma NoticeOfItem(p: Pipe, q: seq<Item>, s: Stage, k: nat)
    requires StructureOk(p) && QueueOk(q, s, p.ops, p.log) && k < |q|
    ensures p.ops[q[k].seqNo].Notice(s) == Notify(s, q[k].seqNo, q[k].cycle)
  {
  }

  lemma FirstStage(log: seq<Event>, ops: seq<Op>, id: nat)
    requires id < |ops|
    ensures EventOk(log, Notify(Decode, id, ops[id].decode), ops)
  {
  }

  lemma DecodeOne(p: Pipe, t: nat)
    requires StructureOk(p) && p.dq != [] && p.dq[0].cycle == t
    ensures StructureOk(p.(dq := p.dq[1..], log := p.log + [Notify(Decode, p.dq[0].seqNo, t)]))
  {
    hide OpsOk;
    hide EventOk;
    var id := p.dq[0].seqNo;
    var e := Notify(Decode, id, t);
    assert e == p.ops[id].Notice(Decode) by {
      NoticeOfItem(p, p.dq, Decode, 0);
    }
    assert EventOk(p.log, e, p.ops) by {
      FirstStage(p.log, p.ops, id);
    }
    LogAppend(p.log, e, p.ops);
    OwnQueue(p.dq, Decode, p.ops, p.log, 0);
    assert Removed(p.dq, 0) == p.dq[1..];
    OtherQueue(p.aq, Agen, p.ops, p.log, e);
    OtherQueue(p.eq, Execute, p.ops, p.log, e);
    OtherWindow(p.window, p.ops, p.log, e);
    OtherCheckpoints(p.checkpoints, p.ops, p.log, e);
  }

  lemma DecodeFrontFirst(p: Pipe, t: nat)
    requires StructureOk(p) && NothingBefore(p.dq, t) && (p.dq != [] ==> p.dq[0].cycle != t)
    ensures NothingBefore(p.dq, t + 1)
  {
  }

  lemma {:induction false} DecodeCycle(p: Pipe, t: nat)
    requires StructureOk(p) && Timely(p, t, t, t, t)
    ensures var q := EvalDecode(p, t);
            && StructureOk(q) && Timely(q, t + 1, t, t, t)
            && SameFront(p, q) && q.window == p.window && q.checkpoints == p.checkpoints
    decreases |p.dq|
  {
    hide StructureOk;
    if p.dq != [] && p.dq[0].cycle == t {
      var next := p.(dq := p.dq[1..], log := p.log + [Notify(Decode, p.dq[0].seqNo, t)]);
      DecodeOne(p, t);
      assert forall k :: 0 <= k < |next.dq| ==> next.dq[k] == p.dq[k + 1];
      DecodeCycle(next, t);
    } else {
      DecodeFrontFirst(p, t);
    }
  }

  // ---------------------------------------------------------------- address generation

  lemma SecondStage(log: seq<Event>, ops: seq<Op>, id: nat)
    requires id < |ops| && ops[id].Passes(Agen) && Heard(log, ops[id], Decode)
    ensures EventOk(log, Notify(Agen, id, ops[id].agen), ops)
  {
  }

  lemma AgenOne(p: Pipe, t: nat, k: nat)
    requires StructureOk(p) && NothingBefore(p.dq, t + 1) && k < |p.aq| && p.aq[k].cycle == t
    ensures StructureOk(p.(aq := Removed(p.aq, k), log := p.log + [Notify(Agen, p.aq[k].seqNo, t)]))
  {
    hide EventOk;
    var id := p.aq[k].seqNo;
    var e := Notify(Agen, id, t);
    NoticeOfItem(p, p.aq, Agen, k);
    assert EventOk(p.log, e, p.ops) by {
      PastIsHeard(p.dq, Decode, p.ops, p.log, t + 1, id);
      SecondStage(p.log, p.ops, id);
    }
    hide OpsOk;
    LogAppend(p.log, e, p.ops);
    OwnQueue(p.aq, Agen, p.ops, p.log, k);
    OtherQueue(p.dq, Decode, p.ops, p.log, e);
    OtherQueue(p.eq, Execute, p.ops, p.log, e);
    OtherWindow(p.window, p.ops, p.log, e);
    OtherCheckpoints(p.checkpoints, p.ops, p.log, e);
  }

  lemma {:induction false} AgenCycle(p: Pipe, t: nat, k: nat)
    requires StructureOk(p) && Timely(p, t + 1, t, t, t)
    requires forall l :: 0 <= l < k && l < |p.aq| ==> p.aq[l].cycle > t
    ensures var q := EvalAgen(p, t, k);
            && StructureOk(q) && Timely(q, t + 1, t + 1, t, t)
            && SameFront(p, q) && q.window == p.window && q.checkpoints == p.checkpoints
    decreases |p.aq| - k
  {
    hide StructureOk;
    if k < |p.aq| {
      if p.aq[k].cycle != t {
        assert p.aq[k].cycle >= t;
        AgenCycle(p, t, k + 1);
      } else {
        var next := p.(aq := Removed(p.aq, k), log := p.log + [Notify(Agen, p.aq[k].seqNo, t)]);
        AgenOne(p, t, k);
        assert forall l :: 0 <= l < |next.aq| ==> next.aq[l] == p.aq[if l < k then l else l + 1];
        AgenCycle(next, t, k);
      }
    }
  }

  // ---------------------------------------------------------------- execution

  lemma ThirdStage(log: seq<Event>, ops: seq<Op>, id: nat)
    requires id < |ops| && Heard(log, ops[id], Decode) && (ops[id].Passes(Agen) ==> Heard(log, ops[id], Agen))
    requires Asked(log, ops[id])
    ensures EventOk(log, Notify(Execute, id, ops[id].exec), ops)
  {
  }

  lemma KeysDiffer(ops: seq<Op>, i: nat, j: nat)
    requires OpsOk(ops) && i < |ops| && j < |ops| && i != j
    ensures ops[i].Key() != ops[j].Key()
  {
  }

  /** Executing a micro-op that is not a conditional branch touches no checkpoint. */
  lemma CheckpointsUntouched(checkpoints: map<nat, LiveHist>, ops: seq<Op>, log: seq<Event>, id: nat)
    requires OpsOk(ops) && CheckpointsOk(checkpoints, ops, log) && id < |ops| && !ops[id].Conditional()
    ensures CheckpointsOk(checkpoints, ops, log + [ops[id].Notice(Execute)])
  {
    hide OpOk;
    forall i | 0 <= i < |ops| && i != id
      ensures Heard(log + [ops[id].Notice(Execute)], ops[i], Execute) <==> Heard(log, ops[i], Execute)
    {
      assert ops[i].seqNo == i && ops[id].seqNo == id;
    }
  }

  /** Resolving a conditional branch finds its checkpoint, the history it was predicted with, and drops it. */
  lemma CheckpointResolved(checkpoints: map<nat, LiveHist>, ops: seq<Op>, log: seq<Event>, id: nat)
    requires OpsOk(ops) && CheckpointsOk(checkpoints, ops, log)
    requires id < |ops| && ops[id].Conditional() && !Heard(log, ops[id], Execute)
    ensures ops[id].Key() in checkpoints && checkpoints[ops[id].Key()] == ops[id].live
    ensures CheckpointsOk(checkpoints - {ops[id].Key()}, ops,
            log + [ops[id].Notice(Execute)] + [Train(id, ops[id].live)])
  {
    hide OpOk;
    var log' := log + [ops[id].Notice(Execute)] + [Train(id, ops[id].live)];
    forall i | 0 <= i < |ops|
      ensures Heard(log', ops[i], Execute) <==> Heard(log, ops[i], Execute) || i == id
      ensures i != id ==> ops[i].Key() != ops[id].Key()
    {
      assert ops[i].seqNo == i && ops[id].seqNo == id;
      if i != id {
        KeysDiffer(ops, i, id);
      }
    }
  }

  lemma TrainedEvent(log: seq<Event>, ops: seq<Op>, id: nat)
    requires LogOk(log, ops) && OpsOk(ops) && id < |ops| && ops[id].Conditional() && !Heard(log, ops[id], Execute)
    requires LogOk(log + [ops[id].Notice(Execute)], ops)
    ensures LogOk(log + [ops[id].Notice(Execute)] + [Train(id, ops[id].live)], ops)
  {
    var e := Train(id, ops[id].live);
    var log' := log + [ops[id].Notice(Execute)];
    forall k | 0 <= k < |log|
      ensures log[k] != e
    {
      assert EventOk(log[..k], log[k], ops);
      if log[k].Train? && log[k].id == id {
        assert false;
      }
    }
    LogAppend(log', e, ops);
  }

  lemma ExecOneLog(p: Pipe, t: nat, k: nat)
    requires StructureOk(p) && AllAsked(p.log, p.ops) && NothingBefore(p.dq, t + 1) && NothingBefore(p.aq, t + 1)
    requires k < |p.eq| && p.eq[k].cycle == t
    ensures p.ops[p.eq[k].seqNo].Notice(Execute) == Notify(Execute, p.eq[k].seqNo, t)
    ensures LogOk(p.log + [Notify(Execute, p.eq[k].seqNo, t)], p.ops)
  {
    hide EventOk;
    var id := p.eq[k].seqNo;
    NoticeOfItem(p, p.eq, Execute, k);
    assert EventOk(p.log, Notify(Execute, id, t), p.ops) by {
      PastIsHeard(p.dq, Decode, p.ops, p.log, t + 1, id);
      if p.ops[id].Passes(Agen) {
        PastIsHeard(p.aq, Agen, p.ops, p.log, t + 1, id);
      }
      ThirdStage(p.log, p.ops, id);
    }
    LogAppend(p.log, Notify(Execute, id, t), p.ops);
  }

  lemma ExecOne(p: Pipe, t: nat, k: nat)
    requires StructureOk(p) && AllAsked(p.log, p.ops) && NothingBefore(p.dq, t + 1) && NothingBefore(p.aq, t + 1)
    requires k < |p.eq| && p.eq[k].cycle == t
    ensures StructureOk(Resolved(p, p.eq[k], t).(eq := Removed(p.eq, k)))
  {
    hide EventOk;
    hide LogOk;
    hide OpOk;
    var id := p.eq[k].seqNo;
    var e := Notify(Execute, id, t);
    assert Waits(p.eq[k], Execute, p.ops, p.log);
    hide QueueOk;
    hide WindowOk;
    hide CheckpointsOk;
    hide OpsOk;
    hide AllAsked;
    hide NothingBefore;
    ExecOneLog(p, t, k);
    OwnQueue(p.eq, Execute, p.ops, p.log, k);
    OtherQueue(p.dq, Decode, p.ops, p.log, e);
    OtherQueue(p.aq, Agen, p.ops, p.log, e);
    OtherWindow(p.window, p.ops, p.log, e);
    if p.ops[id].Conditional() {
      CheckpointResolved(p.checkpoints, p.ops, p.log, id);
      TrainedEvent(p.log, p.ops, id);
      var log, tr := p.log + [e], Train(id, p.ops[id].live);
      OtherQueue(Removed(p.eq, k), Execute, p.ops, log, tr);
      OtherQueue(p.dq, Decode, p.ops, log, tr);
      OtherQueue(p.aq, Agen, p.ops, log, tr);
      OtherWindow(p.window, p.ops, log, tr);
    } else {
      CheckpointsUntouched(p.checkpoints, p.ops, p.log, id);
    }
  }

  lemma AskedStill(log: seq<Event>, log': seq<Event>, ops: seq<Op>)
    requires AllAsked(log, ops) && log <= log'
    ensures AllAsked(log', ops)
  {
  }

  lemma {:induction false} ExecCycle(p: Pipe, t: nat, k: nat)
    requires StructureOk(p) && AllAsked(p.log, p.ops) && Timely(p, t + 1, t + 1, t, t)
    requires forall l :: 0 <= l < k && l < |p.eq| ==> p.eq[l].cycle > t
    ensures var q := EvalExec(p, t, k);
            && StructureOk(q) && Timely(q, t + 1, t + 1, t + 1, t)
            && SameFront(p, q) && q.window == p.window
    decreases |p.eq| - k
  {
    hide StructureOk;
    hide AllAsked;
    if k < |p.eq| {
      if p.eq[k].cycle != t {
        assert p.eq[k].cycle >= t;
        ExecCycle(p, t, k + 1);
      } else {
        var next := Resolved(p, p.eq[k], t).(eq := Removed(p.eq, k));
        ExecOne(p, t, k);
        AskedStill(p.log, next.log, p.ops);
        assert forall l :: 0 <= l < |next.eq| ==> next.eq[l] == p.eq[if l < k then l else l + 1];
        ExecCycle(next, t, k);
      }
    }
  }

  // ---------------------------------------------------------------- retirement

  lemma LastStage(log: seq<Event>, ops: seq<Op>, id: nat)
    requires id < |ops| && Heard(log, ops[id], Decode) && Heard(log, ops[id], Execute)
    requires ops[id].Passes(Agen) ==> Heard(log, ops[id], Agen)
    requires forall j :: 0 <= j < id ==> Heard(log, ops[j], Commit)
    ensures EventOk(log, Notify(Commit, id, ops[id].retire), ops)
  {
  }

  lemma CommitWindow(window: seq<Op>, ops: seq<Op>, log: seq<Event>)
    requires OpsOk(ops) && WindowOk(window, ops, log) && window != []
    ensures WindowOk(window[1..], ops, log + [window[0].Notice(Commit)])
    ensures window[0] == ops[|ops| - |window|] && window[0].seqNo == |ops| - |window|
  {
  }

  /** The oldest micro-op of the window has passed every other stage when it retires. */
  lemma CommitDue(p: Pipe, t: nat)
    requires StructureOk(p) && Timely(p, t + 1, t + 1, t + 1, t)
    requires p.window != [] && p.window[0].retire <= t
    ensures var id := |p.ops| - |p.window|;
            && p.window[0] == p.ops[id] && p.window[0].seqNo == id && p.ops[id].retire == t
            && EventOk(p.log, Notify(Commit, id, t), p.ops)
  {
    hide EventOk;
    hide LogOk;
    hide CheckpointsOk;
    var id := |p.ops| - |p.window|;
    CommitWindow(p.window, p.ops, p.log);
    assert p.ops[id].retire == t && OpOk(p.ops[id]);
    PastIsHeard(p.dq, Decode, p.ops, p.log, t + 1, id);
    PastIsHeard(p.eq, Execute, p.ops, p.log, t + 1, id);
    if p.ops[id].Passes(Agen) {
      PastIsHeard(p.aq, Agen, p.ops, p.log, t + 1, id);
    }
    LastStage(p.log, p.ops, id);
  }

  lemma CommitIsNew(window: seq<Op>, ops: seq<Op>, log: seq<Event>)
    requires OpsOk(ops) && WindowOk(window, ops, log) && window != []
    ensures ops[|ops| - |window|].Notice(Commit) !in log
  {
    assert !Heard(log, ops[|ops| - |window|], Commit);
  }

  lemma CommitOne(p: Pipe, t: nat)
    requires StructureOk(p) && Timely(p, t + 1, t + 1, t + 1, t)
    requires p.window != [] && p.window[0].retire <= t
    ensures StructureOk(p.(window := p.window[1..], log := p.log + [Notify(Commit, p.window[0].seqNo, t)]))
  {
    hide EventOk;
    hide OpsOk;
    hide WindowOk;
    hide QueueOk;
    hide LogOk;
    hide CheckpointsOk;
    var e := Notify(Commit, p.window[0].seqNo, t);
    CommitDue(p, t);
    assert e !in p.log by {
      CommitIsNew(p.window, p.ops, p.log);
    }
    CommitWindow(p.window, p.ops, p.log);
    LogAppend(p.log, e, p.ops);
    OtherQueue(p.dq, Decode, p.ops, p.log, e);
    OtherQueue(p.aq, Agen, p.ops, p.log, e);
    OtherQueue(p.eq, Execute, p.ops, p.log, e);
    OtherCheckpoints(p.checkpoints, p.ops, p.log, e);
  }

  lemma NextRetires(p: Pipe, t: nat)
    requires StructureOk(p) && |p.window| > 1 && p.window[0].retire >= t
    ensures p.window[1].retire >= t
  {
  }

  lemma {:induction false} RetireCycle(p: Pipe, t: nat)
    requires StructureOk(p) && Timely(p, t + 1, t + 1, t + 1, t)
    ensures var q := EvalRetire(p, t);
            && StructureOk(q) && Timely(q, t + 1, t + 1, t + 1, t + 1)
            && SameFront(p, q) && q.checkpoints == p.checkpoints
    decreases |p.window|
  {
    hide StructureOk;
    if p.window != [] && p.window[0].retire <= t {
      CommitOne(p, t);
      if |p.window| > 1 {
        NextRetires(p, t);
      }
      RetireCycle(p.(window := p.window[1..], log := p.log + [Notify(Commit, p.window[0].seqNo, t)]), t);
    }
  }

  // ---------------------------------------------------------------- whole cycles

  lemma CycleKeeps(p: Pipe, t: nat)
    requires StructureOk(p) && AllAsked(p.log, p.ops) && Timely(p, t, t, t, t)
    ensures var q := Cycle(p, t);
            StructureOk(q) && Timely(q, t + 1, t + 1, t + 1, t + 1) && SameFront(p, q)
  {
    hide StructureOk;
    hide AllAsked;
    var a := EvalDecode(p, t);
    DecodeCycle(p, t);
    var b := EvalAgen(a, t, 0);
    AgenCycle(a, t, 0);
    AskedStill(p.log, b.log, p.ops);
    var c := EvalExec(b, t, 0);
    ExecCycle(b, t, 0);
    RetireCycle(c, t);
  }

  lemma {:induction false} AdvanceKeeps(p: Pipe, from: nat, upto: nat)
    requires StructureOk(p) && AllAsked(p.log, p.ops) && Timely(p, from, from, from, from) && from <= upto + 1
    ensures var q := Advanced(p, from, upto);
            && StructureOk(q) && AllAsked(q.log, q.ops)
            && Timely(q, upto + 1, upto + 1, upto + 1, upto + 1) && SameFront(p, q)
    decreases upto + 1 - from
  {
    hide StructureOk;
    hide AllAsked;
    hide Cycle;
    if from <= upto {
      CycleKeeps(p, from);
      AskedStill(p.log, Cycle(p, from).log, p.ops);
      AdvanceKeeps(Cycle(p, from), from + 1, upto);
    }
  }
}
