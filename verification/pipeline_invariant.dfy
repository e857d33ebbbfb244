/**
  What every run of the pipeline keeps: the order and completeness of the notifications, the match
  between queues, window and log, and the checkpoints held for unresolved branches.
*/
module PipelineInvariants {
  import opened Common
  import opened TageHistories
  import opened Pipelines

  // ---------------------------------------------------------------- the recorded micro-ops

  /** The cycles recorded for one micro-op, in pipeline order. */
  ghost predicate OpOk(op: Op) {
    && op.fetch <= op.decode <= op.exec <= op.retire && op.fetch < op.exec
    && (op.uop.cls.IsMem() ==> op.fetch < op.agen && op.decode < op.agen <= op.exec)
    && op.piece < 16
  }

  function RetireBefore(ops: seq<Op>, i: nat): nat
    requires i <= |ops|
  {
    if i == 0 then 0 else ops[i - 1].retire
  }

  /** Fetch and retirement go in program order, and retirement waits for everything older. */
  ghost predicate OpsOk(ops: seq<Op>) {
    && (forall i :: 0 <= i < |ops| ==> ops[i].seqNo == i && OpOk(ops[i]))
    && (forall i {:trigger RetireBefore(ops, i)} :: 0 <= i < |ops| ==>
       ops[i].retire == Max(ops[i].exec, RetireBefore(ops, i)))
    && (forall i, j :: 0 <= i < j < |ops| ==> ops[i].decode <= ops[j].decode && ops[i].retire <= ops[j].retire)
  }

  // ---------------------------------------------------------------- the log

  ghost predicate Heard(log: seq<Event>, op: Op, s: Stage) {
    op.Notice(s) in log
  }

  /** The predictor has been asked about a conditional branch, and its history updated by any branch. */
  ghost predicate Asked(log: seq<Event>, op: Op) {
    && (op.Conditional() ==> Event.Predict(op.seqNo) in log)
    && (op.uop.cls.IsBr() ==> SpecUpdate(op.seqNo) in log)
  }

  /** What must already have been heard when `e` is. */
  ghost predicate EventOk(past: seq<Event>, e: Event, ops: seq<Op>) {
    match e
    case Notify(stage, id, cycle) =>
      && id < |ops| && ops[id].Passes(stage) && cycle == ops[id].At(stage)
      && (forall s: Stage :: s.Order() < stage.Order() && ops[id].Passes(s) ==> Heard(past, ops[id], s))
      && (stage == Execute ==> Asked(past, ops[id]))
      && (stage == Commit ==> forall j :: 0 <= j < id ==> Heard(past, ops[j], Commit))
    case Predict(id) =>
      && id < |ops| && ops[id].Conditional()
      && (forall j :: 0 <= j < id && ops[j].misp ==> Heard(past, ops[j], Execute))
    case SpecUpdate(id) =>
      && id < |ops| && ops[id].uop.cls.IsBr()
      && (ops[id].Conditional() ==> Event.Predict(id) in past)
      && (forall j :: 0 <= j < id && ops[j].misp ==> Heard(past, ops[j], Execute))
    case Train(id, history) =>
      id < |ops| && ops[id].Conditional() && history == ops[id].live && Heard(past, ops[id], Execute)
  }

  /** No event is heard twice, and each is heard after what it depends on. */
  ghost predicate LogOk(log: seq<Event>, ops: seq<Op>) {
    && (forall k, l :: 0 <= k < l < |log| ==> log[k] != log[l])
    && forall k :: 0 <= k < |log| ==> EventOk(log[..k], log[k], ops)
  }

  lemma LogAppend(log: seq<Event>, e: Event, ops: seq<Op>)
    requires LogOk(log, ops) && e !in log && EventOk(log, e, ops)
    ensures LogOk(log + [e], ops)
  {
    var log' := log + [e];
    forall k | 0 <= k < |log'|
      ensures EventOk(log'[..k], log'[k], ops)
    {
      assert log'[..k] == if k < |log| then log[..k] else log;
    }
  }

  lemma LogSurvivesFetch(log: seq<Event>, ops: seq<Op>, op: Op)
    requires LogOk(log, ops)
    ensures LogOk(log, ops + [op])
  {
  }

  // ---------------------------------------------------------------- queues and window

  ghost predicate Waits(item: Item, s: Stage, ops: seq<Op>, log: seq<Event>) {
    && item.seqNo < |ops| && ops[item.seqNo].Passes(s) && item == ops[item.seqNo].InQueue(s)
    && !Heard(log, ops[item.seqNo], s)
  }

  /** A queue holds exactly the micro-ops that still have to pass its stage, oldest first. */
  ghost predicate QueueOk(q: seq<Item>, s: Stage, ops: seq<Op>, log: seq<Event>) {
    && (forall k :: 0 <= k < |q| ==> Waits(q[k], s, ops, log))
    && (forall k, l :: 0 <= k < l < |q| ==> q[k].seqNo < q[l].seqNo)
    && forall i :: 0 <= i < |ops| && ops[i].Passes(s) && !Heard(log, ops[i], s) ==> ops[i].InQueue(s) in q
  }

  /** The window is the uncommitted end of the program. */
  ghost predicate WindowOk(window: seq<Op>, ops: seq<Op>, log: seq<Event>) {
    && |window| <= |ops|
    && window == ops[|ops| - |window|..]
    && forall i :: 0 <= i < |ops| ==> (Heard(log, ops[i], Commit) <==> i < |ops| - |window|)
  }

  /**
    Checkpoints are held exactly for the conditional branches that have not been resolved; a resolved one
    has trained the predictor with the history it was predicted with.
  */
  ghost predicate CheckpointsOk(checkpoints: map<nat, LiveHist>, ops: seq<Op>, log: seq<Event>) {
    && (forall i :: 0 <= i < |ops| && ops[i].Conditional() && !Heard(log, ops[i], Execute) ==>
          ops[i].Key() in checkpoints && checkpoints[ops[i].Key()] == ops[i].live)
    && (forall i :: 0 <= i < |ops| && ops[i].Conditional() && Heard(log, ops[i], Execute) ==>
          Train(i, ops[i].live) in log)
    && forall k :: k in checkpoints ==>
         exists i :: 0 <= i < |ops| && ops[i].Conditional() && !Heard(log, ops[i], Execute) && ops[i].Key() == k
  }

  ghost predicate AllAsked(log: seq<Event>, ops: seq<Op>) {
    forall i :: 0 <= i < |ops| ==> Asked(log, ops[i])
  }

  ghost predicate NothingBefore(q: seq<Item>, t: nat) {
    forall k :: 0 <= k < |q| ==> q[k].cycle >= t
  }

  ghost predicate StructureOk(p: Pipe) {
    && OpsOk(p.ops) && LogOk(p.log, p.ops)
    && QueueOk(p.dq, Decode, p.ops, p.log) && QueueOk(p.aq, Agen, p.ops, p.log) && QueueOk(p.eq, Execute, p.ops, p.log)
    && WindowOk(p.window, p.ops, p.log)
    && CheckpointsOk(p.checkpoints, p.ops, p.log)
  }

  /** How far the current cycle has got: the stages below have nothing left at or before `t`. */
  ghost predicate Timely(p: Pipe, d: nat, a: nat, e: nat, w: nat) {
    && NothingBefore(p.dq, d) && NothingBefore(p.aq, a) && NothingBefore(p.eq, e)
    && (p.window != [] ==> p.window[0].retire >= w)
  }

  // ---------------------------------------------------------------- one notification

  /** Hearing one event of a stage leaves the other stages' queues as they were. */
  lemma OtherQueue(q: seq<Item>, s: Stage, ops: seq<Op>, log: seq<Event>, e: Event)
    requires QueueOk(q, s, ops, log) && (e.Notify? ==> e.stage != s)
    ensures QueueOk(q, s, ops, log + [e])
  {
  }

  lemma OtherWindow(window: seq<Op>, ops: seq<Op>, log: seq<Event>, e: Event)
    requires WindowOk(window, ops, log) && (e.Notify? ==> e.stage != Commit)
    ensures WindowOk(window, ops, log + [e])
  {
  }

  lemma OtherCheckpoints(checkpoints: map<nat, LiveHist>, ops: seq<Op>, log: seq<Event>, e: Event)
    requires CheckpointsOk(checkpoints, ops, log) && (e.Notify? ==> e.stage != Execute)
    ensures CheckpointsOk(checkpoints, ops, log + [e])
  {
  }

  lemma HeardOneMore(ops: seq<Op>, log: seq<Event>, s: Stage, id: nat)
    requires OpsOk(ops) && id < |ops|
    ensures var e := Notify(s, id, ops[id].At(s));
            forall i :: 0 <= i < |ops| ==>
                ops[i].seqNo == i && (Heard(log + [e], ops[i], s) <==> Heard(log, ops[i], s) || i == id)
  {
  }

  lemma StillQueued(q: seq<Item>, k: nat, x: Item)
    requires k < |q| && x in q && x != q[k]
    ensures x in Removed(q, k)
  {
  }

  /** The queue of the stage loses the notified item. */
  lemma OwnQueue(q: seq<Item>, s: Stage, ops: seq<Op>, log: seq<Event>, k: nat)
    requires OpsOk(ops) && QueueOk(q, s, ops, log) && k < |q|
    ensures QueueOk(Removed(q, k), s, ops, log + [Notify(s, q[k].seqNo, q[k].cycle)])
  {
    var id := q[k].seqNo;
    var e := Notify(s, id, q[k].cycle);
    var r := Removed(q, k);
    assert Waits(q[k], s, ops, log);
    HeardOneMore(ops, log, s, id);
    hide Heard;
    hide OpsOk;
    hide Op.Passes;
    hide Op.At;
    assert forall l :: 0 <= l < |r| ==> r[l] == q[if l < k then l else l + 1];
    forall l | 0 <= l < |r|
      ensures Waits(r[l], s, ops, log + [e])
    {
      assert Waits(q[if l < k then l else l + 1], s, ops, log);
    }
    forall i | 0 <= i < |ops| && ops[i].Passes(s) && !Heard(log + [e], ops[i], s)
      ensures ops[i].InQueue(s) in r
    {
      StillQueued(q, k, ops[i].InQueue(s));
    }
  }

  /** A micro-op waiting in a queue is still in the window. */
  lemma WaitingIsInWindow(p: Pipe, q: seq<Item>, s: Stage, k: nat)
    requires StructureOk(p) && QueueOk(q, s, p.ops, p.log) && s != Commit && k < |q|
    ensures |p.ops| - |p.window| <= q[k].seqNo < |p.ops|
  {
  }

  lemma {:induction false} AscendingFits(q: seq<Item>, lo: int, hi: int)
    requires lo <= hi && forall k :: 0 <= k < |q| ==> lo <= q[k].seqNo < hi
    requires forall k, l :: 0 <= k < l < |q| ==> q[k].seqNo < q[l].seqNo
    ensures |q| <= hi - lo
  {
    if q != [] {
      AscendingFits(q[1..], q[0].seqNo + 1, hi);
    }
  }

  /** A queue is never longer than the window. */
  lemma QueueFits(p: Pipe, q: seq<Item>, s: Stage)
    requires StructureOk(p) && QueueOk(q, s, p.ops, p.log) && s != Commit
    ensures |q| <= |p.window|
  {
    hide EventOk;
    forall k | 0 <= k < |q|
      ensures |p.ops| - |p.window| <= q[k].seqNo < |p.ops|
    {
      WaitingIsInWindow(p, q, s, k);
    }
    AscendingFits(q, |p.ops| - |p.window|, |p.ops|);
  }

  /** A micro-op whose cycle in a stage is past has been heard there. */
  lemma PastIsHeard(q: seq<Item>, s: Stage, ops: seq<Op>, log: seq<Event>, t: nat, i: nat)
    requires QueueOk(q, s, ops, log) && NothingBefore(q, t) && i < |ops| && ops[i].Passes(s) && ops[i].At(s) < t
    ensures Heard(log, ops[i], s)
  {
  }
}
