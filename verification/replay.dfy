/**
  What the pipeline tells the predictor, replayed: in every run each call can be made, and the predictor
  ends with the pipeline's history and checkpoints.
*/
module Replays {
  import opened PipelineCycles
  import opened PipelineInvariants
  import opened PipelineRuns
  import opened PipelineSteps
  import opened Pipelines
  import opened TageHistories

  /** The predictor's side of the protocol; `asked` says which micro-op a checkpoint was taken for. */
  datatype Predictor = Predictor(hist: LiveHist, checkpoints: map<nat, LiveHist>, asked: map<nat, nat>)

  ghost predicate IdsOk(log: seq<Event>, ops: seq<Op>) {
    forall k :: 0 <= k < |log| ==> log[k].id < |ops|
  }

  /** One call: a prediction takes a checkpoint, a history update moves on, and training drops the checkpoint. */
  function Called(r: Predictor, e: Event, ops: seq<Op>): Predictor
    requires e.id < |ops|
  {
    var key := ops[e.id].Key();
    match e
    case Notify(_, _, _) => r
    case Predict(id) =>
      if key in r.checkpoints then r else r.(checkpoints := r.checkpoints[key := r.hist], asked := r.asked[key := id])
    case SpecUpdate(id) => r.(hist := AfterBranch(r.hist, BranchOf(ops[id].uop)))
    case Train(_, _) => r.(checkpoints := r.checkpoints - {key}, asked := r.asked - {key})
  }

  function Replayed(h: LiveHist, log: seq<Event>, ops: seq<Op>): Predictor
    requires IdsOk(log, ops)
  {
    if log == [] then Predictor(h, map[], map[])
    else Called(Replayed(h, log[..|log| - 1], ops), log[|log| - 1], ops)
  }

  /** A prediction needs a free key; training needs the checkpoint of that very micro-op, as it was taken. */
  ghost predicate CanCall(r: Predictor, e: Event, ops: seq<Op>)
    requires e.id < |ops|
  {
    var key := ops[e.id].Key();
    match e
    case Predict(_) => key !in r.checkpoints
    case Train(id, history) =>
      key in r.checkpoints && r.checkpoints[key] == history && key in r.asked && r.asked[key] == id
    case _ => true
  }

  ghost predicate ReplayOk(h: LiveHist, log: seq<Event>, ops: seq<Op>)
    requires IdsOk(log, ops)
  {
    forall k :: 0 <= k < |log| ==> CanCall(Replayed(h, log[..k], ops), log[k], ops)
  }

  /** Every checkpoint is kept under the key of the micro-op it was taken for. */
  ghost predicate KeysOk(r: Predictor, ops: seq<Op>) {
    && r.asked.Keys == r.checkpoints.Keys
    && forall key :: key in r.asked ==> r.asked[key] < |ops| && ops[r.asked[key]].Key() == key
  }

  /** The log can be replayed, and explains the pipeline's history and checkpoints. */
  ghost predicate Explained(h: LiveHist, p: Pipe) {
    && IdsOk(p.log, p.ops) && ReplayOk(h, p.log, p.ops)
    && var r := Replayed(h, p.log, p.ops); r.hist == p.hist && r.checkpoints == p.checkpoints && KeysOk(r, p.ops)
  }

  // ---------------------------------------------------------------- one event

  lemma ReplayExtends(h: LiveHist, log: seq<Event>, e: Event, ops: seq<Op>)
    requires IdsOk(log, ops) && e.id < |ops|
    ensures IdsOk(log + [e], ops) && Replayed(h, log + [e], ops) == Called(Replayed(h, log, ops), e, ops)
  {
    hide Called;
    var log' := log + [e];
    assert log'[..|log'| - 1] == log && log'[|log'| - 1] == e;
  }

  lemma ExplainsOne(h: LiveHist, p: Pipe, e: Event, q: Pipe)
    requires Explained(h, p) && e.id < |p.ops| && CanCall(Replayed(h, p.log, p.ops), e, p.ops)
    requires q.ops == p.ops && q.log == p.log + [e]
    requires var r := Called(Replayed(h, p.log, p.ops), e, p.ops); q.hist == r.hist && q.checkpoints == r.checkpoints
    ensures Explained(h, q)
  {
    hide Op.Key;
    hide AfterBranch;
    hide BranchOf;
    hide Replayed;
    hide CanCall;
    assert IdsOk(q.log, q.ops);
    ReplayExtends(h, p.log, e, p.ops);
    forall k | 0 <= k < |q.log|
      ensures CanCall(Replayed(h, q.log[..k], q.ops), q.log[k], q.ops)
    {
      assert q.log[..k] == if k < |p.log| then p.log[..k] else p.log;
      assert k < |p.log| ==> q.log[k] == p.log[k];
    }
  }

  /** A notification changes nothing on the predictor's side. */
  lemma ExplainsNotice(h: LiveHist, p: Pipe, s: Stage, id: nat, t: nat, q: Pipe)
    requires Explained(h, p) && id < |p.ops|
    requires q.ops == p.ops && q.log == p.log + [Notify(s, id, t)] && q.hist == p.hist && q.checkpoints == p.checkpoints
    ensures Explained(h, q)
  {
    hide Replayed;
    hide ReplayOk;
    hide KeysOk;
    ExplainsOne(h, p, Notify(s, id, t), q);
  }

  // ---------------------------------------------------------------- one cycle

  lemma QueuesOk(p: Pipe)
    requires StructureOk(p)
    ensures QueueOk(p.dq, Decode, p.ops, p.log) && QueueOk(p.aq, Agen, p.ops, p.log)
            && QueueOk(p.eq, Execute, p.ops, p.log)
  {
  }

  lemma QueuedId(p: Pipe, q: seq<Item>, s: Stage, k: nat)
    requires StructureOk(p) && QueueOk(q, s, p.ops, p.log) && k < |q|
    ensures q[k].seqNo < |p.ops|
  {
    assert Waits(q[k], s, p.ops, p.log);
  }

  lemma {:induction false} DecodeExplains(h: LiveHist, p: Pipe, t: nat)
    requires Explained(h, p) && StructureOk(p)
    ensures Explained(h, EvalDecode(p, t))
    decreases |p.dq|
  {
    hide StructureOk;
    hide QueueOk;
    hide Explained;
    if p.dq != [] && p.dq[0].cycle == t {
      var next := p.(dq := p.dq[1..], log := p.log + [Notify(Decode, p.dq[0].seqNo, t)]);
      QueuesOk(p);
      QueuedId(p, p.dq, Decode, 0);
      ExplainsNotice(h, p, Decode, p.dq[0].seqNo, t, next);
      DecodeOne(p, t);
      DecodeExplains(h, next, t);
    }
  }

  lemma {:induction false} AgenExplains(h: LiveHist, p: Pipe, t: nat, k: nat)
    requires Explained(h, p) && StructureOk(p) && NothingBefore(p.dq, t + 1)
    ensures Explained(h, EvalAgen(p, t, k))
    decreases |p.aq| - k
  {
    hide StructureOk;
    hide Explained;
    if k < |p.aq| {
      if p.aq[k].cycle != t {
        AgenExplains(h, p, t, k + 1);
      } else {
        var next := p.(aq := Removed(p.aq, k), log := p.log + [Notify(Agen, p.aq[k].seqNo, t)]);
        QueuesOk(p);
        QueuedId(p, p.aq, Agen, k);
        ExplainsNotice(h, p, Agen, p.aq[k].seqNo, t, next);
        AgenOne(p, t, k);
        AgenExplains(h, next, t, k);
      }
    }
  }

  lemma WaitingBranch(p: Pipe, k: nat)
    requires StructureOk(p) && k < |p.eq|
    ensures p.eq[k].seqNo < |p.ops| && OpsOk(p.ops)
    ensures p.ops[p.eq[k].seqNo].Conditional() ==> p.ops[p.eq[k].seqNo].Key() in p.checkpoints
  {
    assert Waits(p.eq[k], Execute, p.ops, p.log);
  }

  lemma AskedFor(r: Predictor, ops: seq<Op>, id: nat)
    requires KeysOk(r, ops) && OpsOk(ops) && id < |ops| && ops[id].Key() in r.checkpoints
    ensures ops[id].Key() in r.asked && r.asked[ops[id].Key()] == id
  {
    var other := r.asked[ops[id].Key()];
    if other != id {
      KeysDiffer(ops, other, id);
    }
  }

  /** Resolving a branch trains with the checkpoint that was taken for it. */
  lemma ResolveExplains(h: LiveHist, p: Pipe, k: nat, t: nat)
    requires Explained(h, p) && StructureOk(p) && k < |p.eq|
    ensures Explained(h, Resolved(p, p.eq[k], t))
  {
    var id := p.eq[k].seqNo;
    QueuedId(p, p.eq, Execute, k);
    var q := p.(log := p.log + [Notify(Execute, id, t)]);
    ExplainsNotice(h, p, Execute, id, t, q);
    if p.ops[id].Conditional() {
      var r := Replayed(h, q.log, q.ops);
      WaitingBranch(p, k);
      AskedFor(r, p.ops, id);
      hide Replayed;
      hide ReplayOk;
      hide StructureOk;
      ExplainsOne(h, q, Train(id, p.checkpoints[p.ops[id].Key()]), Resolved(p, p.eq[k], t));
    }
  }

  /** Only the log, the program, the history and the checkpoints matter. */
  lemma QueuesIrrelevant(h: LiveHist, p: Pipe, q: Pipe)
    requires Explained(h, p) && q.log == p.log && q.ops == p.ops && q.hist == p.hist && q.checkpoints == p.checkpoints
    ensures Explained(h, q)
  {
  }

  lemma {:induction false} ExecExplains(h: LiveHist, p: Pipe, t: nat, k: nat)
    requires Explained(h, p) && StructureOk(p) && AllAsked(p.log, p.ops)
    requires NothingBefore(p.dq, t + 1) && NothingBefore(p.aq, t + 1)
    ensures Explained(h, EvalExec(p, t, k))
    decreases |p.eq| - k
  {
    hide StructureOk;
    hide AllAsked;
    if k < |p.eq| {
      if p.eq[k].cycle != t {
        ExecExplains(h, p, t, k + 1);
      } else {
        var q := Resolved(p, p.eq[k], t);
        var next := q.(eq := Removed(p.eq, k));
        ResolveExplains(h, p, k, t);
        QueuesIrrelevant(h, q, next);
        hide Explained;
        ExecOne(p, t, k);
        AskedStill(p.log, next.log, p.ops);
        ExecExplains(h, next, t, k);
      }
    }
  }

  lemma OldestId(p: Pipe)
    requires StructureOk(p) && p.window != []
    ensures p.window[0].seqNo < |p.ops|
  {
    assert p.window[0] == p.ops[|p.ops| - |p.window|];
  }

  lemma {:induction false} RetireExplains(h: LiveHist, p: Pipe, t: nat)
    requires Explained(h, p) && StructureOk(p) && Timely(p, t + 1, t + 1, t + 1, t)
    ensures Explained(h, EvalRetire(p, t))
    decreases |p.window|
  {
    hide StructureOk;
    hide Explained;
    if p.window != [] && p.window[0].retire <= t {
      var next := p.(window := p.window[1..], log := p.log + [Notify(Commit, p.window[0].seqNo, t)]);
      OldestId(p);
      ExplainsNotice(h, p, Commit, p.window[0].seqNo, t, next);
      CommitOne(p, t);
      if |p.window| > 1 {
        NextRetires(p, t);
      }
      RetireExplains(h, next, t);
    }
  }

  lemma CycleExplains(h: LiveHist, p: Pipe, t: nat)
    requires Explained(h, p) && StructureOk(p) && AllAsked(p.log, p.ops) && Timely(p, t, t, t, t)
    ensures Explained(h, Cycle(p, t))
  {
    hide StructureOk;
    hide AllAsked;
    hide Explained;
    var a := EvalDecode(p, t);
    DecodeCycle(p, t);
    DecodeExplains(h, p, t);
    var b := EvalAgen(a, t, 0);
    AgenCycle(a, t, 0);
    AgenExplains(h, a, t, 0);
    AskedStill(p.log, b.log, p.ops);
    ExecCycle(b, t, 0);
    ExecExplains(h, b, t, 0);
    RetireExplains(h, EvalExec(b, t, 0), t);
  }

  lemma {:induction false} AdvanceExplains(h: LiveHist, p: Pipe, from: nat, upto: nat)
    requires Explained(h, p) && StructureOk(p) && AllAsked(p.log, p.ops) && Timely(p, from, from, from, from)
    ensures Explained(h, Advanced(p, from, upto))
    decreases upto + 1 - from
  {
    hide StructureOk;
    hide AllAsked;
    hide Explained;
    hide Cycle;
    if from <= upto {
      CycleKeeps(p, from);
      AskedStill(p.log, Cycle(p, from).log, p.ops);
      CycleExplains(h, p, from);
      AdvanceExplains(h, Cycle(p, from), from + 1, upto);
    }
  }

  // ---------------------------------------------------------------- one step

  /** A new micro-op does not change what the log so far amounts to. */
  lemma {:induction false} ReplayIgnoresNewer(h: LiveHist, log: seq<Event>, ops: seq<Op>, op: Op)
    requires IdsOk(log, ops)
    ensures IdsOk(log, ops + [op]) && Replayed(h, log, ops + [op]) == Replayed(h, log, ops)
  {
    hide AfterBranch;
    hide Op.Key;
    if log != [] {
      ReplayIgnoresNewer(h, log[..|log| - 1], ops, op);
    }
  }

  lemma FetchExplains(h: LiveHist, p: Pipe, op: Op, q: Pipe)
    requires Explained(h, p) && q.ops == p.ops + [op] && q.log == p.log && q.hist == p.hist
             && q.checkpoints == p.checkpoints
    ensures Explained(h, q)
  {
    hide Replayed;
    hide Op.Key;
    ReplayIgnoresNewer(h, p.log, p.ops, op);
    forall k | 0 <= k < |q.log|
      ensures CanCall(Replayed(h, q.log[..k], q.ops), q.log[k], q.ops)
    {
      ReplayIgnoresNewer(h, p.log[..k], p.ops, op);
      assert q.ops[q.log[k].id] == p.ops[q.log[k].id];
    }
  }

  lemma PredictExplains(h: LiveHist, p: Pipe, op: Op)
    requires Explained(h, p) && op.seqNo < |p.ops| && p.ops[op.seqNo] == op && op.Key() !in p.checkpoints
    ensures Explained(h, Predicted(p, op))
  {
    hide Replayed;
    hide ReplayOk;
    hide AfterBranch;
    var asked := p;
    if op.Conditional() {
      asked := p.(log := p.log + [Predict(op.seqNo)], checkpoints := p.checkpoints[op.Key() := p.hist]);
      ExplainsOne(h, p, Event.Predict(op.seqNo), asked);
    }
    if op.uop.cls.IsBr() {
      ExplainsOne(h, asked, SpecUpdate(op.seqNo), Predicted(p, op));
    }
  }

  lemma EnterExplains(h: LiveHist, q: Pipe, cfg: Config, i: Input)
    requires Explained(h, q) && AtFetch(q, cfg) && Admissible(cfg, q.fetchCycle, i)
    ensures Explained(h, Entered(q, cfg, i))
  {
    hide Explained;
    var op := NewOp(q, cfg, i);
    var d := Dispatched(q, op);
    DispatchStructure(q, cfg, i);
    DispatchedTimely(q, cfg, i);
    hide AtFetch;
    hide StructureOk;
    hide Bundled;
    FetchExplains(h, q, op, d);
    FrontEnd(d, cfg, op);
    PredictExplains(h, d, op);
    QueuesIrrelevant(h, Predicted(d, op), Entered(q, cfg, i));
  }

  lemma CatchUpExplains(h: LiveHist, p: Pipe, cfg: Config)
    requires Explained(h, p) && Ready(p, cfg)
    ensures Explained(h, CaughtUp(p))
  {
    hide StructureOk;
    hide Explained;
    hide Advanced;
    if p.previousFetchCycle != p.fetchCycle {
      AdvanceExplains(h, p, p.previousFetchCycle, p.fetchCycle);
    }
  }

  lemma MoveExplains(h: LiveHist, p: Pipe, cfg: Config, arrived: nat)
    requires Explained(h, p) && AtFetch(p, cfg)
    ensures Explained(h, Fetched(p, arrived))
  {
    hide StructureOk;
    hide Advanced;
    if arrived != p.fetchCycle {
      AdvanceExplains(h, p, p.fetchCycle, arrived);
      QueuesIrrelevant(h, Advanced(p, p.fetchCycle, arrived), Fetched(p, arrived));
    }
  }

  lemma StepExplains(h: LiveHist, p: Pipe, cfg: Config, i: Input)
    requires Explained(h, p) && Ready(p, cfg)
    requires i.icacheCycle >= p.fetchCycle && Admissible(cfg, i.icacheCycle, i)
    ensures Explained(h, Stepped(p, cfg, i))
  {
    hide Explained;
    hide Entered;
    WindowHasRoom(p, cfg);
    CaughtUpKeeps(p, cfg);
    CatchUpExplains(h, p, cfg);
    hide Ready;
    hide CaughtUp;
    FetchedKeeps(CaughtUp(p), cfg, i.icacheCycle);
    MoveExplains(h, CaughtUp(p), cfg, i.icacheCycle);
    hide Fetched;
    hide AtFetch;
    EnterExplains(h, Fetched(CaughtUp(p), i.icacheCycle), cfg, i);
  }

  lemma {:induction false} RunExplains(h: LiveHist, p: Pipe, cfg: Config, inputs: seq<Input>)
    requires Explained(h, p) && Ready(p, cfg) && InputsOk(p, cfg, inputs)
    ensures Explained(h, Run(p, cfg, inputs))
    decreases |inputs|
  {
    hide Explained;
    hide Ready;
    hide Stepped;
    if inputs != [] {
      StepKeeps(p, cfg, inputs[0]);
      StepExplains(h, p, cfg, inputs[0]);
      RunExplains(h, Stepped(p, cfg, inputs[0]), cfg, inputs[1..]);
    }
  }

  /**
    In every run the predictor can be called as the pipeline calls it: no prediction meets a key in use, and
    every training finds the checkpoint taken for that very branch; and the calls leave the pipeline's
    history and checkpoints.
  */
  lemma EveryRunReplays(h: LiveHist, cfg: Config, inputs: seq<Input>)
    requires cfg.windowSize > 0 && InputsOk(Start(h), cfg, inputs)
    ensures var p := Run(Start(h), cfg, inputs);
            && IdsOk(p.log, p.ops) && ReplayOk(h, p.log, p.ops)
            && Replayed(h, p.log, p.ops).hist == p.hist && Replayed(h, p.log, p.ops).checkpoints == p.checkpoints
            && KeysOk(Replayed(h, p.log, p.ops), p.ops)
  {
    StartReady(h, cfg);
    hide Ready;
    hide Run;
    RunExplains(h, Start(h), cfg, inputs);
  }

  /** Nothing is said twice. */
  lemma NothingTwice(h: LiveHist, cfg: Config, inputs: seq<Input>)
    requires cfg.windowSize > 0 && InputsOk(Start(h), cfg, inputs)
    ensures var log := Run(Start(h), cfg, inputs).log; forall k, l :: 0 <= k < l < |log| ==> log[k] != log[l]
  {
    StartReady(h, cfg);
    RunKeeps(Start(h), cfg, inputs);
    hide Run;
  }
}
