/** One step of the simulator, and any run of steps, keep the pipeline's invariant. */
module PipelineSteps {
  import opened Common
  import opened TageHistories
  import opened Pipelines
  import opened PipelineInvariants
  import opened PipelineCycles

  // ---------------------------------------------------------------- nothing is heard early

  /** Nothing has been heard of a cycle after `t`. */
  ghost predicate HeardBy(log: seq<Event>, t: nat) {
    forall k :: 0 <= k < |log| && log[k].Notify? ==> log[k].cycle <= t
  }

  lemma {:induction false} DecodeHeardBy(p: Pipe, t: nat)
    requires HeardBy(p.log, t)
    ensures HeardBy(EvalDecode(p, t).log, t)
    decreases |p.dq|
  {
    if p.dq != [] && p.dq[0].cycle == t {
      DecodeHeardBy(p.(dq := p.dq[1..], log := p.log + [Notify(Decode, p.dq[0].seqNo, t)]), t);
    }
  }

  lemma {:induction false} AgenHeardBy(p: Pipe, t: nat, k: nat)
    requires HeardBy(p.log, t)
    ensures HeardBy(EvalAgen(p, t, k).log, t)
    decreases |p.aq| - k
  {
    if k < |p.aq| {
      if p.aq[k].cycle != t {
        AgenHeardBy(p, t, k + 1);
      } else {
        AgenHeardBy(p.(aq := Removed(p.aq, k), log := p.log + [Notify(Agen, p.aq[k].seqNo, t)]), t, k);
      }
    }
  }

  lemma {:induction false} ExecHeardBy(p: Pipe, t: nat, k: nat)
    requires HeardBy(p.log, t)
    ensures HeardBy(EvalExec(p, t, k).log, t)
    decreases |p.eq| - k
  {
    if k < |p.eq| {
      if p.eq[k].cycle != t {
        ExecHeardBy(p, t, k + 1);
      } else {
        ExecHeardBy(Resolved(p, p.eq[k], t).(eq := Removed(p.eq, k)), t, k);
      }
    }
  }

  lemma {:induction false} RetireHeardBy(p: Pipe, t: nat)
    requires HeardBy(p.log, t)
    ensures HeardBy(EvalRetire(p, t).log, t)
    decreases |p.window|
  {
    if p.window != [] && p.window[0].retire <= t {
      RetireHeardBy(p.(window := p.window[1..], log := p.log + [Notify(Commit, p.window[0].seqNo, t)]), t);
    }
  }

  lemma {:induction false} AdvanceHeardBy(p: Pipe, from: nat, upto: nat)
    requires HeardBy(p.log, from) && from <= upto
    ensures HeardBy(Advanced(p, from, upto).log, upto)
    decreases upto - from
  {
    DecodeHeardBy(p, from);
    AgenHeardBy(EvalDecode(p, from), from, 0);
    ExecHeardBy(EvalAgen(EvalDecode(p, from), from, 0), from, 0);
    RetireHeardBy(EvalExec(EvalAgen(EvalDecode(p, from), from, 0), from, 0), from);
    if from < upto {
      AdvanceHeardBy(Cycle(p, from), from + 1, upto);
    } else {
      assert Advanced(Cycle(p, from), from + 1, upto) == Cycle(p, from);
    }
  }

  // ---------------------------------------------------------------- between steps

  /** Every misprediction so far has been resolved. */
  ghost predicate AllResolved(p: Pipe) {
    forall i :: 0 <= i < |p.ops| && p.ops[i].misp ==> Heard(p.log, p.ops[i], Execute)
  }

  ghost predicate DecodedBy(ops: seq<Op>, t: nat) {
    forall i :: 0 <= i < |ops| ==> ops[i].decode <= t
  }

  /** What holds between two steps. */
  ghost predicate Ready(p: Pipe, cfg: Config) {
    var f := p.previousFetchCycle;
    && StructureOk(p) && AllAsked(p.log, p.ops) && HeardBy(p.log, f)
    && f <= p.fetchCycle
    && Timely(p, f, f + 1, f + 1, f + 1)
    && DecodedBy(p.ops, f + cfg.dqLatency)
    && |p.window| <= cfg.windowSize && cfg.windowSize > 0
    && (|p.window| == cfg.windowSize ==> f < p.fetchCycle && p.window[0].retire <= p.fetchCycle)
    && (forall i :: 0 <= i < |p.ops| && p.ops[i].misp && !Heard(p.log, p.ops[i], Execute) ==>
          i == |p.ops| - 1 && f < p.ops[i].exec <= p.fetchCycle)
  }

  /** What holds when a micro-op is dispatched, with everything up to the fetch cycle evaluated. */
  ghost predicate AtFetch(p: Pipe, cfg: Config) {
    var f := p.fetchCycle;
    && StructureOk(p) && AllAsked(p.log, p.ops) && HeardBy(p.log, f)
    && Timely(p, f, f + 1, f + 1, f + 1)
    && DecodedBy(p.ops, f + cfg.dqLatency)
    && |p.window| < cfg.windowSize
    && AllResolved(p)
  }

  lemma SameWindow(p: Pipe, q: Pipe)
    requires StructureOk(p) && StructureOk(q) && q.ops == p.ops && |q.window| == |p.window|
    ensures q.window == p.window
  {
  }

  lemma StillHeard(log: seq<Event>, log': seq<Event>, op: Op, s: Stage)
    requires log <= log' && Heard(log, op, s)
    ensures Heard(log', op, s)
  {
  }

  /** Catching up to the fetch cycle resolves the misprediction that moved it there. */
  lemma ResolvedInTime(p: Pipe, q: Pipe, i: nat)
    requires StructureOk(q) && SameFront(p, q) && NothingBefore(q.eq, q.fetchCycle + 1) && i < |p.ops|
    requires Heard(p.log, p.ops[i], Execute) || p.ops[i].exec <= p.fetchCycle
    ensures Heard(q.log, p.ops[i], Execute)
  {
  }

  lemma CaughtUpKeeps(p: Pipe, cfg: Config)
    requires Ready(p, cfg) && cfg.windowSize > 0
    ensures AtFetch(CaughtUp(p), cfg)
    ensures CaughtUp(p).ops == p.ops && CaughtUp(p).hist == p.hist && CaughtUp(p).fetchCycle == p.fetchCycle
  {
    hide StructureOk;
    hide Advanced;
    var q := CaughtUp(p);
    if p.previousFetchCycle != p.fetchCycle {
      AdvanceKeeps(p, p.previousFetchCycle, p.fetchCycle);
      AdvanceHeardBy(p, p.previousFetchCycle, p.fetchCycle);
      if |q.window| == cfg.windowSize {
        SameWindow(p, q);
      }
      forall i | 0 <= i < |p.ops| && p.ops[i].misp
        ensures Heard(q.log, p.ops[i], Execute)
      {
        ResolvedInTime(p, q, i);
      }
    }
  }

  lemma StructureIgnoresFetch(q: Pipe, f: nat)
    requires StructureOk(q)
    ensures StructureOk(q.(fetchCycle := f))
  {
  }

  lemma SameFrontLog(p: Pipe, q: Pipe)
    requires SameFront(p, q)
    ensures p.log <= q.log && q.ops == p.ops
  {
  }

  lemma StillResolved(p: Pipe, q: Pipe)
    requires AllResolved(p) && q.ops == p.ops && p.log <= q.log
    ensures AllResolved(q)
  {
  }

  lemma EarlierToo(q: Pipe, f: nat)
    requires NothingBefore(q.dq, f + 1)
    ensures NothingBefore(q.dq, f)
  {
  }

  lemma DecodesSoon(ops: seq<Op>, t: nat, u: nat)
    requires DecodedBy(ops, t) && t <= u
    ensures DecodedBy(ops, u)
  {
  }

  lemma Arrived(p: Pipe, q: Pipe, cfg: Config, f: nat)
    requires AtFetch(p, cfg) && p.fetchCycle <= f
    requires StructureOk(q) && AllAsked(q.log, q.ops) && Timely(q, f + 1, f + 1, f + 1, f + 1) && SameFront(p, q)
             && HeardBy(q.log, f)
    ensures AtFetch(q.(fetchCycle := f), cfg)
  {
    hide StructureOk;
    hide AllAsked;
    hide AllResolved;
    hide HeardBy;
    hide NothingBefore;
    var r := q.(fetchCycle := f);
    StructureIgnoresFetch(q, f);
    SameFrontLog(p, q);
    StillResolved(p, r);
    EarlierToo(q, f);
    DecodesSoon(p.ops, p.fetchCycle + cfg.dqLatency, f + cfg.dqLatency);
  }

  lemma FetchedKeeps(p: Pipe, cfg: Config, icacheCycle: nat)
    requires AtFetch(p, cfg) && icacheCycle >= p.fetchCycle
    ensures AtFetch(Fetched(p, icacheCycle), cfg)
    ensures Fetched(p, icacheCycle).ops == p.ops && Fetched(p, icacheCycle).hist == p.hist
    ensures Fetched(p, icacheCycle).fetchCycle == icacheCycle
  {
    hide StructureOk;
    hide Advanced;
    if icacheCycle != p.fetchCycle {
      AdvanceKeeps(p, p.fetchCycle, icacheCycle);
      AdvanceHeardBy(p, p.fetchCycle, icacheCycle);
      Arrived(p, Advanced(p, p.fetchCycle, icacheCycle), cfg, icacheCycle);
    }
  }

  // ---------------------------------------------------------------- a new micro-op

  /** What the rest of the simulator owes the pipeline for a micro-op fetched in cycle `f`. */
  ghost predicate Admissible(cfg: Config, f: nat, i: Input) {
    && f < i.exec && f + cfg.dqLatency <= i.exec
    && (i.uop.cls.IsMem() ==> f < i.agen && f + cfg.dqLatency < i.agen <= i.exec)
    && i.piece < 16
  }

  /** When the window is empty everything has retired, so restarting from 0 loses nothing. */
  lemma LastRetireSound(p: Pipe, cfg: Config)
    requires AtFetch(p, cfg) && p.ops != []
    ensures LastRetire(p) == p.ops[|p.ops| - 1].retire
            || (LastRetire(p) == 0 && p.ops[|p.ops| - 1].retire <= p.fetchCycle)
  {
  }

  lemma OpsAppend(ops: seq<Op>, op: Op)
    requires OpsOk(ops) && OpOk(op) && op.seqNo == |ops|
    requires op.retire == Max(op.exec, RetireBefore(ops, |ops|))
    requires forall j :: 0 <= j < |ops| ==> ops[j].decode <= op.decode
    ensures OpsOk(ops + [op])
  {
    hide OpOk;
    var n, ops' := |ops|, ops + [op];
    assert forall j :: 0 <= j < n ==> ops'[j] == ops[j];
    assert ops'[n] == op;
    forall j | 0 <= j < n
      ensures ops[j].retire <= op.retire
    {
      assert ops[j].retire <= ops[n - 1].retire;
    }
    assert forall j :: 0 <= j <= n ==> RetireBefore(ops', j) == RetireBefore(ops, j);
  }

  lemma AtFetchOps(p: Pipe, cfg: Config)
    requires AtFetch(p, cfg)
    ensures OpsOk(p.ops) && DecodedBy(p.ops, p.fetchCycle + cfg.dqLatency) && (p.ops == [] ==> p.window == [])
  {
  }

  lemma NewOpOk(p: Pipe, cfg: Config, i: Input)
    requires AtFetch(p, cfg) && Admissible(cfg, p.fetchCycle, i)
    ensures OpsOk(p.ops + [NewOp(p, cfg, i)])
  {
    hide AtFetch;
    hide OpsOk;
    AtFetchOps(p, cfg);
    if p.ops != [] {
      LastRetireSound(p, cfg);
    }
    OpsAppend(p.ops, NewOp(p, cfg, i));
  }

  /** Nothing has been heard of a micro-op that is only now fetched. */
  lemma NewOpUnheard(log: seq<Event>, ops: seq<Op>, e: Event)
    requires LogOk(log, ops) && e.id >= |ops|
    ensures e !in log
  {
  }

  lemma StillWaits(item: Item, s: Stage, ops: seq<Op>, log: seq<Event>, op: Op)
    requires Waits(item, s, ops, log)
    ensures Waits(item, s, ops + [op], log) && item.seqNo < |ops|
  {
    assert (ops + [op])[item.seqNo] == ops[item.seqNo];
  }

  /** A queue that the new micro-op does not join. */
  lemma QueuePasses(q: seq<Item>, s: Stage, ops: seq<Op>, log: seq<Event>, op: Op)
    requires QueueOk(q, s, ops, log) && !op.Passes(s)
    ensures QueueOk(q, s, ops + [op], log) && forall k :: 0 <= k < |q| ==> q[k].seqNo < |ops|
  {
    hide Heard;
    hide Op.Passes;
    hide Op.At;
    forall k | 0 <= k < |q|
      ensures Waits(q[k], s, ops + [op], log) && q[k].seqNo < |ops|
    {
      StillWaits(q[k], s, ops, log, op);
    }
    hide Waits;
  }

  lemma QueueJoins(q: seq<Item>, s: Stage, ops: seq<Op>, log: seq<Event>, op: Op)
    requires QueueOk(q, s, ops, log) && op.seqNo == |ops| && !Heard(log, op, s) && op.Passes(s)
    ensures QueueOk(q + [op.InQueue(s)], s, ops + [op], log)
  {
    hide Heard;
    hide Op.Passes;
    hide Op.At;
    var n, ops', item := |ops|, ops + [op], op.InQueue(s);
    assert Waits(item, s, ops', log) && item.seqNo == n;
    forall k | 0 <= k < |q|
      ensures Waits(q[k], s, ops', log) && q[k].seqNo < n
    {
      StillWaits(q[k], s, ops, log, op);
    }
    hide Waits;
    forall i | 0 <= i < |ops'| && ops'[i].Passes(s) && !Heard(log, ops'[i], s)
      ensures ops'[i].InQueue(s) in q + [item]
    {
      if i < n {
        assert ops[i].InQueue(s) in q;
      } else {
        assert (q + [item])[|q|] == item;
      }
    }
  }

  lemma QueueTakes(q: seq<Item>, s: Stage, ops: seq<Op>, log: seq<Event>, op: Op)
    requires QueueOk(q, s, ops, log) && op.seqNo == |ops| && !Heard(log, op, s)
    ensures QueueOk(if op.Passes(s) then q + [op.InQueue(s)] else q, s, ops + [op], log)
  {
    if op.Passes(s) {
      QueueJoins(q, s, ops, log, op);
    } else {
      QueuePasses(q, s, ops, log, op);
    }
  }

  lemma WindowTakes(window: seq<Op>, ops: seq<Op>, log: seq<Event>, op: Op)
    requires WindowOk(window, ops, log) && !Heard(log, op, Commit)
    ensures WindowOk(window + [op], ops + [op], log)
  {
  }

  /** The checkpoint map gains exactly the new branch; its key is not in use. */
  lemma CheckpointTaken(checkpoints: map<nat, LiveHist>, ops: seq<Op>, log: seq<Event>, op: Op)
    requires OpsOk(ops + [op]) && CheckpointsOk(checkpoints, ops, log) && !Heard(log, op, Execute)
    ensures op.Key() !in checkpoints
    ensures CheckpointsOk(if op.Conditional() then checkpoints[op.Key() := op.live] else checkpoints, ops + [op], log)
  {
    var ops' := ops + [op];
    forall i | 0 <= i < |ops|
      ensures ops[i].Key() != op.Key()
    {
      KeysDiffer(ops', i, |ops|);
      assert ops'[i] == ops[i];
    }
    var after := if op.Conditional() then checkpoints[op.Key() := op.live] else checkpoints;
    forall k | k in after
      ensures exists i :: 0 <= i < |ops'| && ops'[i].Conditional() && !Heard(log, ops'[i], Execute)
                          && ops'[i].Key() == k
    {
      if k in checkpoints {
        var i :| 0 <= i < |ops| && ops[i].Conditional() && !Heard(log, ops[i], Execute) && ops[i].Key() == k;
        assert ops'[i] == ops[i];
      } else {
        assert ops'[|ops|] == op;
      }
    }
  }

  /** The parts of the invariant that a dispatch must leave, with the checkpoint taken. */
  lemma DispatchStructure(p: Pipe, cfg: Config, i: Input)
    requires AtFetch(p, cfg) && Admissible(cfg, p.fetchCycle, i)
    ensures var op := NewOp(p, cfg, i);
            var q := Dispatched(p, op);
            && op.Key() !in p.checkpoints
            && StructureOk(q.(checkpoints := if op.Conditional() then q.checkpoints[op.Key() := op.live]
                                             else q.checkpoints))
  {
    hide EventOk;
    var op := NewOp(p, cfg, i);
    NewOpOk(p, cfg, i);
    hide OpsOk;
    LogSurvivesFetch(p.log, p.ops, op);
    NewOpUnheard(p.log, p.ops, op.Notice(Decode));
    NewOpUnheard(p.log, p.ops, op.Notice(Agen));
    NewOpUnheard(p.log, p.ops, op.Notice(Execute));
    NewOpUnheard(p.log, p.ops, op.Notice(Commit));
    hide LogOk;
    QueueTakes(p.dq, Decode, p.ops, p.log, op);
    QueueTakes(p.aq, Agen, p.ops, p.log, op);
    QueueTakes(p.eq, Execute, p.ops, p.log, op);
    WindowTakes(p.window, p.ops, p.log, op);
    CheckpointTaken(p.checkpoints, p.ops, p.log, op);
  }

  lemma StructureHears(p: Pipe, e: Event)
    requires StructureOk(p) && !e.Notify? && e !in p.log && EventOk(p.log, e, p.ops)
    ensures StructureOk(p.(log := p.log + [e]))
  {
    hide EventOk;
    hide OpsOk;
    LogAppend(p.log, e, p.ops);
    OtherQueue(p.dq, Decode, p.ops, p.log, e);
    OtherQueue(p.aq, Agen, p.ops, p.log, e);
    OtherQueue(p.eq, Execute, p.ops, p.log, e);
    OtherWindow(p.window, p.ops, p.log, e);
    OtherCheckpoints(p.checkpoints, p.ops, p.log, e);
  }

  /** Everything older that was mispredicted is resolved, so the predictor may be asked about `op`. */
  lemma PredictionAllowed(p: Pipe, past: seq<Event>, op: Op)
    requires p.ops != [] && op == p.ops[|p.ops| - 1] && op.seqNo == |p.ops| - 1
    requires forall j :: 0 <= j < |p.ops| - 1 && p.ops[j].misp ==> Heard(past, p.ops[j], Execute)
    ensures op.Conditional() ==> EventOk(past, Predict(op.seqNo), p.ops)
    ensures op.uop.cls.IsBr() && (op.Conditional() ==> Event.Predict(op.seqNo) in past)
            ==> EventOk(past, SpecUpdate(op.seqNo), p.ops)
  {
  }

  /** A conditional branch is asked about. */
  lemma AskedStructure(a: Pipe, op: Op)
    requires StructureOk(a) && a.ops != [] && op == a.ops[|a.ops| - 1] && op.seqNo == |a.ops| - 1
    requires forall j :: 0 <= j < |a.ops| - 1 && a.ops[j].misp ==> Heard(a.log, a.ops[j], Execute)
    requires op.Conditional() && Predict(op.seqNo) !in a.log
    ensures var b := a.(log := a.log + [Predict(op.seqNo)]);
            && StructureOk(b)
            && forall j :: 0 <= j < |a.ops| - 1 && a.ops[j].misp ==> Heard(b.log, a.ops[j], Execute)
  {
    PredictionAllowed(a, a.log, op);
    hide EventOk;
    hide StructureOk;
    StructureHears(a, Predict(op.seqNo));
  }

  lemma StructureIgnoresHistory(q: Pipe, h: LiveHist)
    requires StructureOk(q)
    ensures StructureOk(q.(hist := h))
  {
  }

  /** Then the history is updated. */
  lemma HistoryUpdatedStructure(b: Pipe, op: Op, h: LiveHist)
    requires StructureOk(b) && b.ops != [] && op == b.ops[|b.ops| - 1] && op.seqNo == |b.ops| - 1
    requires forall j :: 0 <= j < |b.ops| - 1 && b.ops[j].misp ==> Heard(b.log, b.ops[j], Execute)
    requires op.uop.cls.IsBr() && (op.Conditional() ==> Event.Predict(op.seqNo) in b.log)
             && SpecUpdate(op.seqNo) !in b.log
    ensures StructureOk(b.(log := b.log + [SpecUpdate(op.seqNo)], hist := h))
  {
    PredictionAllowed(b, b.log, op);
    hide EventOk;
    StructureHears(b, SpecUpdate(op.seqNo));
    StructureIgnoresHistory(b.(log := b.log + [SpecUpdate(op.seqNo)]), h);
  }

  /** `BP.predict` on the newest micro-op keeps the structure, given that its checkpoint completes it. */
  lemma PredictKeeps(q: Pipe, op: Op)
    requires StructureOk(q.(checkpoints := if op.Conditional() then q.checkpoints[op.Key() := op.live]
                                           else q.checkpoints))
    requires q.ops != [] && op == q.ops[|q.ops| - 1] && op.seqNo == |q.ops| - 1
    requires op.live == q.hist && op.Key() !in q.checkpoints
    requires forall j :: 0 <= j < |q.ops| - 1 && q.ops[j].misp ==> Heard(q.log, q.ops[j], Execute)
    requires Event.Predict(op.seqNo) !in q.log && SpecUpdate(op.seqNo) !in q.log
    ensures StructureOk(Predicted(q, op))
  {
    hide StructureOk;
    hide Heard;
    hide AfterBranch;
    var a := q.(checkpoints := if op.Conditional() then q.checkpoints[op.Key() := op.live] else q.checkpoints);
    if op.Conditional() {
      AskedStructure(a, op);
      HistoryUpdatedStructure(a.(log := a.log + [Event.Predict(op.seqNo)]), op, Predicted(q, op).hist);
    } else if op.uop.cls.IsBr() {
      HistoryUpdatedStructure(a, op, Predicted(q, op).hist);
    }
  }

  /** It only adds to the log, and only predictor calls. */
  lemma PredictFrame(q: Pipe, op: Op, f: nat)
    requires HeardBy(q.log, f)
    ensures var r := Predicted(q, op);
            && q.log <= r.log && HeardBy(r.log, f)
            && r == q.(log := r.log, checkpoints := r.checkpoints, hist := r.hist)
  {
    hide AfterBranch;
  }

  lemma PredictedStructure(p: Pipe, cfg: Config, i: Input)
    requires AtFetch(p, cfg) && Admissible(cfg, p.fetchCycle, i)
    ensures var op := NewOp(p, cfg, i);
            StructureOk(Predicted(Dispatched(p, op), op))
  {
    hide EventOk;
    hide Predicted;
    var op := NewOp(p, cfg, i);
    DispatchStructure(p, cfg, i);
    NewOpUnheard(p.log, p.ops, Event.Predict(op.seqNo));
    NewOpUnheard(p.log, p.ops, SpecUpdate(op.seqNo));
    hide StructureOk;
    hide Heard;
    PredictKeeps(Dispatched(p, op), op);
  }
}
