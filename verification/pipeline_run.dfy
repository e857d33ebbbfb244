/** What holds after any run of steps: the notifications, the predictions, and the trainings. */
module PipelineRuns {
  import opened Common
  import opened MicroOps
  import opened TageHistories
  import opened Pipelines
  import opened PipelineInvariants
  import opened PipelineCycles
  import opened PipelineSteps

  // ---------------------------------------------------------------- one step

  lemma PredictPrefix(q: Pipe, op: Op)
    ensures q.log <= Predicted(q, op).log
  {
  }

  lemma NewOpAsked(q: Pipe, op: Op)
    requires q.ops != [] && op == q.ops[|q.ops| - 1] && AllAsked(q.log, q.ops[..|q.ops| - 1])
    ensures AllAsked(Predicted(q, op).log, q.ops)
  {
    hide AfterBranch;
    var r := Predicted(q, op);
    var n := |q.ops| - 1;
    PredictPrefix(q, op);
    AskedStill(q.log, r.log, q.ops[..n]);
    forall i | 0 <= i < |q.ops|
      ensures Asked(r.log, q.ops[i])
    {
      if i < n {
        assert q.ops[i] == q.ops[..n][i];
      }
    }
  }

  lemma PredictIgnoresFront(d: Pipe, op: Op, f: nat, n: nat, b: nat)
    ensures Predicted(d.(fetchCycle := f, numFetched := n, numFetchedBranch := b), op)
              == Predicted(d, op).(fetchCycle := f, numFetched := n, numFetchedBranch := b)
  {
  }

  /** Bundling and redirection change nothing but the front end, and never move fetch back. */
  lemma FrontEnd(d: Pipe, cfg: Config, op: Op)
    requires d.window != [] && d.window[0].retire > d.fetchCycle
    ensures var r := Redirected(Predicted(Bundled(d, cfg, op.uop), op), op);
            && r == Predicted(d, op).(fetchCycle := r.fetchCycle, numFetched := r.numFetched,
               numFetchedBranch := r.numFetchedBranch)
            && r.fetchCycle >= d.fetchCycle
            && (|d.window| == cfg.windowSize ==> r.fetchCycle >= d.window[0].retire)
            && (op.misp ==> r.fetchCycle >= op.exec)
  {
    hide AfterBranch;
    var b := Bundled(d, cfg, op.uop);
    assert b == d.(fetchCycle := b.fetchCycle, numFetched := b.numFetched, numFetchedBranch := b.numFetchedBranch);
    PredictIgnoresFront(d, op, b.fetchCycle, b.numFetched, b.numFetchedBranch);
  }

  lemma StructureIgnoresFront(q: Pipe, f: nat, n: nat, b: nat)
    requires StructureOk(q)
    ensures StructureOk(q.(fetchCycle := f, numFetched := n, numFetchedBranch := b))
  {
  }

  lemma DispatchedTimely(q: Pipe, cfg: Config, i: Input)
    requires AtFetch(q, cfg) && Admissible(cfg, q.fetchCycle, i)
    ensures var op := NewOp(q, cfg, i);
            var d := Dispatched(q, op);
            var f := q.fetchCycle;
            && Timely(d, f, f + 1, f + 1, f + 1) && d.window != [] && d.window[0].retire > f
            && |d.window| <= cfg.windowSize
            && DecodedBy(d.ops, f + cfg.dqLatency)
            && (forall j :: 0 <= j < |d.ops| && d.ops[j].misp ==> j == |d.ops| - 1 || Heard(d.log, d.ops[j], Execute))
  {
    hide StructureOk;
    hide Heard;
    hide HeardBy;
    hide AllAsked;
  }

  function HistAfter(h: LiveHist, u: MicroOp): LiveHist {
    if u.cls.IsBr() then AfterBranch(h, BranchOf(u)) else h
  }

  lemma WindowHasRoom(p: Pipe, cfg: Config)
    requires Ready(p, cfg)
    ensures cfg.windowSize > 0 && |p.window| <= cfg.windowSize
  {
  }

  lemma TimelyIgnoresFront(d: Pipe, r: Pipe, f: nat)
    requires Timely(d, f, f + 1, f + 1, f + 1)
    requires r.dq == d.dq && r.aq == d.aq && r.eq == d.eq && r.window == d.window
    ensures Timely(r, f, f + 1, f + 1, f + 1)
  {
  }

  lemma EnterKeeps(q: Pipe, cfg: Config, i: Input)
    requires AtFetch(q, cfg) && Admissible(cfg, q.fetchCycle, i)
    ensures var r := Entered(q, cfg, i);
            && Ready(r, cfg) && r.previousFetchCycle == q.fetchCycle && r.ops == q.ops + [NewOp(q, cfg, i)]
            && r.hist == HistAfter(q.hist, i.uop) && r.fetchCycle >= q.fetchCycle
            && (i.misp ==> r.fetchCycle > q.fetchCycle)
  {
    hide StructureOk;
    hide AllAsked;
    hide HeardBy;
    hide Timely;
    hide AllResolved;
    hide DecodedBy;
    hide AfterBranch;
    hide Heard;
    hide Bundled;
    var op := NewOp(q, cfg, i);
    var d := Dispatched(q, op);
    var r := Entered(q, cfg, i);
    DispatchedTimely(q, cfg, i);
    PredictedStructure(q, cfg, i);
    PredictFrame(d, op, q.fetchCycle);
    assert d.ops[..|d.ops| - 1] == q.ops;
    NewOpAsked(d, op);
    FrontEnd(d, cfg, op);
    hide Predicted;
    StructureIgnoresFront(Predicted(d, op), r.fetchCycle, r.numFetched, r.numFetchedBranch);
    TimelyIgnoresFront(d, r, q.fetchCycle);
    forall j | 0 <= j < |r.ops| && r.ops[j].misp && !Heard(r.log, r.ops[j], Execute)
      ensures j == |r.ops| - 1 && q.fetchCycle < r.ops[j].exec <= r.fetchCycle
    {
      if j < |r.ops| - 1 {
        StillHeard(d.log, r.log, r.ops[j], Execute);
      }
    }
  }

  /** One step keeps the invariant. */
  lemma StepKeeps(p: Pipe, cfg: Config, i: Input)
    requires Ready(p, cfg) && i.icacheCycle >= p.fetchCycle && Admissible(cfg, i.icacheCycle, i)
    ensures Ready(Stepped(p, cfg, i), cfg)
    ensures Stepped(p, cfg, i).previousFetchCycle == i.icacheCycle
    ensures Stepped(p, cfg, i).ops == p.ops + [NewOp(Fetched(CaughtUp(p), i.icacheCycle), cfg, i)]
    ensures Stepped(p, cfg, i).hist == HistAfter(p.hist, i.uop) && Fetched(CaughtUp(p), i.icacheCycle).hist == p.hist
    ensures Fetched(CaughtUp(p), i.icacheCycle).ops == p.ops
  {
    hide CaughtUp;
    hide Fetched;
    hide Entered;
    hide AtFetch;
    hide AfterBranch;
    WindowHasRoom(p, cfg);
    hide Ready;
    CaughtUpKeeps(p, cfg);
    FetchedKeeps(CaughtUp(p), cfg, i.icacheCycle);
    EnterKeeps(Fetched(CaughtUp(p), i.icacheCycle), cfg, i);
  }

  lemma FetchNotBehind(p: Pipe, cfg: Config)
    requires Ready(p, cfg)
    ensures p.previousFetchCycle <= p.fetchCycle
  {
  }

  // ---------------------------------------------------------------- runs

  function Run(p: Pipe, cfg: Config, inputs: seq<Input>): Pipe
    decreases |inputs|
  {
    if inputs == [] then p else Run(Stepped(p, cfg, inputs[0]), cfg, inputs[1..])
  }

  /** Every input is admissible in the state it meets. */
  ghost predicate InputsOk(p: Pipe, cfg: Config, inputs: seq<Input>)
    decreases |inputs|
  {
    inputs == [] || (
      && inputs[0].icacheCycle >= p.fetchCycle
      && Admissible(cfg, inputs[0].icacheCycle, inputs[0])
      && InputsOk(Stepped(p, cfg, inputs[0]), cfg, inputs[1..]))
  }

  lemma {:induction false} RunExtends(p: Pipe, cfg: Config, inputs: seq<Input>, i: Input)
    requires InputsOk(p, cfg, inputs)
    requires i.icacheCycle >= Run(p, cfg, inputs).fetchCycle && Admissible(cfg, i.icacheCycle, i)
    ensures InputsOk(p, cfg, inputs + [i]) && Run(p, cfg, inputs + [i]) == Stepped(Run(p, cfg, inputs), cfg, i)
    decreases |inputs|
  {
    hide Stepped;
    hide Admissible;
    if inputs == [] {
      assert (inputs + [i])[1..] == [];
    } else {
      assert (inputs + [i])[1..] == inputs[1..] + [i];
      RunExtends(Stepped(p, cfg, inputs[0]), cfg, inputs[1..], i);
    }
  }

  lemma {:induction false} RunKeeps(p: Pipe, cfg: Config, inputs: seq<Input>)
    requires Ready(p, cfg) && InputsOk(p, cfg, inputs)
    ensures Ready(Run(p, cfg, inputs), cfg)
    decreases |inputs|
  {
    hide Ready;
    hide Stepped;
    if inputs != [] {
      StepKeeps(p, cfg, inputs[0]);
      RunKeeps(Stepped(p, cfg, inputs[0]), cfg, inputs[1..]);
    }
  }

  lemma StartReady(h: LiveHist, cfg: Config)
    requires cfg.windowSize > 0
    ensures Ready(Start(h), cfg)
  {
  }

  /** In every run the window, and so each queue, stays within its capacity. */
  lemma WindowWithinCapacity(h: LiveHist, cfg: Config, inputs: seq<Input>)
    requires cfg.windowSize > 0 && InputsOk(Start(h), cfg, inputs)
    ensures var p := Run(Start(h), cfg, inputs);
            |p.window| <= cfg.windowSize && |p.dq| <= |p.window| && |p.aq| <= |p.window| && |p.eq| <= |p.window|
  {
    var p := Run(Start(h), cfg, inputs);
    StartReady(h, cfg);
    RunKeeps(Start(h), cfg, inputs);
    hide Run;
    hide InputsOk;
    WindowHasRoom(p, cfg);
    QueueFits(p, p.dq, Decode);
    QueueFits(p, p.aq, Agen);
    QueueFits(p, p.eq, Execute);
  }

  // ---------------------------------------------------------------- why decode must fit in the pipeline fill

  lemma {:induction false} IdleExec(p: Pipe, t: nat, k: nat)
    requires NothingBefore(p.eq, t + 1)
    ensures EvalExec(p, t, k) == p
    decreases |p.eq| - k
  {
    if k < |p.eq| {
      IdleExec(p, t, k + 1);
    }
  }

  lemma {:induction false} IdleAgen(p: Pipe, t: nat, k: nat)
    requires NothingBefore(p.aq, t + 1)
    ensures EvalAgen(p, t, k) == p
    decreases |p.aq| - k
  {
    if k < |p.aq| {
      IdleAgen(p, t, k + 1);
    }
  }

  lemma {:induction false} IdleCycles(p: Pipe, from: nat, upto: nat)
    requires NothingBefore(p.dq, upto) && NothingBefore(p.aq, upto) && NothingBefore(p.eq, upto)
    requires from <= upto && (p.window != [] ==> p.window[0].retire >= upto)
    ensures forall t :: upto <= t ==> Advanced(p, from, t) == Advanced(p, upto, t)
    decreases upto - from
  {
    if from < upto {
      hide EvalExec;
      hide EvalAgen;
      IdleExec(p, from, 0);
      IdleAgen(p, from, 0);
      assert Cycle(p, from) == p;
      IdleCycles(p, from + 1, upto);
    }
  }

  lemma FirstMicroOp(h: LiveHist, cfg: Config, i: Input)
    requires !i.uop.cls.IsMem() && !i.uop.cls.IsBr() && !i.misp && i.icacheCycle == 0
    ensures var p, op := Stepped(Start(h), cfg, i), NewOp(Start(h), cfg, i);
            && p.ops == p.window == [op] && p.dq == [op.InQueue(Decode)] && p.aq == []
               && p.eq == [op.InQueue(Execute)] && p.log == []
  {
  }

  lemma LastCycle(p: Pipe, op: Op, t: nat)
    requires p.ops == [op] && p.window == [op] && p.dq == [op.InQueue(Decode)] && p.aq == []
             && p.eq == [op.InQueue(Execute)] && p.log == []
    requires op.seqNo == 0 && op.exec == op.retire == t < op.decode && !op.Conditional()
    ensures var q := Advanced(p, t, t);
            q.window == [] && q.dq == p.dq && q.log == [Notify(Execute, 0, t), Notify(Commit, 0, t)]
  {
    var e := Resolved(p, p.eq[0], t).(eq := []);
    assert Removed(p.eq, 0) == [];
    assert EvalExec(p, t, 0) == EvalExec(e, t, 0) == e;
    var r := e.(window := [], log := [Notify(Execute, 0, t), Notify(Commit, 0, t)]);
    assert EvalRetire(e, t) == EvalRetire(r, t) == r;
    assert Cycle(p, t) == r;
    assert Advanced(r, t + 1, t) == r;
  }

  /**
    With a decode latency beyond its execution, the first micro-op commits while it still waits to be
    decoded: the lookup of its decode notification finds an empty window.
  */
  lemma LateDecodeFindsNothing(h: LiveHist, cfg: Config, i: Input)
    requires !i.uop.cls.IsMem() && !i.uop.cls.IsBr() && !i.misp && i.icacheCycle == 0
    requires 0 < i.exec < cfg.dqLatency
    ensures var p := Advanced(Stepped(Start(h), cfg, i), 0, i.exec);
            p.window == [] && p.dq == [Item(0, i.piece, cfg.dqLatency)]
                && p.log == [Notify(Execute, 0, i.exec), Notify(Commit, 0, i.exec)]
  {
    var p, t := Stepped(Start(h), cfg, i), i.exec;
    var op := NewOp(Start(h), cfg, i);
    hide Stepped;
    hide Advanced;
    FirstMicroOp(h, cfg, i);
    assert op.exec == op.retire == t < op.decode && op.seqNo == 0 && !op.Conditional();
    hide NewOp;
    IdleCycles(p, 0, t);
    assert Advanced(p, 0, t) == Advanced(p, t, t);
    LastCycle(p, op, t);
  }

  // ---------------------------------------------------------------- the notifications

  /** The position at which the log says that micro-op `i` passed stage `s`. */
  ghost predicate PassedAt(p: Pipe, i: nat, s: Stage, k: int) {
    0 <= k < |p.log| && p.log[k].Notify? && p.log[k].id == i && p.log[k].stage == s
  }

  lemma MustHaveHeard(p: Pipe, cfg: Config, i: nat, s: Stage)
    requires Ready(p, cfg) && i < |p.ops| && p.ops[i].Passes(s)
    requires p.ops[i].At(s) < p.previousFetchCycle + (if s.Decode? then 0 else 1)
    ensures Heard(p.log, p.ops[i], s)
  {
  }

  lemma StageOnceOnTime(p: Pipe, cfg: Config, i: nat, s: Stage)
    requires Ready(p, cfg) && i < |p.ops|
    ensures forall k :: PassedAt(p, i, s, k) ==> p.ops[i].Passes(s) && p.log[k] == p.ops[i].Notice(s)
    ensures forall k, l :: PassedAt(p, i, s, k) && PassedAt(p, i, s, l) ==> k == l
    ensures s != Decode ==>
              ((exists k :: PassedAt(p, i, s, k)) <==> p.ops[i].Passes(s) && p.ops[i].At(s) <= p.previousFetchCycle)
    ensures s == Decode && p.ops[i].At(s) < p.previousFetchCycle ==> exists k :: PassedAt(p, i, s, k)
    ensures p.ops[i].At(s) > p.previousFetchCycle ==> !exists k :: PassedAt(p, i, s, k)
  {
    var f := p.previousFetchCycle;
    assert p.ops[i].seqNo == i;
    forall k | PassedAt(p, i, s, k)
      ensures p.ops[i].Passes(s) && p.log[k] == p.ops[i].Notice(s)
    {
      assert EventOk(p.log[..k], p.log[k], p.ops);
    }
    if p.ops[i].Passes(s) && p.ops[i].At(s) < f + (if s.Decode? then 0 else 1) {
      MustHaveHeard(p, cfg, i, s);
      var k :| 0 <= k < |p.log| && p.log[k] == p.ops[i].Notice(s);
      assert PassedAt(p, i, s, k);
    }
  }

  /**
    In every run each micro-op passes each of its stages at most once, exactly in the cycle recorded for
    it. When a step is over, it has passed exactly the stages whose cycle is no later than that of the last
    fetch; only a decode in that very cycle may still be to come.
  */
  lemma EveryStageOnceOnTime(h: LiveHist, cfg: Config, inputs: seq<Input>, i: nat, s: Stage)
    requires cfg.windowSize > 0 && InputsOk(Start(h), cfg, inputs)
    requires i < |Run(Start(h), cfg, inputs).ops|
    ensures var p := Run(Start(h), cfg, inputs);
            && (forall k :: PassedAt(p, i, s, k) ==> p.ops[i].Passes(s) && p.log[k].cycle == p.ops[i].At(s))
            && (forall k, l :: PassedAt(p, i, s, k) && PassedAt(p, i, s, l) ==> k == l)
            && (s != Decode ==>
                  ((exists k :: PassedAt(p, i, s, k))
                   <==> p.ops[i].Passes(s) && p.ops[i].At(s) <= p.previousFetchCycle))
            && (s == Decode && p.ops[i].At(s) < p.previousFetchCycle ==> exists k :: PassedAt(p, i, s, k))
            && (p.ops[i].At(s) > p.previousFetchCycle ==> !exists k :: PassedAt(p, i, s, k))
  {
    var p := Run(Start(h), cfg, inputs);
    StartReady(h, cfg);
    RunKeeps(Start(h), cfg, inputs);
    hide Run;
    StageOnceOnTime(p, cfg, i, s);
  }

  lemma EarlierPosition(p: Pipe, i: nat, s: Stage, l: nat)
    requires OpsOk(p.ops) && i < |p.ops| && l <= |p.log| && Heard(p.log[..l], p.ops[i], s)
    ensures exists k :: k < l && PassedAt(p, i, s, k)
  {
    var k :| 0 <= k < l && p.log[..l][k] == p.ops[i].Notice(s);
    assert p.ops[i].seqNo == i;
    assert PassedAt(p, i, s, k);
  }

  /** Stages are passed in pipeline order, and micro-ops commit in program order. */
  lemma StagesAndCommitsInOrder(p: Pipe, cfg: Config, i: nat, s: Stage, j: nat, l: nat)
    requires Ready(p, cfg) && i <= j < |p.ops|
    ensures PassedAt(p, i, s, l) ==> forall s': Stage :: s'.Order() < s.Order() && p.ops[i].Passes(s') ==>
              exists k :: k < l && PassedAt(p, i, s', k)
    ensures i < j && PassedAt(p, j, Commit, l) ==> exists k :: k < l && PassedAt(p, i, Commit, k)
  {
    if PassedAt(p, i, s, l) {
      assert EventOk(p.log[..l], p.log[l], p.ops);
      forall s': Stage | s'.Order() < s.Order() && p.ops[i].Passes(s')
        ensures exists k :: k < l && PassedAt(p, i, s', k)
      {
        assert Heard(p.log[..l], p.ops[i], s');
        EarlierPosition(p, i, s', l);
      }
    }
    if i < j && PassedAt(p, j, Commit, l) {
      assert EventOk(p.log[..l], p.log[l], p.ops);
      assert Heard(p.log[..l], p.ops[i], Commit);
      EarlierPosition(p, i, Commit, l);
    }
  }

  /** A micro-op that still has to pass a stage is in the window, where the lookup by sequence number finds it. */
  lemma WaitingIsFound(p: Pipe, cfg: Config, s: Stage, k: nat)
    requires Ready(p, cfg)
    requires s.Decode? || s.Agen? || s.Execute?
    requires var q := if s.Decode? then p.dq else if s.Agen? then p.aq else p.eq; k < |q|
    ensures var item := (if s.Decode? then p.dq else if s.Agen? then p.aq else p.eq)[k];
            exists w :: 0 <= w < |p.window| && p.window[w].seqNo == item.seqNo && p.window[w].piece == item.piece
                        && p.window[w].At(s) == item.cycle
  {
    var q := if s.Decode? then p.dq else if s.Agen? then p.aq else p.eq;
    WaitingIsInWindow(p, q, s, k);
    var w := q[k].seqNo - (|p.ops| - |p.window|);
    assert p.window[w] == p.ops[q[k].seqNo];
    assert p.ops[q[k].seqNo].seqNo == q[k].seqNo;
  }

  function MaxExec(ops: seq<Op>): nat {
    if ops == [] then 0 else Max(ops[|ops| - 1].exec, MaxExec(ops[..|ops| - 1]))
  }

  /**
    The recorded retirement is the latest execution so far, though the code restarts from 0 when the window is
    empty.
  */
  lemma {:induction false} RetireIsPrefixMaximum(ops: seq<Op>, i: nat)
    requires OpsOk(ops) && i < |ops|
    ensures ops[i].retire == MaxExec(ops[..i + 1])
  {
    assert ops[..i + 1][..i] == ops[..i];
    assert ops[i].retire == Max(ops[i].exec, RetireBefore(ops, i));
    if i > 0 {
      RetireIsPrefixMaximum(ops, i - 1);
    }
  }

  // ---------------------------------------------------------------- the predictions

  ghost predicate AsksAbout(e: Event, i: nat) {
    e == Event.Predict(i) || e == SpecUpdate(i)
  }

  lemma AskedBefore(log: seq<Event>, ops: seq<Op>, i: nat, k: nat, m: nat)
    requires LogOk(log, ops) && OpsOk(ops) && i < |ops| && k < |log| && m < |log|
    requires AsksAbout(log[k], i) && log[m].Notify? && log[m].stage == Execute && log[m].id == i
    ensures k < m
  {
  }

  /**
    Nothing is predicted on the wrong path: before any prediction or history update of a later micro-op
    the resolution of a mispredicted one is heard, and that after everything the predictor was asked about it.
  */
  lemma NoWrongPathPrediction(p: Pipe, cfg: Config, i: nat, j: nat, l: nat)
    requires Ready(p, cfg) && i < j < |p.ops| && p.ops[i].misp
    requires l < |p.log| && AsksAbout(p.log[l], j)
    ensures exists m ::
              && m < l && PassedAt(p, i, Execute, m)
              && forall k :: 0 <= k < |p.log| && AsksAbout(p.log[k], i) ==> k < m
  {
    hide QueueOk;
    hide WindowOk;
    hide CheckpointsOk;
    hide HeardBy;
    assert EventOk(p.log[..l], p.log[l], p.ops);
    EarlierPosition(p, i, Execute, l);
    var m :| m < l && PassedAt(p, i, Execute, m);
    forall k | 0 <= k < |p.log| && AsksAbout(p.log[k], i)
      ensures k < m
    {
      AskedBefore(p.log, p.ops, i, k, m);
    }
  }

  // ---------------------------------------------------------------- the trainings

  /** The history after the branches among `ops`, in program order. */
  function HistoryOf(h: LiveHist, ops: seq<Op>): LiveHist {
    if ops == [] then h
    else
      var before, op := HistoryOf(h, ops[..|ops| - 1]), ops[|ops| - 1];
      HistAfter(before, op.uop)
  }

  /** The running history, and each one recorded at a prediction, depend on program order alone. */
  ghost predicate HistoryInOrder(p: Pipe, h: LiveHist) {
    && p.hist == HistoryOf(h, p.ops)
    && forall i :: 0 <= i < |p.ops| ==> p.ops[i].live == HistoryOf(h, p.ops[..i])
  }

  lemma HistoryGrows(p: Pipe, r: Pipe, h: LiveHist)
    requires HistoryInOrder(p, h) && |r.ops| == |p.ops| + 1 && r.ops[..|p.ops|] == p.ops
    requires r.ops[|p.ops|].live == p.hist && r.hist == HistAfter(p.hist, r.ops[|p.ops|].uop)
    ensures HistoryInOrder(r, h)
  {
    hide HistAfter;
    forall j | 0 <= j < |r.ops|
      ensures r.ops[j].live == HistoryOf(h, r.ops[..j])
    {
      assert r.ops[..j] == p.ops[..j];
      assert j < |p.ops| ==> r.ops[j] == p.ops[j];
      assert j == |p.ops| ==> p.ops[..j] == p.ops;
    }
  }

  lemma StepKeepsHistory(p: Pipe, cfg: Config, i: Input, h: LiveHist)
    requires Ready(p, cfg) && i.icacheCycle >= p.fetchCycle && Admissible(cfg, i.icacheCycle, i)
    requires HistoryInOrder(p, h)
    ensures HistoryInOrder(Stepped(p, cfg, i), h)
  {
    StepKeeps(p, cfg, i);
    hide CaughtUp;
    hide Fetched;
    hide HistAfter;
    hide Ready;
    hide Stepped;
    hide Admissible;
    var r := Stepped(p, cfg, i);
    HistoryGrows(p, r, h);
  }

  lemma {:induction false} RunKeepsHistory(p: Pipe, cfg: Config, inputs: seq<Input>, h: LiveHist)
    requires Ready(p, cfg) && InputsOk(p, cfg, inputs) && HistoryInOrder(p, h)
    ensures HistoryInOrder(Run(p, cfg, inputs), h)
    decreases |inputs|
  {
    hide Ready;
    hide Stepped;
    hide HistoryInOrder;
    if inputs != [] {
      StepKeeps(p, cfg, inputs[0]);
      StepKeepsHistory(p, cfg, inputs[0], h);
      RunKeepsHistory(Stepped(p, cfg, inputs[0]), cfg, inputs[1..], h);
    }
  }

  lemma RunReaches(h: LiveHist, cfg: Config, inputs: seq<Input>)
    requires cfg.windowSize > 0 && InputsOk(Start(h), cfg, inputs)
    ensures var p := Run(Start(h), cfg, inputs);
            && OpsOk(p.ops) && LogOk(p.log, p.ops) && QueueOk(p.eq, Execute, p.ops, p.log)
            && CheckpointsOk(p.checkpoints, p.ops, p.log) && HistoryInOrder(p, h)
  {
    StartReady(h, cfg);
    RunKeeps(Start(h), cfg, inputs);
    RunKeepsHistory(Start(h), cfg, inputs, h);
  }

  lemma CheckpointsMatchQueue(checkpoints: map<nat, LiveHist>, q: seq<Item>, ops: seq<Op>, log: seq<Event>)
    requires OpsOk(ops) && QueueOk(q, Execute, ops, log) && CheckpointsOk(checkpoints, ops, log)
    ensures forall k :: 0 <= k < |q| ==> q[k].seqNo < |ops|
    ensures forall k :: 0 <= k < |q| && ops[q[k].seqNo].Conditional() ==>
              ops[q[k].seqNo].Key() in checkpoints && checkpoints[ops[q[k].seqNo].Key()] == ops[q[k].seqNo].live
    ensures forall key :: key in checkpoints ==>
              exists k :: 0 <= k < |q| && ops[q[k].seqNo].Conditional() && ops[q[k].seqNo].Key() == key
  {
  }

  /**
    After every step a checkpoint is held exactly for each conditional branch in the execute queue, and
    it is the history of the branches before it in program order.
  */
  lemma CheckpointsAreUnresolvedBranches(h: LiveHist, cfg: Config, inputs: seq<Input>)
    requires cfg.windowSize > 0 && InputsOk(Start(h), cfg, inputs)
    ensures var p := Run(Start(h), cfg, inputs);
            && (forall k :: 0 <= k < |p.eq| ==> p.eq[k].seqNo < |p.ops|)
            && (forall k :: 0 <= k < |p.eq| && p.ops[p.eq[k].seqNo].Conditional() ==>
                  var id := p.eq[k].seqNo;
                  p.ops[id].Key() in p.checkpoints && p.checkpoints[p.ops[id].Key()] == HistoryOf(h, p.ops[..id]))
            && (forall key :: key in p.checkpoints ==>
                  exists k :: 0 <= k < |p.eq| && p.eq[k].seqNo < |p.ops| && p.ops[p.eq[k].seqNo].Conditional()
                              && p.ops[p.eq[k].seqNo].Key() == key)
  {
    var p := Run(Start(h), cfg, inputs);
    hide Run;
    hide InputsOk;
    hide OpsOk;
    hide LogOk;
    hide CheckpointsOk;
    hide QueueOk;
    hide Op.Key;
    hide HistoryOf;
    RunReaches(h, cfg, inputs);
    CheckpointsMatchQueue(p.checkpoints, p.eq, p.ops, p.log);
  }

  lemma TrainedOnce(checkpoints: map<nat, LiveHist>, ops: seq<Op>, log: seq<Event>, i: nat)
    requires LogOk(log, ops) && CheckpointsOk(checkpoints, ops, log) && i < |ops| && ops[i].Conditional()
    ensures forall k :: 0 <= k < |log| && log[k].Train? && log[k].id == i ==> log[k].history == ops[i].live
    ensures forall k, l :: 0 <= k < l < |log| && log[k].Train? && log[l].Train? && log[k].id == i ==> log[l].id != i
    ensures Heard(log, ops[i], Execute) <==> exists k :: 0 <= k < |log| && log[k].Train? && log[k].id == i
  {
  }

  /**
    The predictor is trained exactly once for each resolved conditional branch, right with the history
    it was predicted with, whatever other branches did in between.
  */
  lemma TrainedWithPredictionHistory(h: LiveHist, cfg: Config, inputs: seq<Input>, i: nat)
    requires cfg.windowSize > 0 && InputsOk(Start(h), cfg, inputs)
    requires i < |Run(Start(h), cfg, inputs).ops| && Run(Start(h), cfg, inputs).ops[i].Conditional()
    ensures var p := Run(Start(h), cfg, inputs);
            && (forall k :: 0 <= k < |p.log| && p.log[k].Train? && p.log[k].id == i ==>
                  p.log[k].history == HistoryOf(h, p.ops[..i]))
            && (forall k, l :: 0 <= k < l < |p.log| && p.log[k].Train? && p.log[l].Train? && p.log[k].id == i ==>
               p.log[l].id != i)
            && (Heard(p.log, p.ops[i], Execute) <==>
               exists k :: 0 <= k < |p.log| && p.log[k].Train? && p.log[k].id == i)
  {
    var p := Run(Start(h), cfg, inputs);
    hide Run;
    hide InputsOk;
    hide OpsOk;
    hide LogOk;
    hide CheckpointsOk;
    hide QueueOk;
    hide Heard;
    hide HistoryOf;
    RunReaches(h, cfg, inputs);
    TrainedOnce(p.checkpoints, p.ops, p.log, i);
  }
}
