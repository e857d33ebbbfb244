/** When the cycles that the back end computes are cycles that the pipeline can take. */
module Admission {
  import PipelineRuns
  import opened Common
  import opened ExecutionRules
  import opened MicroOps
  import opened PipelineCycles
  import opened PipelineInvariants
  import opened PipelineSteps
  import opened Pipelines
  import opened TageHistories

  /** A micro-op fetched in cycle `f`, with cycles that the back end can compute for it. */
  ghost predicate Computable(k: Timing, f: nat, i: Input) {
    && WellFormed(i.uop) && i.piece < 16
    && exists start :: f + k.fill <= start && CyclesFrom(k, i.uop, start, i.agen, i.exec)
  }

  /** The cycles from one start in particular. */
  lemma CyclesFit(k: Timing, cfg: Config, f: nat, i: Input, start: nat)
    requires k.TakesTime() && cfg.dqLatency <= k.fill
    requires i.piece < 16 && f + k.fill <= start && CyclesFrom(k, i.uop, start, i.agen, i.exec)
    ensures Admissible(cfg, f, i) && start + LeastLatency(k, i.uop) <= i.exec
  {
  }

  /** A store that gets a lane as soon as the pipeline is filled. */
  function PromptStore(k: Timing, f: nat): Input {
    var none := Operand(false, 0);
    Input(MicroOp(Store, 0, 4, false, true, none, none, none, none, 0, 1), 0, f, f + k.fill + 1,
        f + k.fill + k.default, false)
  }

  /**
    Whatever the back end computes keeps the pipeline's order exactly when decoding takes no longer than
    filling the pipeline. Otherwise a store generates its address before it has been decoded, which
    `eval_aq` asserts cannot be.
  */
  lemma AdmissibleIffDecodeFits(k: Timing, cfg: Config)
    requires k.TakesTime()
    ensures (forall f: nat, i: Input :: Computable(k, f, i) ==> Admissible(cfg, f, i)) <==> cfg.dqLatency <= k.fill
    ensures cfg.dqLatency > k.fill ==>
              forall f: nat :: Computable(k, f, PromptStore(k, f)) && PromptStore(k, f).agen <= f + cfg.dqLatency
  {
    forall f: nat | cfg.dqLatency > k.fill
      ensures Computable(k, f, PromptStore(k, f)) && !Admissible(cfg, f, PromptStore(k, f))
    {
      var i := PromptStore(k, f);
      assert CyclesFrom(k, i.uop, f + k.fill, i.agen, i.exec);
    }
    if cfg.dqLatency > k.fill {
      assert Computable(k, 0, PromptStore(k, 0));
    }
  }

  // ---------------------------------------------------------------- lookups in the window

  function Waiting(p: Pipe, s: Stage): seq<Item> {
    match s case Decode => p.dq case Agen => p.aq case _ => p.eq
  }

  ghost predicate Found(p: Pipe, item: Item) {
    exists w :: 0 <= w < |p.window| && p.window[w].seqNo == item.seqNo && p.window[w].piece == item.piece
  }

  /** Every micro-op that waits in a queue is found in the window. */
  ghost predicate AllFound(p: Pipe) {
    forall k: nat, s: Stage :: s != Commit && k < |Waiting(p, s)| ==> Found(p, Waiting(p, s)[k])
  }

  lemma PartsOfStructure(p: Pipe, s: Stage)
    requires StructureOk(p) && s != Commit
    ensures OpsOk(p.ops) && QueueOk(Waiting(p, s), s, p.ops, p.log) && WindowOk(p.window, p.ops, p.log)
  {
    hide OpsOk;
    hide LogOk;
    hide QueueOk;
    hide WindowOk;
    hide CheckpointsOk;
  }

  lemma ItemOf(q: seq<Item>, s: Stage, ops: seq<Op>, log: seq<Event>, k: nat)
    requires QueueOk(q, s, ops, log) && OpsOk(ops) && k < |q|
    ensures q[k].seqNo < |ops| && ops[q[k].seqNo].seqNo == q[k].seqNo && ops[q[k].seqNo].piece == q[k].piece
  {
    hide OpOk;
    hide Heard;
    assert Waits(q[k], s, ops, log);
  }

  lemma QueuedIsFound(p: Pipe, s: Stage, k: nat)
    requires StructureOk(p) && s != Commit && k < |Waiting(p, s)|
    ensures Found(p, Waiting(p, s)[k])
  {
    hide OpsOk;
    hide QueueOk;
    hide LogOk;
    hide CheckpointsOk;
    hide Heard;
    var item := Waiting(p, s)[k];
    PartsOfStructure(p, s);
    ItemOf(Waiting(p, s), s, p.ops, p.log, k);
    WaitingIsInWindow(p, Waiting(p, s), s, k);
    assert p.window[item.seqNo - (|p.ops| - |p.window|)] == p.ops[item.seqNo];
  }

  /** After a step, every lookup of the cycles still to be evaluated finds its micro-op. */
  lemma FoundWhenever(p: Pipe, cfg: Config, t: nat)
    requires Ready(p, cfg) && t + 1 >= p.previousFetchCycle
    ensures AllFound(Advanced(p, p.previousFetchCycle, t))
  {
    hide StructureOk;
    hide AllAsked;
    hide HeardBy;
    hide Advanced;
    hide Waiting;
    hide Found;
    var q := Advanced(p, p.previousFetchCycle, t);
    AdvanceKeeps(p, p.previousFetchCycle, t);
    forall k: nat, s: Stage | s != Commit && k < |Waiting(q, s)|
      ensures Found(q, Waiting(q, s)[k])
    {
      QueuedIsFound(q, s, k);
    }
  }

  /** The least execution latency of a micro-op that is not a load. */
  function LeastExec(k: Timing): nat {
    Min(k.default, Min(k.fp, k.slow))
  }

  /** A run of micro-ops that do not access memory, with cycles that the back end can compute. */
  ghost predicate MemoryFree(k: Timing, p: Pipe, cfg: Config, inputs: seq<Input>)
    decreases |inputs|
  {
    inputs == [] || (
      && inputs[0].icacheCycle >= p.fetchCycle
      && Computable(k, inputs[0].icacheCycle, inputs[0]) && !inputs[0].uop.cls.IsMem()
      && MemoryFree(k, Stepped(p, cfg, inputs[0]), cfg, inputs[1..]))
  }

  lemma {:induction false} MemoryFreeOk(k: Timing, p: Pipe, cfg: Config, inputs: seq<Input>)
    requires k.TakesTime() && cfg.dqLatency <= k.fill + LeastExec(k) && MemoryFree(k, p, cfg, inputs)
    ensures PipelineRuns.InputsOk(p, cfg, inputs)
    decreases |inputs|
  {
    hide Stepped;
    if inputs != [] {
      MemoryFreeOk(k, Stepped(p, cfg, inputs[0]), cfg, inputs[1..]);
    }
  }

  /** The fastest micro-op, fetched in cycle 0. */
  function PromptOp(k: Timing): Input {
    var none := Operand(false, 0);
    var cls := if k.fp == LeastExec(k) then Fp else if k.slow == LeastExec(k) then SlowAlu else Alu;
    Input(MicroOp(cls, 0, 4, false, true, none, none, none, none, 0, 1), 0, 0, NEVER, k.fill + LeastExec(k), false)
  }

  lemma PromptIsComputable(k: Timing)
    ensures Computable(k, 0, PromptOp(k))
  {
    assert CyclesFrom(k, PromptOp(k).uop, k.fill, PromptOp(k).agen, PromptOp(k).exec);
  }

  lemma PromptIsLost(k: Timing, cfg: Config, h: LiveHist)
    requires k.TakesTime() && cfg.dqLatency > k.fill + LeastExec(k)
    ensures var p := PipelineRuns.Run(Start(h), cfg, [PromptOp(k)]);
            && MemoryFree(k, Start(h), cfg, [PromptOp(k)])
            && p.previousFetchCycle == 0 && !AllFound(Advanced(p, 0, PromptOp(k).exec))
  {
    var i := PromptOp(k);
    PromptIsComputable(k);
    PipelineRuns.LateDecodeFindsNothing(h, cfg, i);
    PipelineRuns.FirstMicroOp(h, cfg, i);
    var q := Stepped(Start(h), cfg, i);
    assert [i][1..] == [] && PipelineRuns.Run(q, cfg, []) == q;
    var r := Advanced(q, 0, i.exec);
    assert Waiting(r, Decode)[0] == Item(0, i.piece, cfg.dqLatency) && !Found(r, Waiting(r, Decode)[0]);
  }

  /**
    In every run without memory accesses, every lookup in the window succeeds in every cycle exactly when
    decoding takes no longer than filling the pipeline and the shortest execution together.
  */
  lemma LookupsSucceedIff(k: Timing, cfg: Config, h: LiveHist)
    requires k.TakesTime() && cfg.windowSize > 0
    ensures (forall inputs: seq<Input>, t: nat ::
               MemoryFree(k, Start(h), cfg, inputs) ==>
               var p := PipelineRuns.Run(Start(h), cfg, inputs);
               t >= p.previousFetchCycle ==> AllFound(Advanced(p, p.previousFetchCycle, t)))
            <==> cfg.dqLatency <= k.fill + LeastExec(k)
  {
    if cfg.dqLatency <= k.fill + LeastExec(k) {
      forall inputs: seq<Input>, t: nat | MemoryFree(k, Start(h), cfg, inputs)
        ensures var p := PipelineRuns.Run(Start(h), cfg, inputs);
                t >= p.previousFetchCycle ==> AllFound(Advanced(p, p.previousFetchCycle, t))
      {
        var p := PipelineRuns.Run(Start(h), cfg, inputs);
        MemoryFreeOk(k, Start(h), cfg, inputs);
        PipelineRuns.StartReady(h, cfg);
        PipelineRuns.RunKeeps(Start(h), cfg, inputs);
        if t >= p.previousFetchCycle {
          FoundWhenever(p, cfg, t);
        }
      }
    } else {
      PromptIsLost(k, cfg, h);
    }
  }
}
