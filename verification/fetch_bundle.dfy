/**
  Which micro-ops share a fetch cycle, over whole runs: when a fetch bundle ends, how much it holds, and how
  far a full window or a misprediction moves fetch.
*/
module FetchBundles {
  import opened Common
  import opened MicroOps
  import opened PipelineCycles
  import opened PipelineInvariants
  import opened PipelineRuns
  import opened PipelineSteps
  import opened Pipelines
  import opened TageHistories

  // ---------------------------------------------------------------- one step

  /** Branches that end a bundle by themselves. */
  predicate EndsBundle(cfg: Config, u: MicroOp) {
    || (cfg.stopAtTaken && u.isTaken)
    || (cfg.stopAtIndirect && (u.cls == UncondIndirectBranch || u.cls == CallIndirect || u.cls == Return))
  }

  predicate IsBranch(u: MicroOp) {
    u.cls == CondBranch || u.cls == UncondDirectBranch || u.cls == UncondIndirectBranch || u.cls == CallDirect
    || u.cls == CallIndirect || u.cls == Return
  }

  /** The micro-op completes a bundle that holds `size` instructions and `branches` branches before it. */
  predicate Completes(cfg: Config, u: MicroOp, size: nat, branches: nat) {
    || EndsBundle(cfg, u)
    || (cfg.fetchWidth > 0 && u.isLastPiece && size + 1 == cfg.fetchWidth)
    || (cfg.fetchNumBranch > 0 && IsBranch(u) && branches + 1 == cfg.fetchNumBranch)
  }

  /**
    What a micro-op fetched in cycle `f` makes of the front end: with a full window fetch waits for the front of
    the window to retire, a completed bundle is over in the next cycle, and a misprediction is waited for.
  */
  ghost predicate FrontAfter(cfg: Config, f: nat, size: nat, branches: nat, i: Input, r: Pipe) {
    var full, ends := |r.window| == cfg.windowSize, Completes(cfg, i.uop, size, branches);
    && r.window != [] && r.window[0].retire > f
    && (var next := if full then r.window[0].retire else if ends then f + 1 else f;
        r.fetchCycle == if i.misp then Max(next, i.exec) else next)
    && (cfg.fetchWidth > 0 ==>
          r.numFetched == if i.misp || full || ends then 0 else size + (if i.uop.isLastPiece then 1 else 0))
    && (cfg.fetchNumBranch > 0 ==>
          r.numFetchedBranch == if i.misp || (!full && ends) then 0
                                else branches + (if !full && IsBranch(i.uop) then 1 else 0))
  }

  lemma FrontKept(p: Pipe, cfg: Config, c: nat)
    requires Ready(p, cfg) && c >= p.fetchCycle
    ensures var q := Fetched(CaughtUp(p), c);
            && q.numFetched == p.numFetched && q.numFetchedBranch == p.numFetchedBranch
            && q.fetchCycle == c && AtFetch(q, cfg) && q.ops == p.ops
  {
    hide StructureOk;
    hide AllAsked;
    hide HeardBy;
    hide Advanced;
    hide AllResolved;
    WindowHasRoom(p, cfg);
    CaughtUpKeeps(p, cfg);
    FetchedKeeps(CaughtUp(p), cfg, c);
    var q := CaughtUp(p);
    if p.previousFetchCycle != p.fetchCycle {
      AdvanceKeeps(p, p.previousFetchCycle, p.fetchCycle);
    }
    if c != q.fetchCycle {
      AdvanceKeeps(q, q.fetchCycle, c);
    }
  }

  lemma BundledFront(d: Pipe, cfg: Config, u: MicroOp)
    requires d.window != [] && d.window[0].retire > d.fetchCycle
    requires cfg.fetchWidth > 0 ==> d.numFetched < cfg.fetchWidth
    ensures var b, f := Bundled(d, cfg, u), d.fetchCycle;
            var full, ends := |d.window| == cfg.windowSize, Completes(cfg, u, d.numFetched, d.numFetchedBranch);
            && b == d.(fetchCycle := b.fetchCycle, numFetched := b.numFetched, numFetchedBranch := b.numFetchedBranch)
            && b.fetchCycle == (if full then d.window[0].retire else if ends then f + 1 else f)
            && (cfg.fetchWidth > 0 ==>
                  b.numFetched == if full || ends then 0 else d.numFetched + (if u.isLastPiece then 1 else 0))
            && (cfg.fetchNumBranch > 0 ==>
                  b.numFetchedBranch == if !full && ends then 0
                                        else d.numFetchedBranch + (if !full && IsBranch(u) then 1 else 0))
  {
  }

  lemma PredictedFront(b: Pipe, op: Op)
    ensures var r := Predicted(b, op);
            && r.window == b.window && r.fetchCycle == b.fetchCycle && r.numFetched == b.numFetched
            && r.numFetchedBranch == b.numFetchedBranch
  {
    hide AfterBranch;
  }

  lemma EnteredFront(q: Pipe, cfg: Config, i: Input)
    requires AtFetch(q, cfg) && Admissible(cfg, q.fetchCycle, i)
    requires cfg.fetchWidth > 0 ==> q.numFetched < cfg.fetchWidth
    ensures FrontAfter(cfg, q.fetchCycle, q.numFetched, q.numFetchedBranch, i, Entered(q, cfg, i))
  {
    var op := NewOp(q, cfg, i);
    var d := Dispatched(q, op);
    DispatchedTimely(q, cfg, i);
    hide AtFetch;
    hide Admissible;
    BundledFront(d, cfg, i.uop);
    PredictedFront(Bundled(d, cfg, i.uop), op);
    hide Bundled;
    hide Predicted;
    hide Completes;
    hide IsBranch;
  }

  /** Where fetch stands after a step, and what the bundle counters hold. */
  lemma NextFetch(p: Pipe, cfg: Config, i: Input)
    requires Ready(p, cfg) && i.icacheCycle >= p.fetchCycle && Admissible(cfg, i.icacheCycle, i)
    requires cfg.fetchWidth > 0 ==> p.numFetched < cfg.fetchWidth
    ensures FrontAfter(cfg, i.icacheCycle, p.numFetched, p.numFetchedBranch, i, Stepped(p, cfg, i))
  {
    hide FrontAfter;
    hide Entered;
    FrontKept(p, cfg, i.icacheCycle);
    hide Ready;
    hide AtFetch;
    hide CaughtUp;
    hide Fetched;
    EnteredFront(Fetched(CaughtUp(p), i.icacheCycle), cfg, i);
  }

  // ---------------------------------------------------------------- what a cycle holds

  /** How many instructions end in cycle `c`, and how many branches are fetched in it. */
  function InstructionsIn(ops: seq<Op>, c: nat): nat {
    if ops == [] then 0
    else
      var op := ops[|ops| - 1];
      InstructionsIn(ops[..|ops| - 1], c) + (if op.fetch == c && op.uop.isLastPiece then 1 else 0)
  }

  function BranchesIn(ops: seq<Op>, c: nat): nat {
    if ops == [] then 0
    else
      var op := ops[|ops| - 1];
      BranchesIn(ops[..|ops| - 1], c) + (if op.fetch == c && IsBranch(op.uop) then 1 else 0)
  }

  lemma {:induction false} NothingIn(ops: seq<Op>, c: nat)
    requires forall i :: 0 <= i < |ops| ==> ops[i].fetch != c
    ensures InstructionsIn(ops, c) == 0 && BranchesIn(ops, c) == 0
  {
    if ops != [] {
      NothingIn(ops[..|ops| - 1], c);
    }
  }

  /** No cycle holds more than the fetch width and the branch throughput allow, and the counters know it. */
  ghost predicate CyclesFit(p: Pipe, cfg: Config) {
    && (cfg.fetchWidth > 0 ==>
          && InstructionsIn(p.ops, p.fetchCycle) <= p.numFetched < cfg.fetchWidth
          && forall c :: InstructionsIn(p.ops, c) <= cfg.fetchWidth)
    && (cfg.fetchNumBranch > 0 ==>
          && BranchesIn(p.ops, p.fetchCycle) <= p.numFetchedBranch < cfg.fetchNumBranch
          && forall c :: BranchesIn(p.ops, c) <= cfg.fetchNumBranch)
  }

  /** The first cycle in which anything after `op` may be fetched, as far as `op` alone decides. */
  function MustWaitFor(cfg: Config, op: Op): nat {
    Max(if EndsBundle(cfg, op.uop) then op.fetch + 1 else op.fetch, if op.misp then op.exec else 0)
  }

  /** Fetch never goes back, and stays ahead of everything that ended a bundle or was mispredicted. */
  ghost predicate FetchAhead(p: Pipe, cfg: Config) {
    && (forall j :: 0 <= j < |p.ops| ==> MustWaitFor(cfg, p.ops[j]) <= p.fetchCycle)
    && (forall j, k :: 0 <= j < k < |p.ops| ==> MustWaitFor(cfg, p.ops[j]) <= p.ops[k].fetch)
  }

  ghost predicate FetchOk(p: Pipe, cfg: Config) {
    CyclesFit(p, cfg) && FetchAhead(p, cfg)
  }

  lemma CountsGrow(ops: seq<Op>, op: Op)
    ensures forall c :: InstructionsIn(ops + [op], c)
                        == InstructionsIn(ops, c) + (if op.fetch == c && op.uop.isLastPiece then 1 else 0)
    ensures forall c :: BranchesIn(ops + [op], c)
                        == BranchesIn(ops, c) + (if op.fetch == c && IsBranch(op.uop) then 1 else 0)
  {
    assert (ops + [op])[..|ops|] == ops;
  }

  /** Beyond the cycle that fetch stands in nothing has been fetched yet. */
  lemma NothingBeyond(p: Pipe, cfg: Config, c: nat)
    requires FetchOk(p, cfg) && c > p.fetchCycle
    ensures InstructionsIn(p.ops, c) == 0 && BranchesIn(p.ops, c) == 0
  {
    forall j | 0 <= j < |p.ops|
      ensures p.ops[j].fetch < c
    {
      assert MustWaitFor(cfg, p.ops[j]) <= p.fetchCycle;
    }
    NothingIn(p.ops, c);
  }

  lemma CyclesStillFit(p: Pipe, cfg: Config, i: Input, r: Pipe, op: Op)
    requires FetchOk(p, cfg) && i.icacheCycle >= p.fetchCycle && r.ops == p.ops + [op]
    requires op.fetch == i.icacheCycle && op.uop == i.uop && (i.misp ==> i.exec > i.icacheCycle)
    requires FrontAfter(cfg, i.icacheCycle, p.numFetched, p.numFetchedBranch, i, r)
    ensures CyclesFit(r, cfg)
  {
    var f := i.icacheCycle;
    CountsGrow(p.ops, op);
    if f > p.fetchCycle {
      NothingBeyond(p, cfg, f);
    }
    if r.fetchCycle > f {
      NothingBeyond(p, cfg, r.fetchCycle);
    }
    hide InstructionsIn;
    hide BranchesIn;
    hide FetchAhead;
    hide IsBranch;
    hide EndsBundle;
  }

  lemma FetchStaysAhead(p: Pipe, cfg: Config, i: Input, r: Pipe, op: Op)
    requires FetchAhead(p, cfg) && i.icacheCycle >= p.fetchCycle && r.ops == p.ops + [op]
    requires op.fetch == i.icacheCycle && op.uop == i.uop && op.exec == i.exec && op.misp == i.misp
    requires FrontAfter(cfg, i.icacheCycle, p.numFetched, p.numFetchedBranch, i, r)
    ensures FetchAhead(r, cfg)
  {
    hide EndsBundle;
    hide IsBranch;
    assert MustWaitFor(cfg, op) <= r.fetchCycle;
    forall j, k | 0 <= j < k < |r.ops|
      ensures MustWaitFor(cfg, r.ops[j]) <= r.ops[k].fetch
    {
      assert MustWaitFor(cfg, p.ops[j]) <= p.fetchCycle;
    }
  }

  lemma StepFetches(p: Pipe, cfg: Config, i: Input)
    requires Ready(p, cfg) && FetchOk(p, cfg) && i.icacheCycle >= p.fetchCycle && Admissible(cfg, i.icacheCycle, i)
    ensures FetchOk(Stepped(p, cfg, i), cfg)
  {
    hide Ready;
    hide Stepped;
    hide CaughtUp;
    hide Fetched;
    hide FrontAfter;
    hide FetchAhead;
    NextFetch(p, cfg, i);
    StepKeeps(p, cfg, i);
    FrontKept(p, cfg, i.icacheCycle);
    var op := NewOp(Fetched(CaughtUp(p), i.icacheCycle), cfg, i);
    CyclesStillFit(p, cfg, i, Stepped(p, cfg, i), op);
    FetchStaysAhead(p, cfg, i, Stepped(p, cfg, i), op);
  }

  lemma {:induction false} RunFetches(p: Pipe, cfg: Config, inputs: seq<Input>)
    requires Ready(p, cfg) && FetchOk(p, cfg) && InputsOk(p, cfg, inputs)
    ensures FetchOk(Run(p, cfg, inputs), cfg)
    decreases |inputs|
  {
    hide Ready;
    hide Stepped;
    hide FetchOk;
    if inputs != [] {
      StepKeeps(p, cfg, inputs[0]);
      StepFetches(p, cfg, inputs[0]);
      RunFetches(Stepped(p, cfg, inputs[0]), cfg, inputs[1..]);
    }
  }

  lemma StartFetches(h: LiveHist, cfg: Config)
    ensures FetchOk(Start(h), cfg)
  {
    forall c: nat
      ensures InstructionsIn([], c) == 0 && BranchesIn([], c) == 0
    {
    }
  }

  // ---------------------------------------------------------------- runs

  /**
    In every run no more than FETCH_WIDTH instructions end, and no more than FETCH_NUM_BRANCH branches are
    fetched, in any one cycle.
  */
  lemma BundlesFit(h: LiveHist, cfg: Config, inputs: seq<Input>, c: nat)
    requires cfg.windowSize > 0 && InputsOk(Start(h), cfg, inputs)
    ensures var ops := Run(Start(h), cfg, inputs).ops;
            && (cfg.fetchWidth > 0 ==> InstructionsIn(ops, c) <= cfg.fetchWidth)
            && (cfg.fetchNumBranch > 0 ==> BranchesIn(ops, c) <= cfg.fetchNumBranch)
  {
    hide Run;
    hide InputsOk;
    hide FetchAhead;
    StartReady(h, cfg);
    StartFetches(h, cfg);
    RunFetches(Start(h), cfg, inputs);
  }

  /**
    In every run fetch follows the program. What comes after a taken branch or after an unconditional indirect
    one, where these stop a bundle, is fetched in a later cycle; and what comes after a misprediction not before
    it has executed.
  */
  lemma FetchInOrder(h: LiveHist, cfg: Config, inputs: seq<Input>, j: nat, k: nat)
    requires cfg.windowSize > 0 && InputsOk(Start(h), cfg, inputs)
    requires j < k < |Run(Start(h), cfg, inputs).ops|
    ensures var ops := Run(Start(h), cfg, inputs).ops;
            && ops[j].fetch <= ops[k].fetch
            && (cfg.stopAtTaken && ops[j].uop.isTaken ==> ops[j].fetch < ops[k].fetch)
            && (cfg.stopAtIndirect
                && (ops[j].uop.cls == UncondIndirectBranch || ops[j].uop.cls == CallIndirect
                    || ops[j].uop.cls == Return)
                ==> ops[j].fetch < ops[k].fetch)
            && (ops[j].misp ==> ops[j].exec <= ops[k].fetch)
  {
    hide Run;
    hide InputsOk;
    hide CyclesFit;
    StartReady(h, cfg);
    StartFetches(h, cfg);
    RunFetches(Start(h), cfg, inputs);
    assert MustWaitFor(cfg, Run(Start(h), cfg, inputs).ops[j]) <= Run(Start(h), cfg, inputs).ops[k].fetch;
  }

  /** No micro-op is fetched before the one a window's capacity earlier has retired. */
  ghost predicate WaitsForWindow(ops: seq<Op>, capacity: nat) {
    forall k :: capacity <= k < |ops| ==> ops[k - capacity].retire <= ops[k].fetch
  }

  lemma OldHaveRetired(q: Pipe, cfg: Config, j: nat)
    requires AtFetch(q, cfg) && j < |q.ops| && j + cfg.windowSize == |q.ops|
    ensures q.ops[j].retire <= q.fetchCycle
  {
    assert Heard(q.log, q.ops[j], Commit);
  }

  lemma {:induction false} RunWaitsForWindow(p: Pipe, cfg: Config, inputs: seq<Input>)
    requires Ready(p, cfg) && InputsOk(p, cfg, inputs) && WaitsForWindow(p.ops, cfg.windowSize)
    requires cfg.windowSize > 0
    ensures WaitsForWindow(Run(p, cfg, inputs).ops, cfg.windowSize)
    decreases |inputs|
  {
    hide Ready;
    hide Stepped;
    hide CaughtUp;
    hide Fetched;
    hide AtFetch;
    if inputs != [] {
      var i, r := inputs[0], Stepped(p, cfg, inputs[0]);
      StepKeeps(p, cfg, i);
      FrontKept(p, cfg, i.icacheCycle);
      var q := Fetched(CaughtUp(p), i.icacheCycle);
      if |p.ops| >= cfg.windowSize {
        OldHaveRetired(q, cfg, |p.ops| - cfg.windowSize);
      }
      assert WaitsForWindow(r.ops, cfg.windowSize);
      RunWaitsForWindow(r, cfg, inputs[1..]);
    }
  }

  lemma WindowLimitsFetch(h: LiveHist, cfg: Config, inputs: seq<Input>, k: nat)
    requires cfg.windowSize > 0 && InputsOk(Start(h), cfg, inputs)
    requires cfg.windowSize <= k < |Run(Start(h), cfg, inputs).ops|
    ensures var ops := Run(Start(h), cfg, inputs).ops; ops[k - cfg.windowSize].retire <= ops[k].fetch
  {
    hide Run;
    hide InputsOk;
    StartReady(h, cfg);
    RunWaitsForWindow(Start(h), cfg, inputs);
  }

  // ---------------------------------------------------------------- exactly when fetch moves

  /** After a step: fetch has left the cycle of the last micro-op, even before the instruction cache is asked. */
  predicate Moved(p: Pipe) {
    p.fetchCycle != p.previousFetchCycle
  }

  /** How many instructions have ended since fetch last moved on. */
  function BundleSize(p: Pipe, cfg: Config, inputs: seq<Input>): nat
    decreases |inputs|
  {
    if inputs == [] || Moved(Run(p, cfg, inputs)) then 0
    else
      var n := |inputs| - 1;
      BundleSize(p, cfg, inputs[..n]) + (if inputs[n].uop.isLastPiece then 1 else 0)
  }

  /** How many branches have been fetched since fetch last moved on for another reason than a full window. */
  function BundleBranches(p: Pipe, cfg: Config, inputs: seq<Input>): nat
    decreases |inputs|
  {
    if inputs == [] then 0
    else
      var n, r := |inputs| - 1, Run(p, cfg, inputs);
      if |r.window| == cfg.windowSize && !inputs[n].misp then BundleBranches(p, cfg, inputs[..n])
      else if Moved(r) then 0
      else BundleBranches(p, cfg, inputs[..n]) + (if IsBranch(inputs[n].uop) then 1 else 0)
  }

  lemma {:induction false} RunSplits(p: Pipe, cfg: Config, inputs: seq<Input>)
    requires InputsOk(p, cfg, inputs) && inputs != []
    ensures var n := |inputs| - 1;
            var q := Run(p, cfg, inputs[..n]);
            && InputsOk(p, cfg, inputs[..n]) && Run(p, cfg, inputs) == Stepped(q, cfg, inputs[n])
            && inputs[n].icacheCycle >= q.fetchCycle && Admissible(cfg, inputs[n].icacheCycle, inputs[n])
    decreases |inputs|
  {
    hide Stepped;
    hide Admissible;
    if |inputs| > 1 {
      var n := |inputs| - 1;
      assert inputs[1..][..n - 1] == inputs[..n][1..];
      RunSplits(Stepped(p, cfg, inputs[0]), cfg, inputs[1..]);
    } else {
      assert inputs[..0] == [] && inputs[1..] == [];
    }
  }

  /** How the last micro-op of a run moves fetch. */
  ghost predicate MovesExactly(h: LiveHist, cfg: Config, inputs: seq<Input>)
    requires inputs != []
  {
    var n, r := |inputs| - 1, Run(Start(h), cfg, inputs);
    var i, before := inputs[n], inputs[..n];
    var size, branches := BundleSize(Start(h), cfg, before), BundleBranches(Start(h), cfg, before);
    var full := |r.window| == cfg.windowSize;
    && r.window != [] && r.window[0].retire > i.icacheCycle
    && var next := if full then r.window[0].retire
                   else if Completes(cfg, i.uop, size, branches) then i.icacheCycle + 1 else i.icacheCycle;
       r.fetchCycle == if i.misp then Max(next, i.exec) else next
  }

  lemma StepCounts(p: Pipe, cfg: Config, i: Input)
    requires Ready(p, cfg) && FetchOk(p, cfg) && i.icacheCycle >= p.fetchCycle && Admissible(cfg, i.icacheCycle, i)
    ensures FrontAfter(cfg, i.icacheCycle, p.numFetched, p.numFetchedBranch, i, Stepped(p, cfg, i))
    ensures Stepped(p, cfg, i).previousFetchCycle == i.icacheCycle && (i.misp ==> i.exec > i.icacheCycle)
  {
    hide Ready;
    hide Stepped;
    hide FrontAfter;
    hide FetchAhead;
    NextFetch(p, cfg, i);
    StepKeeps(p, cfg, i);
  }

  /** The two counters count what has been fetched since fetch last moved on. */
  lemma {:induction false} CountersCount(h: LiveHist, cfg: Config, inputs: seq<Input>)
    requires cfg.windowSize > 0 && InputsOk(Start(h), cfg, inputs)
    ensures var p := Run(Start(h), cfg, inputs);
            && Ready(p, cfg) && FetchOk(p, cfg)
            && (cfg.fetchWidth > 0 ==> p.numFetched == BundleSize(Start(h), cfg, inputs))
            && (cfg.fetchNumBranch > 0 ==> p.numFetchedBranch == BundleBranches(Start(h), cfg, inputs))
    decreases |inputs|
  {
    hide Ready;
    hide Stepped;
    hide FetchOk;
    hide InputsOk;
    hide IsBranch;
    hide EndsBundle;
    StartReady(h, cfg);
    StartFetches(h, cfg);
    if inputs != [] {
      var n := |inputs| - 1;
      RunSplits(Start(h), cfg, inputs);
      var p := Run(Start(h), cfg, inputs[..n]);
      hide Run;
      CountersCount(h, cfg, inputs[..n]);
      StepCounts(p, cfg, inputs[n]);
      StepKeeps(p, cfg, inputs[n]);
      StepFetches(p, cfg, inputs[n]);
    }
  }

  /**
    After any run, exactly this decides where fetch goes from the cycle of the last micro-op. It stays, unless the
    bundle is complete: then it goes to the next cycle. With a full window it goes to the retirement of the front;
    and a misprediction holds it until the execution if that is later.
  */
  lemma FetchMovesExactly(h: LiveHist, cfg: Config, inputs: seq<Input>)
    requires cfg.windowSize > 0 && InputsOk(Start(h), cfg, inputs) && inputs != []
    ensures MovesExactly(h, cfg, inputs)
  {
    hide Ready;
    hide Stepped;
    hide FetchOk;
    hide InputsOk;
    hide IsBranch;
    hide EndsBundle;
    hide BundleSize;
    hide BundleBranches;
    var n := |inputs| - 1;
    RunSplits(Start(h), cfg, inputs);
    var p := Run(Start(h), cfg, inputs[..n]);
    hide Run;
    CountersCount(h, cfg, inputs[..n]);
    StepCounts(p, cfg, inputs[n]);
  }

  // ---------------------------------------------------------------- what a run records

  /** The window entry of a micro-op: its own cycles, and the direction that was predicted for it. */
  ghost predicate Recorded(cfg: Config, op: Op, i: Input) {
    && op.uop == i.uop && op.piece == i.piece && op.misp == i.misp
    && op.fetch == i.icacheCycle && op.decode == i.icacheCycle + cfg.dqLatency
    && op.agen == i.agen && op.exec == i.exec
    && (i.uop.cls == CondBranch ==> (op.predTaken == i.uop.isTaken <==> !i.misp))
    && (i.uop.cls != CondBranch ==> (op.predTaken <==> IsBranch(i.uop)))
  }

  lemma {:induction false} RunRecords(p: Pipe, cfg: Config, inputs: seq<Input>)
    requires Ready(p, cfg) && InputsOk(p, cfg, inputs)
    ensures var ops := Run(p, cfg, inputs).ops;
            && |ops| == |p.ops| + |inputs| && p.ops <= ops
            && forall k :: 0 <= k < |inputs| ==> Recorded(cfg, ops[|p.ops| + k], inputs[k])
    decreases |inputs|
  {
    hide Ready;
    hide Stepped;
    hide CaughtUp;
    hide Fetched;
    if inputs != [] {
      var i, r := inputs[0], Stepped(p, cfg, inputs[0]);
      StepKeeps(p, cfg, i);
      FrontKept(p, cfg, i.icacheCycle);
      assert Recorded(cfg, r.ops[|p.ops|], i);
      RunRecords(r, cfg, inputs[1..]);
      var ops := Run(p, cfg, inputs).ops;
      hide Recorded;
      forall k | 0 <= k < |inputs|
        ensures Recorded(cfg, ops[|p.ops| + k], inputs[k])
      {
        if k > 0 {
          assert Recorded(cfg, ops[|r.ops| + (k - 1)], inputs[1..][k - 1]);
        }
      }
    }
  }
}
