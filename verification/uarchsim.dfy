/**
  The simulator object: `step` and the evaluation of one cycle, in place, with the assertions of
  `step` and of the four evaluation loops proved. The pipeline it drives is the state machine of the module Pipelines.
*/
module UArchSims {
  import PipelineRuns
  import StridePrefetchers
  import opened Admission
  import opened BackRuns
  import opened Backends
  import opened CacheRuns
  import opened Common
  import opened Dataflow
  import opened ExecutionRules
  import opened MemorySystems
  import opened MicroOps
  import opened PipelineCycles
  import opened PipelineInvariants
  import opened PipelineSteps
  import opened Pipelines
  import opened ResourceSchedules
  import opened TageHistories

  const NO_PIECE: nat := 0xff
  const PIECES: nat := 16

  /** What the simulator asserts of a branch in the trace: unconditional ones are taken, and taken ones jump. */
  predicate BranchOk(cfg: Config, u: MicroOp) {
    && (u.cls.IsBr() && !u.cls.CondBranch? ==> u.isTaken)
    && (cfg.stopAtTaken && u.isTaken ==> u.cls.IsBr() && (u.cls.CondBranch? ==> u.nextPc != u.pc + 4))
  }

  predicate TraceOk(cfg: Config, u: MicroOp) {
    WellFormed(u) && BranchOk(cfg, u)
  }

  /** The number of the next piece, and what is remembered of it afterwards. */
  function NextPiece(piece: nat): nat {
    if piece == NO_PIECE then 0 else piece + 1
  }

  function PieceAfter(piece: nat, u: MicroOp): nat {
    if u.isLastPiece then NO_PIECE else NextPiece(piece)
  }

  /** No instruction has more than sixteen pieces. */
  ghost predicate PiecesFit(trace: seq<TraceOp>, piece: nat) {
    trace == [] || (NextPiece(piece) < PIECES && PiecesFit(trace[1..], PieceAfter(piece, trace[0].uop)))
  }

  /** Where a waiting micro-op is in the window. */
  lemma Located(p: Pipe, q: seq<Item>, s: Stage, k: nat)
    requires StructureOk(p) && QueueOk(q, s, p.ops, p.log) && s != Commit && k < |q|
    ensures q[k].seqNo < |p.ops|
    ensures exists w :: 0 <= w < |p.window| && p.window[w] == p.ops[q[k].seqNo] && p.window[w].seqNo == q[k].seqNo
    ensures p.ops[q[k].seqNo].InQueue(s) == q[k] && p.ops[q[k].seqNo].Passes(s)
  {
  }

  lemma WindowAscends(p: Pipe)
    requires StructureOk(p)
    ensures forall v, w :: 0 <= v < w < |p.window| ==> p.window[v].seqNo < p.window[w].seqNo
    ensures forall w :: 0 <= w < |p.window| ==> p.window[w].seqNo < |p.ops| && p.window[w] == p.ops[p.window[w].seqNo]
  {
    hide OpOk;
    hide EventOk;
    hide QueueOk;
    hide CheckpointsOk;
    var c := |p.ops| - |p.window|;
    assert forall w :: 0 <= w < |p.window| ==> p.window[w] == p.ops[c + w] && p.ops[c + w].seqNo == c + w;
  }

  lemma CyclesInOrder(p: Pipe, i: nat)
    requires StructureOk(p) && i < |p.ops|
    ensures p.ops[i].uop.cls.IsMem() ==> p.ops[i].decode < p.ops[i].agen <= p.ops[i].exec
    ensures p.ops[i].decode <= p.ops[i].exec <= p.ops[i].retire
  {
  }

  /** A conditional branch about to be resolved has its checkpoint. */
  lemma CheckpointHeld(p: Pipe, k: nat)
    requires StructureOk(p) && k < |p.eq|
    ensures p.eq[k].seqNo < |p.ops|
    ensures p.ops[p.eq[k].seqNo].Conditional() ==> p.ops[p.eq[k].seqNo].Key() in p.checkpoints
  {
  }

  /** What `step` asserts once a micro-op is in the window. */
  lemma EntersWindow(p: Pipe, cfg: Config, i: Input)
    requires AtFetch(p, cfg) && Admissible(cfg, p.fetchCycle, i)
    ensures var d := Dispatched(p, NewOp(p, cfg, i));
            && 0 < |d.window| <= cfg.windowSize && |d.aq| <= cfg.windowSize
            && d.window[0].retire > p.fetchCycle
  {
    QueueFits(p, p.aq, Agen);
    PipelineRuns.DispatchedTimely(p, cfg, i);
  }

  /** A micro-op of the trace, with how its prediction turns out. */
  datatype TraceOp = TraceOp(uop: MicroOp, misp: bool)

  /** The last piece number of a run, until its instruction ends. */
  ghost function PieceLeft(inputs: seq<Input>, piece: nat): nat {
    if inputs == [] then piece
    else
      var last := inputs[|inputs| - 1];
      if last.uop.isLastPiece then NO_PIECE else last.piece
  }

  /** The inputs of the pipeline are the micro-ops of the trace, with the pieces of an instruction counted from 0. */
  ghost predicate FollowsTrace(inputs: seq<Input>, trace: seq<TraceOp>, piece: nat) {
    && |inputs| == |trace|
    && forall k :: 0 <= k < |inputs| ==>
         && inputs[k].uop == trace[k].uop && inputs[k].misp == trace[k].misp
         && inputs[k].piece == NextPiece(PieceLeft(inputs[..k], piece))
  }

  /** The pieces of an instruction are numbered from 0 upwards. */
  lemma PiecesInOrder(inputs: seq<Input>, trace: seq<TraceOp>, k: nat)
    requires FollowsTrace(inputs, trace, NO_PIECE) && k < |trace|
    requires forall j :: 0 <= j < |trace| ==> inputs[j].piece < PIECES
    ensures inputs[k].piece == if k == 0 || trace[k - 1].uop.isLastPiece then 0 else inputs[k - 1].piece + 1
  {
    assert inputs[k].piece == NextPiece(PieceLeft(inputs[..k], NO_PIECE));
    if k > 0 {
      assert inputs[..k][|inputs[..k]| - 1] == inputs[k - 1];
    }
  }

  lemma NothingFollowed(trace: seq<TraceOp>, piece: nat)
    ensures FollowsTrace([], trace[..0], piece) && PieceLeft([], piece) == piece
  {
  }

  lemma FollowsExtends(inputs: seq<Input>, trace: seq<TraceOp>, n: nat, piece: nat, i: Input)
    requires n < |trace| && FollowsTrace(inputs, trace[..n], piece)
    requires i.uop == trace[n].uop && i.misp == trace[n].misp && i.piece == NextPiece(PieceLeft(inputs, piece))
    ensures FollowsTrace(inputs + [i], trace[..n + 1], piece)
    ensures PieceLeft(inputs + [i], piece) == PieceAfter(PieceLeft(inputs, piece), i.uop)
  {
    forall k | 0 <= k <= n
      ensures (inputs + [i])[..k] == inputs[..k]
    {
    }
    assert (inputs + [i])[..n] == inputs;
  }

  lemma NothingRun(m: Setup, p: Pipe, cfg: Config, b: BackEnd)
    ensures PipelineRuns.InputsOk(p, cfg, []) && PipelineRuns.Run(p, cfg, []) == p
    ensures BackRun(m, cfg, p, b, [], []) && After(b, []) == b
  {
  }

  class Simulator {
    const cfg: Config
    const backend: Backend
    var window: seq<Op>
    var decodeQueue: seq<Item>
    var agenQueue: seq<Item>
    var execQueue: seq<Item>
    var checkpoints: map<nat, LiveHist>
    var hist: LiveHist
    var fetchCycle: nat
    var previousFetchCycle: nat
    var numFetched: nat
    var numFetchedBranch: nat
    var numUop: nat
    var piece: nat        // of the last micro-op, until its instruction ends
    ghost var ops: seq<Op>
    ghost var log: seq<Event>

    ghost function State(): Pipe
      reads this
    {
      Pipe(ops, window, decodeQueue, agenQueue, execQueue, log, checkpoints, hist,
           fetchCycle, previousFetchCycle, numFetched, numFetchedBranch)
    }

    /** The registers hold what the program so far makes them, and it has run in dataflow order. */
    ghost predicate InDataflow()
      reads this`ops, backend.registers
    {
      && ProgramOk(ops)
      && backend.registers[..] == Registers(ops)
      && InDataflowOrder(backend.k, ops)
    }

    /** The latencies that the pipeline's order depends on. */
    ghost predicate LatenciesOk()
    {
      cfg.dqLatency <= backend.k.fill && backend.k.TakesTime()
    }

    /** The pipeline's invariant, and a back end that is not asked about the past. */
    ghost predicate Valid()
      reads this, backend, backend.ldst, backend.alu, backend.Footprint()
    {
      && Ready(State(), cfg) && numUop == |ops|
      && backend.Valid() && this !in backend.Footprint()
      && backend.ldst.baseCycle <= fetchCycle
      && InDataflow() && LatenciesOk()
    }

    constructor (cfg: Config, backend: Backend, h: LiveHist)
      requires cfg.windowSize > 0 && cfg.dqLatency <= backend.k.fill && backend.k.TakesTime()
      requires backend.Valid() && backend.ldst.baseCycle == 0 && backend.registers[..] == seq(RFSIZE, i => 0)
      ensures Valid() && this.cfg == cfg && this.backend == backend && State() == Start(h) && piece == NO_PIECE
    {
      hide Ready;
      hide ResourceSchedule.Valid;
      hide StridePrefetchers.StridePrefetcher.Valid;
      hide MemorySystem.Valid;
      hide MemorySystem.Sys;
      hide Latency;
      hide QueuedSince;
      this.cfg, this.backend := cfg, backend;
      window, decodeQueue, agenQueue, execQueue, checkpoints, hist := [], [], [], [], map[], h;
      fetchCycle, previousFetchCycle, numFetched, numFetchedBranch, numUop, piece := 0, 0, 0, 0, 0, NO_PIECE;
      ops, log := [], [];
      new;
      PipelineRuns.StartReady(h, cfg);
    }

    /** `std::lower_bound` by sequence number. */
    method LocateEntry(seqNo: nat, piece: nat) returns (w: nat)
      requires forall v, w :: 0 <= v < w < |window| ==> window[v].seqNo < window[w].seqNo
      requires exists w :: 0 <= w < |window| && window[w].seqNo == seqNo && window[w].piece == piece
      ensures w < |window| && window[w].seqNo == seqNo && window[w].piece == piece
    {
      ghost var at :| 0 <= at < |window| && window[at].seqNo == seqNo && window[at].piece == piece;
      var hi := |window|;
      w := 0;
      while w < hi
        invariant 0 <= w <= at <= hi <= |window|
      {
        var mid := (w + hi) / 2;
        assert mid < at ==> window[mid].seqNo < seqNo;
        if window[mid].seqNo < seqNo {
          w := mid + 1;
        } else {
          hi := mid;
        }
      }
    }

    ghost function QueueOf(s: Stage): seq<Item>
      reads this
    {
      match s case Decode => decodeQueue case Agen => agenQueue case _ => execQueue
    }

    /** The lookup of a waiting micro-op succeeds, and finds what was recorded when it was fetched. */
    lemma Waiting(s: Stage, k: nat)
      requires StructureOk(State()) && s != Commit && k < |QueueOf(s)|
      ensures forall v, w :: 0 <= v < w < |window| ==> window[v].seqNo < window[w].seqNo
      ensures var item := QueueOf(s)[k];
              && item.seqNo < |ops|
              && (exists w :: 0 <= w < |window| && window[w].seqNo == item.seqNo && window[w].piece == item.piece)
              && (forall w :: 0 <= w < |window| && window[w].seqNo == item.seqNo ==> window[w] == ops[item.seqNo])
              && ops[item.seqNo].InQueue(s) == item && ops[item.seqNo].Passes(s)
    {
      Located(State(), QueueOf(s), s, k);
      WindowAscends(State());
    }

    // -------------------------------------------------------------- one cycle

    method EvalDecode(t: nat)
      requires StructureOk(State()) && Timely(State(), t, t, t, t)
      modifies this`decodeQueue, this`log
      ensures State() == Pipelines.EvalDecode(old(State()), t)
    {
      hide StructureOk;
      var processing := decodeQueue != [];
      while processing
        invariant processing ==> decodeQueue != []
        invariant StructureOk(State()) && Timely(State(), t, t, t, t)
        invariant Pipelines.EvalDecode(old(State()), t)
                  == if processing then Pipelines.EvalDecode(State(), t) else State()
        decreases |decodeQueue|, processing
      {
        var item := decodeQueue[0];
        assert t <= item.cycle;
        if item.cycle == t {
          Waiting(Decode, 0);
          var w := LocateEntry(item.seqNo, item.piece);
          assert window[w].decode == item.cycle;
          DecodeOne(State(), t);
          log := log + [Notify(Decode, window[w].seqNo, t)];
          decodeQueue := decodeQueue[1..];
          processing := decodeQueue != [];
        } else {
          processing := false;
        }
      }
    }

    method EvalAq(t: nat)
      requires StructureOk(State()) && Timely(State(), t + 1, t, t, t)
      modifies this`agenQueue, this`log
      ensures State() == EvalAgen(old(State()), t, 0)
    {
      hide StructureOk;
      var k := 0;
      while k < |agenQueue|
        invariant k <= |agenQueue| && StructureOk(State()) && Timely(State(), t + 1, t, t, t)
        invariant EvalAgen(old(State()), t, 0) == EvalAgen(State(), t, k)
        decreases |agenQueue| - k
      {
        var item := agenQueue[k];
        assert t <= item.cycle;
        if item.cycle == t {
          Waiting(Agen, k);
          var w := LocateEntry(item.seqNo, item.piece);
          assert window[w].uop.cls.IsMem();
          CyclesInOrder(State(), window[w].seqNo);
          assert t > window[w].decode && t <= window[w].exec;
          AgenOne(State(), t, k);
          assert forall l :: 0 <= l < |Removed(agenQueue, k)| ==>
                 Removed(agenQueue, k)[l] == agenQueue[if l < k then l else l + 1];
          log := log + [Notify(Agen, window[w].seqNo, t)];
          agenQueue := Removed(agenQueue, k);
        } else {
          k := k + 1;
        }
      }
    }

    /** The execute notification: a conditional branch looks its checkpoint up, trains with it and drops it. */
    method NotifyExecuteResolve(op: Op, t: nat)
      requires op.seqNo < |ops| && ops[op.seqNo] == op
      requires op.Conditional() ==> op.Key() in checkpoints
      modifies this`log, this`checkpoints
      ensures State() == Resolved(old(State()), Item(op.seqNo, op.piece, t), t)
    {
      log := log + [Notify(Execute, op.seqNo, t)];
      if op.Conditional() {
        log := log + [Train(op.seqNo, checkpoints[op.Key()])];
        checkpoints := checkpoints - {op.Key()};
      }
    }

    method ResolveEntry(t: nat, k: nat)
      requires StructureOk(State()) && AllAsked(log, ops) && Timely(State(), t + 1, t + 1, t, t)
      requires k < |execQueue| && execQueue[k].cycle == t
      modifies this`execQueue, this`log, this`checkpoints
      ensures State() == Resolved(old(State()), old(execQueue[k]), t).(eq := Removed(old(execQueue), k))
      ensures StructureOk(State()) && AllAsked(log, ops) && Timely(State(), t + 1, t + 1, t, t)
    {
      hide StructureOk;
      hide AllAsked;
      Waiting(Execute, k);
      var w := LocateEntry(execQueue[k].seqNo, execQueue[k].piece);
      assert window[w].exec == execQueue[k].cycle;
      CheckpointHeld(State(), k);
      ExecOne(State(), t, k);
      AskedStill(log, Resolved(State(), execQueue[k], t).log, ops);
      NotifyExecuteResolve(window[w], t);
      assert forall l :: 0 <= l < |Removed(execQueue, k)| ==>
             Removed(execQueue, k)[l] == execQueue[if l < k then l else l + 1];
      execQueue := Removed(execQueue, k);
    }

    method EvalExecute(t: nat)
      requires StructureOk(State()) && AllAsked(log, ops) && Timely(State(), t + 1, t + 1, t, t)
      modifies this`execQueue, this`log, this`checkpoints
      ensures State() == EvalExec(old(State()), t, 0)
    {
      hide StructureOk;
      hide AllAsked;
      var k := 0;
      while k < |execQueue|
        invariant k <= |execQueue| && StructureOk(State()) && AllAsked(log, ops) && Timely(State(), t + 1, t + 1, t, t)
        invariant EvalExec(old(State()), t, 0) == EvalExec(State(), t, k)
        decreases |execQueue| - k
      {
        var item := execQueue[k];
        assert t <= item.cycle;
        if item.cycle == t {
          ResolveEntry(t, k);
        } else {
          k := k + 1;
        }
      }
    }

    method EvalRetirement(t: nat)
      modifies this`window, this`log
      ensures State() == EvalRetire(old(State()), t)
    {
      while window != [] && t >= window[0].retire
        invariant EvalRetire(old(State()), t) == EvalRetire(State(), t)
        decreases |window|
      {
        var op := window[0];
        window := window[1..];
        log := log + [Notify(Commit, op.seqNo, t)];
      }
    }

    /** The two catch-up loops of `step`. */
    method CatchUp(from: nat, upto: nat)
      requires StructureOk(State()) && AllAsked(log, ops) && Timely(State(), from, from, from, from) && from <= upto
      modifies this`window, this`decodeQueue, this`agenQueue, this`execQueue, this`log, this`checkpoints
      ensures State() == Advanced(old(State()), from, upto)
    {
      hide StructureOk;
      hide AllAsked;
      var c := from;
      while c <= upto
        invariant from <= c <= upto + 1
        invariant StructureOk(State()) && AllAsked(log, ops) && Timely(State(), c, c, c, c)
        invariant Advanced(old(State()), from, upto) == Advanced(State(), c, upto)
      {
        ghost var p := State();
        CycleKeeps(p, c);
        DecodeCycle(p, c);
        EvalDecode(c);
        AgenCycle(State(), c, 0);
        EvalAq(c);
        AskedStill(p.log, log, ops);
        EvalExecute(c);
        EvalRetirement(c);
        AskedStill(p.log, log, ops);
        c := c + 1;
      }
    }

    // -------------------------------------------------------------- one step

    /** A window entry; it retires no earlier than the youngest one in the window. */
    method NewEntry(u: MicroOp, piece: nat, agen: nat, exec: nat, misp: bool) returns (op: Op)
      requires numUop == |ops| && BranchOk(cfg, u)
      ensures op == NewOp(State(), cfg, Input(u, piece, fetchCycle, agen, exec, misp))
    {
      var last := if window == [] then 0 else window[|window| - 1].retire;
      var predicted := false;
      if u.cls.CondBranch? {
        predicted := if misp then !u.isTaken else u.isTaken;
      } else if u.cls.IsBr() {
        predicted := true;
        assert u.isTaken;
      }
      var decode := fetchCycle + cfg.dqLatency;
      op := Op(numUop, piece, u, fetchCycle, decode, agen, exec, Max(exec, last), predicted, misp, hist);
    }

    method Enqueue(op: Op)
      modifies this`decodeQueue, this`agenQueue, this`execQueue
      ensures decodeQueue == old(decodeQueue) + [op.InQueue(Decode)]
      ensures agenQueue == if op.uop.cls.IsMem() then old(agenQueue) + [op.InQueue(Agen)] else old(agenQueue)
      ensures execQueue == old(execQueue) + [op.InQueue(Execute)]
    {
      decodeQueue := decodeQueue + [op.InQueue(Decode)];
      if op.uop.cls.IsMem() {
        agenQueue := agenQueue + [op.InQueue(Agen)];
      }
      execQueue := execQueue + [op.InQueue(Execute)];
    }

    method Dispatch(op: Op)
      requires numUop == |ops|
      modifies this`ops, this`window, this`decodeQueue, this`agenQueue, this`execQueue, this`numUop
      modifies this`previousFetchCycle
      ensures State() == Dispatched(old(State()), op) && numUop == |ops|
    {
      hide Op.InQueue;
      hide InstClass.IsMem;
      Enqueue(op);
      ops := ops + [op];
      numUop := numUop + 1;
      window := window + [op];
      previousFetchCycle := fetchCycle;
    }

    /** The constraints on a fetch bundle. */
    method CountBundle(u: MicroOp) returns (stop: bool)
      requires BranchOk(cfg, u)
      modifies this`numFetched, this`numFetchedBranch
      ensures numFetched == old(numFetched) + (if cfg.fetchWidth > 0 && u.isLastPiece then 1 else 0)
      ensures numFetchedBranch == old(numFetchedBranch) + (if cfg.fetchNumBranch > 0 && u.cls.IsBr() then 1 else 0)
      ensures stop <==>
                || (cfg.fetchWidth > 0 && numFetched == cfg.fetchWidth)
                || (cfg.fetchNumBranch > 0 && u.cls.IsBr() && numFetchedBranch == cfg.fetchNumBranch)
                || (cfg.stopAtIndirect && u.cls.IsUncondInd())
                || (cfg.stopAtTaken && u.isTaken)
    {
      stop := false;
      if cfg.fetchWidth > 0 {
        numFetched := numFetched + if u.isLastPiece then 1 else 0;
        stop := numFetched == cfg.fetchWidth;
      }
      if cfg.fetchNumBranch > 0 && u.cls.IsBr() {
        numFetchedBranch := numFetchedBranch + 1;
        if numFetchedBranch == cfg.fetchNumBranch {
          stop := true;
        }
      }
      if cfg.stopAtIndirect && u.cls.IsUncondInd() {
        stop := true;
      }
      if cfg.stopAtTaken && u.isTaken {
        assert u.cls.IsBr() && (u.cls.CondBranch? ==> u.nextPc != u.pc + 4);
        stop := true;
      }
    }

    /** The next fetch cycle: limited by the bundle, or by a full window. */
    method Bundle(u: MicroOp)
      requires window != [] && BranchOk(cfg, u)
      modifies this`fetchCycle, this`numFetched, this`numFetchedBranch
      ensures State() == Bundled(old(State()), cfg, u)
    {
      hide InstClass.IsBr;
      hide InstClass.IsUncondInd;
      if |window| == cfg.windowSize {
        if fetchCycle < window[0].retire {
          numFetched := 0;
          fetchCycle := window[0].retire;
        }
      } else {
        var stop := CountBundle(u);
        if stop {
          numFetched, numFetchedBranch := 0, 0;
          fetchCycle := fetchCycle + 1;
        }
      }
    }

    /** `BP.predict`: the checkpointed prediction, then the update of the history. */
    method Predict(op: Op)
      modifies this`log, this`checkpoints, this`hist
      ensures State() == Predicted(old(State()), op)
    {
      hide AfterBranch;
      if op.Conditional() {
        log := log + [Event.Predict(op.seqNo)];
        if op.Key() !in checkpoints {
          checkpoints := checkpoints[op.Key() := hist];
        }
      }
      if op.uop.cls.IsBr() {
        log := log + [SpecUpdate(op.seqNo)];
        var u := op.uop;
        var taken := true;
        if op.Conditional() {
          taken := u.nextPc != u.pc + 4;
        }
        hist := AfterBranch(hist, Branch(u.pc, u.cls.BrType(), taken, u.nextPc));
      }
    }

    /** A misprediction moves fetch to the cycle in which it is resolved. */
    method Redirect(op: Op)
      modifies this`fetchCycle, this`numFetched, this`numFetchedBranch
      ensures State() == Redirected(old(State()), op)
    {
      if op.misp {
        numFetched, numFetchedBranch := 0, 0;
        fetchCycle := Max(fetchCycle, op.exec);
      }
    }

    /** Evaluates the cycles that fetch has skipped since the last micro-op. */
    method CatchUpToFetch()
      requires Ready(State(), cfg)
      modifies this`window, this`decodeQueue, this`agenQueue, this`execQueue, this`log, this`checkpoints
      ensures State() == CaughtUp(old(State())) && AtFetch(State(), cfg)
    {
      hide StructureOk;
      hide Advanced;
      hide AllAsked;
      hide HeardBy;
      assert previousFetchCycle <= fetchCycle;
      PipelineRuns.WindowHasRoom(State(), cfg);
      CaughtUpKeeps(State(), cfg);
      if previousFetchCycle != fetchCycle {
        CatchUp(previousFetchCycle, fetchCycle);
      }
    }

    /** Moves fetch to where the instruction cache delivers the micro-op. */
    method MoveFetch(arrived: nat)
      requires AtFetch(State(), cfg) && arrived >= fetchCycle
      modifies this`window, this`decodeQueue, this`agenQueue, this`execQueue, this`log, this`checkpoints,
               this`fetchCycle
      ensures State() == Fetched(old(State()), arrived) && AtFetch(State(), cfg) && fetchCycle == arrived
    {
      hide StructureOk;
      hide Advanced;
      hide AllAsked;
      hide HeardBy;
      hide AllResolved;
      FetchedKeeps(State(), cfg, arrived);
      if arrived != fetchCycle {
        CatchUp(fetchCycle, arrived);
        fetchCycle := arrived;
      }
    }

    /** Window, queues, bundle and prediction for a micro-op whose cycles are known. */
    method Enter(u: MicroOp, piece: nat, agen: nat, exec: nat, misp: bool, ghost i: Input)
      requires i == Input(u, piece, fetchCycle, agen, exec, misp) && BranchOk(cfg, u)
      requires AtFetch(State(), cfg) && Admissible(cfg, fetchCycle, i) && numUop == |ops|
      modifies this`ops, this`window, this`decodeQueue, this`agenQueue, this`execQueue, this`numUop
      modifies this`previousFetchCycle, this`fetchCycle, this`numFetched, this`numFetchedBranch
      modifies this`log, this`checkpoints, this`hist
      ensures State() == Entered(old(State()), cfg, i) && numUop == |ops|
      ensures Ready(State(), cfg) && fetchCycle >= old(fetchCycle)
      ensures ops == old(ops) + [NewOp(old(State()), cfg, i)]
    {
      hide Bundled;
      hide Predicted;
      hide NewOp;
      hide Dispatched;
      hide Redirected;
      hide AtFetch;
      hide Ready;
      hide Admissible;
      hide BranchOk;
      ghost var predictCycle := fetchCycle;
      PipelineRuns.EnterKeeps(State(), cfg, i);
      EntersWindow(State(), cfg, i);
      var op := NewEntry(u, piece, agen, exec, misp);
      Dispatch(op);
      assert |window| <= cfg.windowSize && |agenQueue| <= cfg.windowSize;
      assert window[0].retire > fetchCycle;
      Bundle(u);
      Predict(op);
      Redirect(op);
      assert misp ==> fetchCycle > predictCycle;
      assert Ready(State(), cfg);
    }

    /** The cycles of a micro-op are what the pipeline may be given. */
    method CyclesOf(u: MicroOp, piece: nat, misp: bool) returns (agen: nat, exec: nat, ghost i: Input, ghost t: Trace)
      requires backend.Valid() && this !in backend.Footprint() && WellFormed(u) && piece < PIECES && LatenciesOk()
      requires backend.ldst.baseCycle <= fetchCycle && previousFetchCycle <= fetchCycle
      modifies backend.Footprint()
      ensures backend.Valid() && backend.ldst.baseCycle == old(backend.ldst.baseCycle)
      ensures fresh(backend.Footprint() - old(backend.Footprint()))
      ensures i == Input(u, piece, fetchCycle, agen, exec, misp) && Admissible(cfg, fetchCycle, i)
      ensures Executed(backend.Lanes(), u, fetchCycle, previousFetchCycle, LastRetire(State()), old(backend.Value()),
                       agen, exec, t, backend.Value())
    {
      hide Backend.Valid;
      hide Backend.Value;
      hide WellFormed;
      hide Executed;
      hide Wrote;
      hide WaitsForAll;
      hide ReadyAsMeant;
      hide CyclesFrom;
      hide Admissible;
      hide InstClass.IsMem;
      hide Timing.TakesTime;
      ghost var before := backend.Value();
      var lastRetire := if window == [] then 0 else window[|window| - 1].retire;
      agen, exec, t := backend.Execute(u, fetchCycle, previousFetchCycle, lastRetire);
      i := Input(u, piece, fetchCycle, agen, exec, misp);
      ExecutedTimes(backend.Lanes(), u, fetchCycle, previousFetchCycle, lastRetire, before, agen, exec, t,
                    backend.Value());
      CyclesFit(backend.k, cfg, fetchCycle, i, t.start);
    }

    /** The instruction cache delivers the micro-op, and fetch moves to where it does. */
    method FetchAt(pc: nat)
      requires AtFetch(State(), cfg) && backend.Valid() && this !in backend.Footprint()
      modifies this`window, this`decodeQueue, this`agenQueue, this`execQueue, this`log, this`checkpoints
      modifies this`fetchCycle, backend.Footprint()
      ensures State() == Fetched(old(State()), fetchCycle) && AtFetch(State(), cfg)
      ensures fetchCycle == Arrival(backend.k, old(backend.Value()).sys, old(fetchCycle), pc) >= old(fetchCycle)
      ensures backend.Valid() && backend.Footprint() == old(backend.Footprint())
      ensures backend.Value() == AfterFetch(backend.k, old(backend.Value()), old(fetchCycle), pc)
    {
      hide AtFetch;
      hide Fetched;
      hide Avail;
      hide RunSystem;
      hide Backend.Valid;
      hide Backend.Value;
      var arrived, _ := backend.Fetch(pc, fetchCycle);
      MoveFetch(arrived);
    }

    /** Everything up to the cycle in which the micro-op is fetched. */
    method ReachFetch(pc: nat)
      requires Valid()
      modifies this`window, this`decodeQueue, this`agenQueue, this`execQueue, this`log, this`checkpoints
      modifies this`fetchCycle, backend.Footprint()
      ensures State() == Fetched(CaughtUp(old(State())), fetchCycle) && AtFetch(State(), cfg)
      ensures fetchCycle == Arrival(backend.k, old(backend.Value()).sys, old(fetchCycle), pc) >= old(fetchCycle)
      ensures backend.Valid() && backend.Footprint() == old(backend.Footprint()) && InDataflow()
      ensures backend.Value() == AfterFetch(backend.k, old(backend.Value()), old(fetchCycle), pc)
      ensures previousFetchCycle == old(previousFetchCycle) <= fetchCycle
      ensures backend.ldst.baseCycle == old(backend.ldst.baseCycle) <= fetchCycle
    {
      hide Ready;
      hide AtFetch;
      hide CaughtUp;
      hide Fetched;
      hide Arrival;
      hide RunSystem;
      hide Backend.Valid;
      hide Backend.Value;
      hide ProgramOk;
      hide Registers;
      hide InDataflowOrder;
      PipelineRuns.FetchNotBehind(State(), cfg);
      ghost var b := backend.Value();
      CatchUpToFetch();
      assert backend.Value() == b;
      FetchAt(pc);
    }

    /** The micro-op takes its place in the program, after the producers of its sources. */
    method EnterProgram(u: MicroOp, piece: nat, agen: nat, exec: nat, misp: bool, ghost i: Input, ghost start: nat)
      requires i == Input(u, piece, fetchCycle, agen, exec, misp) && TraceOk(cfg, u)
      requires AtFetch(State(), cfg) && Admissible(cfg, fetchCycle, i) && numUop == |ops|
      requires ProgramOk(ops) && InDataflowOrder(backend.k, ops)
      requires backend.registers[..] == Wrote(Registers(ops), u, exec)
      requires WaitsForAll(u) ==> ReadyAsMeant(Registers(ops), u, fetchCycle + backend.k.fill) <= start
      requires start + LeastLatency(backend.k, u) <= exec
      modifies this`ops, this`window, this`decodeQueue, this`agenQueue, this`execQueue, this`numUop
      modifies this`previousFetchCycle, this`fetchCycle, this`numFetched, this`numFetchedBranch
      modifies this`log, this`checkpoints, this`hist
      ensures State() == Entered(old(State()), cfg, i) && numUop == |ops|
      ensures Ready(State(), cfg) && fetchCycle >= old(fetchCycle) && InDataflow()
    {
      hide Ready;
      hide AtFetch;
      hide Entered;
      hide WellFormed;
      hide BranchOk;
      hide Admissible;
      hide Wrote;
      hide WaitsForAll;
      hide LeastLatency;
      hide ReadyAsMeant;
      hide ProgramOk;
      hide InDataflowOrder;
      hide Registers;
      ghost var op := NewOp(State(), cfg, i);
      DataflowExtends(backend.k, ops, op, start, fetchCycle + backend.k.fill);
      Enter(u, piece, agen, exec, misp, i);
    }

    /** The back end computes the cycles of a fetched micro-op, and the pipeline takes it. */
    method ExecuteAndEnter(u: MicroOp, piece: nat, misp: bool) returns (ghost i: Input, ghost t: Trace)
      requires AtFetch(State(), cfg) && numUop == |ops| && TraceOk(cfg, u) && piece < PIECES
      requires backend.Valid() && this !in backend.Footprint() && InDataflow() && LatenciesOk()
      requires backend.ldst.baseCycle <= fetchCycle && previousFetchCycle <= fetchCycle
      modifies this`ops, this`window, this`decodeQueue, this`agenQueue, this`execQueue, this`numUop
      modifies this`previousFetchCycle, this`fetchCycle, this`numFetched, this`numFetchedBranch
      modifies this`log, this`checkpoints, this`hist, backend.Footprint()
      ensures Ready(State(), cfg) && numUop == |ops| && backend.Valid() && InDataflow()
      ensures fresh(backend.Footprint() - old(backend.Footprint()))
      ensures i == Input(u, piece, old(fetchCycle), i.agen, i.exec, misp)
      ensures Admissible(cfg, old(fetchCycle), i) && State() == Entered(old(State()), cfg, i)
      ensures backend.ldst.baseCycle == old(backend.ldst.baseCycle) && backend.ldst.baseCycle <= fetchCycle
      ensures Executed(backend.Lanes(), u, old(fetchCycle), old(previousFetchCycle), LastRetire(old(State())),
                       old(backend.Value()), i.agen, i.exec, t, backend.Value())
    {
      hide Ready;
      hide AtFetch;
      hide Entered;
      hide WellFormed;
      hide BranchOk;
      hide Executed;
      hide Admissible;
      hide Wrote;
      hide WaitsForAll;
      hide CyclesFrom;
      hide LeastLatency;
      hide ReadyAsMeant;
      hide ProgramOk;
      hide InDataflowOrder;
      hide Registers;
      hide LastRetire;
      hide Backend.Valid;
      hide Backend.Value;
      ghost var p, b := State(), backend.Value();
      var agen, exec;
      agen, exec, i, t := CyclesOf(u, piece, misp);
      assert State() == p;
      ghost var m, after := backend.Lanes(), backend.Value();
      ExecutedTimes(m, u, fetchCycle, previousFetchCycle, LastRetire(p), b, agen, exec, t, after);
      EnterProgram(u, piece, agen, exec, misp, i, t.start);
    }

    /** What follows once the micro-op is fetched. */
    method FinishStep(u: MicroOp, misp: bool) returns (ghost i: Input, ghost s: BackStep)
      requires AtFetch(State(), cfg) && numUop == |ops| && TraceOk(cfg, u) && NextPiece(piece) < PIECES
      requires backend.Valid() && this !in backend.Footprint() && InDataflow() && LatenciesOk()
      requires backend.ldst.baseCycle <= fetchCycle && previousFetchCycle <= fetchCycle
      modifies this, backend.Footprint()
      ensures Valid() && fresh(backend.Footprint() - old(backend.Footprint())) && piece == PieceAfter(old(piece), u)
      ensures i == Input(u, NextPiece(old(piece)), old(fetchCycle), i.agen, i.exec, misp)
      ensures Admissible(cfg, old(fetchCycle), i) && State() == Entered(old(State()), cfg, i)
      ensures Executed(backend.Lanes(), u, old(fetchCycle), old(previousFetchCycle), LastRetire(old(State())),
                       old(backend.Value()), i.agen, i.exec, s.t, s.mid)
      ensures Forgets(backend.Lanes(), s.mid, HorizonAfter(s, fetchCycle), s.after) && backend.Value() == s.after
      ensures old(backend.ldst.baseCycle) <= backend.ldst.baseCycle == HorizonAfter(s, fetchCycle)
    {
      hide Ready;
      hide AtFetch;
      hide Entered;
      hide WellFormed;
      hide BranchOk;
      hide Executed;
      hide Ran;
      hide HorizonOf;
      hide Admissible;
      hide ProgramOk;
      hide Registers;
      hide InDataflowOrder;
      hide LastRetire;
      hide Backend.Valid;
      hide Backend.Value;
      var next := NextPiece(piece);
      ghost var t;
      i, t := ExecuteAndEnter(u, next, misp);
      ghost var mid := backend.Value();
      backend.AdvanceLanes(fetchCycle);
      s := BackStep(t, mid, backend.Value());
      piece := if u.isLastPiece then NO_PIECE else next;
    }

    /**
      One micro-op. The pipeline and the back end take exactly the step of the state machine, side by side, and
      the cycle that the back end gives the micro-op is one the pipeline admits; no lane is asked about a cycle
      that it has forgotten, and the horizon never moves back.
    */
    method Step(u: MicroOp, misp: bool) returns (ghost i: Input, ghost s: BackStep)
      requires Valid() && TraceOk(cfg, u) && NextPiece(piece) < PIECES
      modifies this, backend.Footprint()
      ensures Valid() && fresh(backend.Footprint() - old(backend.Footprint())) && piece == PieceAfter(old(piece), u)
      ensures i.uop == u && i.piece == NextPiece(old(piece)) && i.misp == misp
      ensures i.icacheCycle >= old(fetchCycle) && Admissible(cfg, i.icacheCycle, i)
      ensures State() == Stepped(old(State()), cfg, i)
      ensures Steps(backend.Lanes(), cfg, old(State()), old(backend.Value()), i, s) && backend.Value() == s.after
      ensures old(backend.ldst.baseCycle) <= backend.ldst.baseCycle == HorizonAfter(s, fetchCycle)
    {
      hide Ready;
      hide AtFetch;
      hide Entered;
      hide CaughtUp;
      hide Fetched;
      hide TraceOk;
      hide Arrival;
      hide AfterFetch;
      hide Executed;
      hide Forgets;
      hide HorizonAfter;
      hide Admissible;
      hide InDataflow;
      hide LastRetire;
      hide Backend.Valid;
      hide Backend.Value;
      ReachFetch(u.pc);
      i, s := FinishStep(u, misp);
    }

    /** Any trace, step by step: one admissible run of the pipeline, with the back end's run beside it. */
    method Simulate(trace: seq<TraceOp>) returns (ghost inputs: seq<Input>, ghost steps: seq<BackStep>)
      requires Valid() && PiecesFit(trace, piece) && forall k :: 0 <= k < |trace| ==> TraceOk(cfg, trace[k].uop)
      modifies this, backend.Footprint()
      ensures Valid() && fresh(backend.Footprint() - old(backend.Footprint()))
      ensures FollowsTrace(inputs, trace, old(piece))
      ensures PipelineRuns.InputsOk(old(State()), cfg, inputs)
      ensures State() == PipelineRuns.Run(old(State()), cfg, inputs)
      ensures BackRun(backend.Lanes(), cfg, old(State()), old(backend.Value()), inputs, steps)
      ensures backend.Value() == After(old(backend.Value()), steps)
      ensures Accounted(backend.Lanes(), cfg, old(State()), old(backend.Value()), inputs, steps)
      ensures old(backend.ldst.baseCycle) <= backend.ldst.baseCycle
      ensures InDataflowOrder(backend.k, ops)
    {
      hide Ready;
      hide Stepped;
      hide TraceOk;
      hide Steps;
      hide BackRun;
      hide Accounted;
      hide Admissible;
      hide HorizonAfter;
      hide ProgramOk;
      hide InDataflowOrder;
      hide PipelineRuns.Run;
      hide PipelineRuns.InputsOk;
      hide FollowsTrace;
      hide PieceLeft;
      hide Backend.Valid;
      hide Backend.Value;
      ghost var p, b, m := State(), backend.Value(), backend.Lanes();
      inputs, steps := [], [];
      NothingRun(m, p, cfg, b);
      NothingFollowed(trace, piece);
      assert trace[0..] == trace;
      var n := 0;
      while n < |trace|
        invariant n <= |trace| && Valid() && fresh(backend.Footprint() - old(backend.Footprint()))
        invariant PiecesFit(trace[n..], piece)
        invariant FollowsTrace(inputs, trace[..n], old(piece)) && piece == PieceLeft(inputs, old(piece))
        invariant PipelineRuns.InputsOk(p, cfg, inputs) && State() == PipelineRuns.Run(p, cfg, inputs)
        invariant BackRun(m, cfg, p, b, inputs, steps) && backend.Value() == After(b, steps)
        invariant old(backend.ldst.baseCycle) <= backend.ldst.baseCycle
      {
        assert trace[n..][1..] == trace[n + 1..];
        ghost var i, s := Step(trace[n].uop, trace[n].misp);
        PipelineRuns.RunExtends(p, cfg, inputs, i);
        BackRunExtends(m, cfg, p, b, inputs, steps, i, s);
        FollowsExtends(inputs, trace, n, old(piece), i);
        inputs, steps := inputs + [i], steps + [s];
        n := n + 1;
      }
      assert trace[..n] == trace;
      RunAccounted(m, cfg, p, b, inputs, steps);
    }
  }
}
