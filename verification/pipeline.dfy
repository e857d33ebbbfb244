/**
  The pipeline of the simulator as a state machine: the window, the three event queues, and everything
  it tells the predictor, in order.
*/
module Pipelines {
  import opened Common
  import opened MicroOps
  import opened TageHistories

  datatype Config = Config(windowSize: nat, dqLatency: nat, fetchWidth: nat, fetchNumBranch: nat,
                           stopAtIndirect: bool, stopAtTaken: bool)

  datatype Stage = Decode | Agen | Execute | Commit {
    function Order(): nat {
      match this case Decode => 0 case Agen => 1 case Execute => 2 case Commit => 3
    }
  }

  /** A fetched micro-op; `live` is the history when it was predicted and `misp` how that went. */
  datatype Op = Op(seqNo: nat, piece: nat, uop: MicroOp, fetch: nat, decode: nat, agen: nat, exec: nat, retire: nat,
                   predTaken: bool, misp: bool, live: LiveHist) {
    function At(s: Stage): nat {
      match s case Decode => decode case Agen => agen case Execute => exec case Commit => retire
    }

    predicate Passes(s: Stage) {
      s.Agen? ==> uop.cls.IsMem()
    }

    predicate Conditional() {
      uop.cls.CondBranch?
    }

    function Key(): nat {
      seqNo * 16 + piece % 16
    }

    function Notice(s: Stage): Event {
      Notify(s, seqNo, At(s))
    }

    function InQueue(s: Stage): Item {
      Item(seqNo, piece, At(s))
    }
  }

  /** What the predictor hears: the stage notifications, predictions, history updates, and trainings. */
  datatype Event =
    | Notify(stage: Stage, id: nat, cycle: nat)
    | Predict(id: nat)
    | SpecUpdate(id: nat)
    | Train(id: nat, history: LiveHist)

  datatype Item = Item(seqNo: nat, piece: nat, cycle: nat)

  /** `ops` records everything fetched so far, and `window` the part of it that has not committed. */
  datatype Pipe = Pipe(ops: seq<Op>, window: seq<Op>, dq: seq<Item>, aq: seq<Item>, eq: seq<Item>,
                       log: seq<Event>, checkpoints: map<nat, LiveHist>, hist: LiveHist,
                       fetchCycle: nat, previousFetchCycle: nat, numFetched: nat, numFetchedBranch: nat)

  function Removed<T>(s: seq<T>, k: nat): (r: seq<T>)
    requires k < |s|
    ensures |r| == |s| - 1
  {
    s[..k] + s[k + 1..]
  }

  // ---------------------------------------------------------------- one cycle

  function EvalDecode(p: Pipe, t: nat): Pipe
    decreases |p.dq|
  {
    if p.dq == [] || p.dq[0].cycle != t then p
    else EvalDecode(p.(dq := p.dq[1..], log := p.log + [Notify(Decode, p.dq[0].seqNo, t)]), t)
  }

  function EvalAgen(p: Pipe, t: nat, k: nat): Pipe
    decreases |p.aq| - k
  {
    if k >= |p.aq| then p
    else if p.aq[k].cycle != t then EvalAgen(p, t, k + 1)
    else EvalAgen(p.(aq := Removed(p.aq, k), log := p.log + [Notify(Agen, p.aq[k].seqNo, t)]), t, k)
  }

  /** Resolving a conditional branch trains the predictor with its checkpoint, and drops it. */
  function Resolved(p: Pipe, item: Item, t: nat): Pipe {
    var q := p.(log := p.log + [Notify(Execute, item.seqNo, t)]);
    if item.seqNo < |p.ops| && p.ops[item.seqNo].Conditional() && p.ops[item.seqNo].Key() in p.checkpoints then
      var key := p.ops[item.seqNo].Key();
      q.(log := q.log + [Train(item.seqNo, p.checkpoints[key])], checkpoints := p.checkpoints - {key})
    else q
  }

  function EvalExec(p: Pipe, t: nat, k: nat): Pipe
    decreases |p.eq| - k
  {
    if k >= |p.eq| then p
    else if p.eq[k].cycle != t then EvalExec(p, t, k + 1)
    else EvalExec(Resolved(p, p.eq[k], t).(eq := Removed(p.eq, k)), t, k)
  }

  function EvalRetire(p: Pipe, t: nat): Pipe
    decreases |p.window|
  {
    if p.window == [] || t < p.window[0].retire then p
    else EvalRetire(p.(window := p.window[1..], log := p.log + [Notify(Commit, p.window[0].seqNo, t)]), t)
  }

  function Cycle(p: Pipe, t: nat): Pipe {
    EvalRetire(EvalExec(EvalAgen(EvalDecode(p, t), t, 0), t, 0), t)
  }

  /** The catch-up loops of `step`: every cycle from `from` up to and including `upto`. */
  function Advanced(p: Pipe, from: nat, upto: nat): Pipe
    decreases upto + 1 - from
  {
    if from > upto then p else Advanced(Cycle(p, from), from + 1, upto)
  }

  // ---------------------------------------------------------------- one step

  /** A micro-op with what the rest of the simulator computes for it. */
  datatype Input = Input(uop: MicroOp, piece: nat, icacheCycle: nat, agen: nat, exec: nat, misp: bool)

  function CaughtUp(p: Pipe): Pipe {
    if p.previousFetchCycle != p.fetchCycle then Advanced(p, p.previousFetchCycle, p.fetchCycle) else p
  }

  function Fetched(p: Pipe, icacheCycle: nat): Pipe {
    if icacheCycle != p.fetchCycle then Advanced(p, p.fetchCycle, icacheCycle).(fetchCycle := icacheCycle) else p
  }

  function LastRetire(p: Pipe): nat {
    if p.window == [] then 0 else p.window[|p.window| - 1].retire
  }

  /** The direction recorded in the window for the execute notification. */
  function PredictedTaken(u: MicroOp, misp: bool): bool {
    if u.cls.CondBranch? then u.isTaken != misp else u.cls.IsBr()
  }

  function NewOp(p: Pipe, cfg: Config, i: Input): Op {
    Op(|p.ops|, i.piece, i.uop, p.fetchCycle, p.fetchCycle + cfg.dqLatency, i.agen, i.exec, Max(i.exec, LastRetire(p)),
       PredictedTaken(i.uop, i.misp), i.misp, p.hist)
  }

  function Dispatched(p: Pipe, op: Op): Pipe {
    p.(ops := p.ops + [op],
       window := p.window + [op],
       dq := p.dq + [op.InQueue(Decode)],
       aq := if op.uop.cls.IsMem() then p.aq + [op.InQueue(Agen)] else p.aq,
       eq := p.eq + [op.InQueue(Execute)],
       previousFetchCycle := p.fetchCycle)
  }

  /** The fetch cycle and bundle counters after a micro-op, before any misprediction. */
  function Bundled(p: Pipe, cfg: Config, u: MicroOp): Pipe
    requires p.window != []
  {
    if |p.window| == cfg.windowSize then
      if p.fetchCycle < p.window[0].retire then p.(numFetched := 0, fetchCycle := p.window[0].retire) else p
    else
      var fetched := p.numFetched + (if cfg.fetchWidth > 0 && u.isLastPiece then 1 else 0);
      var branches := p.numFetchedBranch + (if cfg.fetchNumBranch > 0 && u.cls.IsBr() then 1 else 0);
      if (cfg.fetchWidth > 0 && fetched == cfg.fetchWidth)
         || (cfg.fetchNumBranch > 0 && u.cls.IsBr() && branches == cfg.fetchNumBranch)
         || (cfg.stopAtIndirect && u.cls.IsUncondInd())
         || (cfg.stopAtTaken && u.isTaken)
      then p.(numFetched := 0, numFetchedBranch := 0, fetchCycle := p.fetchCycle + 1)
      else p.(numFetched := fetched, numFetchedBranch := branches)
  }

  function BranchOf(u: MicroOp): Branch {
    Branch(u.pc, u.cls.BrType(), if u.cls.CondBranch? then u.nextPc != u.pc + 4 else true, u.nextPc)
  }

  /** `BP.predict`: a conditional branch is checkpointed and predicted, and every branch updates the history. */
  function Predicted(p: Pipe, op: Op): Pipe {
    var u := op.uop;
    var asked := if op.Conditional()
      then p.(log := p.log + [Predict(op.seqNo)],
              checkpoints := if op.Key() in p.checkpoints then p.checkpoints else p.checkpoints[op.Key() := p.hist])
      else p;
    if u.cls.IsBr() then
      asked.(log := asked.log + [SpecUpdate(op.seqNo)],
             hist := AfterBranch(p.hist, BranchOf(u)))
    else asked
  }

  /** A misprediction moves fetch to the cycle in which it is resolved. */
  function Redirected(p: Pipe, op: Op): Pipe {
    if op.misp then p.(numFetched := 0, numFetchedBranch := 0, fetchCycle := Max(p.fetchCycle, op.exec)) else p
  }

  /** Dispatch, prediction and the choice of the next fetch cycle, once everything up to now is evaluated. */
  function Entered(q: Pipe, cfg: Config, i: Input): Pipe {
    var op := NewOp(q, cfg, i);
    Redirected(Predicted(Bundled(Dispatched(q, op), cfg, i.uop), op), op)
  }

  function Stepped(p: Pipe, cfg: Config, i: Input): Pipe {
    Entered(Fetched(CaughtUp(p), i.icacheCycle), cfg, i)
  }

  /** The empty pipeline before the first step. */
  function Start(h: LiveHist): Pipe {
    Pipe([], [], [], [], [], [], map[], h, 0, 0, 0, 0)
  }
}
