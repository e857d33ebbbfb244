/**
  What the back end computes for a micro-op, as values: when its operands are ready, what it writes, which
  memory requests and lane grants it makes, and what draining does to the prefetch queue.
*/
module ExecutionRules {
  import opened CacheLevels
  import opened CacheRuns
  import opened Common
  import opened MemorySystems
  import opened MicroOps
  import opened ResourceSchedules
  import opened StoreQueues
  import opened StridePrefetchers
  import opened StrideTables

  const RFSIZE: nat := 66
  const RFZERO: nat := 65
  const NEVER: nat := 0xffff_ffff_ffff_ffff

  datatype Timing = Timing(fill: nat, default: nat, fp: nat, slow: nat,
                           prefetch: bool, perfectCache: bool, writeAllocate: bool, modelIcache: bool) {
    /** No micro-op executes in the cycle it is fetched in, and a store not before its address is there. */
    predicate TakesTime() {
      default > 0 && (fill > 0 || (fp > 0 && slow > 0))
    }
  }

  predicate OperandOk(o: Operand) {
    o.valid ==> o.logReg < RFSIZE
  }

  /** What the simulator asserts of a micro-op: register numbers, bytes to load, and a pc that is no table sentinel. */
  predicate WellFormed(u: MicroOp) {
    && OperandOk(u.a) && OperandOk(u.b) && OperandOk(u.c) && OperandOk(u.d)
    && (u.cls.Load? ==> u.size > 0 && u.pc / 4 != SENTINEL)
  }

  // ---------------------------------------------------------------- operands

  /** Whether a source is waited for: the original looks at the first source's number for all three. */
  function SourceReady(rf: seq<nat>, u: MicroOp, o: Operand): nat
    requires |rf| == RFSIZE && OperandOk(o)
  {
    if o.valid && u.a.logReg != RFZERO then rf[o.logReg] else 0
  }

  function OperandsReady(rf: seq<nat>, u: MicroOp, earliest: nat): (r: nat)
    requires |rf| == RFSIZE && WellFormed(u)
    ensures r >= earliest
  {
    Max(earliest, Max(SourceReady(rf, u, u.a), Max(SourceReady(rf, u, u.b), SourceReady(rf, u, u.c))))
  }

  /** A source whose producer has to be waited for; the zero register has none. */
  predicate Needed(o: Operand) {
    o.valid && o.logReg != RFZERO
  }

  /** The readiness that is meant: each source is tested against its own number. */
  function ReadyAsMeant(rf: seq<nat>, u: MicroOp, earliest: nat): (r: nat)
    requires |rf| == RFSIZE && WellFormed(u)
    ensures r >= earliest
    ensures forall o :: o in [u.a, u.b, u.c] && Needed(o) ==> r >= rf[o.logReg]
  {
    var a := if Needed(u.a) then rf[u.a.logReg] else 0;
    var b := if Needed(u.b) then rf[u.b.logReg] else 0;
    var c := if Needed(u.c) then rf[u.c.logReg] else 0;
    Max(earliest, Max(a, Max(b, c)))
  }

  /** The first source is not the zero register, or the other two need no waiting for. */
  predicate WaitsForAll(u: MicroOp) {
    u.a.logReg != RFZERO || !(Needed(u.b) || Needed(u.c))
  }

  /** With the zero register first the simulator does not wait for the second source: it answers 10 where 100 is due. */
  lemma ZeroFirstSkipsOthers(u: MicroOp)
    requires WellFormed(u) && u.a == Operand(true, RFZERO) && u.b == Operand(true, 3) && !u.c.valid
    ensures var rf := seq(RFSIZE, i => if i == 3 then 100 else 0);
            OperandsReady(rf, u, 10) == 10 && ReadyAsMeant(rf, u, 10) == 100
  {
  }

  /** The simulator waits as it is meant to, whatever the registers hold, for exactly these micro-ops. */
  lemma WaitsAsMeantIff(u: MicroOp)
    requires WellFormed(u)
    ensures WaitsForAll(u) <==>
            forall rf: seq<nat>, earliest: nat :: |rf| == RFSIZE && rf[RFZERO] == 0 ==>
              OperandsReady(rf, u, earliest) == ReadyAsMeant(rf, u, earliest)
  {
    if !WaitsForAll(u) {
      var o := if Needed(u.b) then u.b else u.c;
      var rf := seq(RFSIZE, i => if i == o.logReg then 1 else 0);
      assert OperandsReady(rf, u, 0) != ReadyAsMeant(rf, u, 0);
    }
  }

  lemma WaitsAsMeant(rf: seq<nat>, u: MicroOp, earliest: nat)
    requires |rf| == RFSIZE && rf[RFZERO] == 0 && WellFormed(u)
    ensures OperandsReady(rf, u, earliest) >= earliest
    ensures WaitsForAll(u) ==> OperandsReady(rf, u, earliest) == ReadyAsMeant(rf, u, earliest)
  {
    WaitsAsMeantIff(u);
  }

  function ExecLatency(k: Timing, u: MicroOp): nat {
    if u.cls.Fp? then k.fp else if u.cls.SlowAlu? then k.slow else k.default
  }

  /** The least time from getting a lane to having executed. */
  function LeastLatency(k: Timing, u: MicroOp): nat {
    if u.cls.Load? then 2 else ExecLatency(k, u)
  }

  predicate Writes(u: MicroOp, reg: nat) {
    Needed(u.d) && u.d.logReg == reg
  }

  function Wrote(rf: seq<nat>, u: MicroOp, exec: nat): (r: seq<nat>)
    requires |rf| == RFSIZE && OperandOk(u.d)
    ensures |r| == RFSIZE && r[RFZERO] == rf[RFZERO]
    ensures forall reg :: 0 <= reg < RFSIZE ==> r[reg] == if Writes(u, reg) then exec else rf[reg]
  {
    if u.d.valid && u.d.logReg != RFZERO then rf[u.d.logReg := exec] else rf
  }

  // ---------------------------------------------------------------- prefetches

  /** A prefetch and the cycle in which it got a lane. */
  datatype Served = Served(pf: Prefetch, at: nat)

  ghost function Prefetches(served: seq<Served>): seq<Prefetch> {
    seq(|served|, i requires 0 <= i < |served| => served[i].pf)
  }

  ghost predicate QueuedSince(q: seq<Prefetch>, base: nat) {
    forall p :: p in q ==> p.cycle >= base
  }

  /** The prefetch queue after a load at `pc` is fetched in cycle `f`. */
  function Looked(t: seq<RPTEntry>, q: seq<Prefetch>, pc: nat, f: nat): seq<Prefetch> {
    var i := Find(t, pc);
    if i < |t| && t[i].state == SteadyState then Queued(q, t[i], f) else q
  }

  lemma LookedSince(t: seq<RPTEntry>, q: seq<Prefetch>, pc: nat, f: nat, base: nat)
    requires QueuedSince(q, base) && f >= base
    ensures QueuedSince(Looked(t, q, pc, f), base)
  {
    var i := Find(t, pc);
    if i < |t| {
      QueuedMembers(q, t[i], f);
    }
  }

  /**
    A load queues a prefetch exactly when its entry is steady with a stride: for the current fetch cycle, two
    strides beyond the last address, unless its line is queued already.
  */
  lemma LookedExactly(t: seq<RPTEntry>, q: seq<Prefetch>, pc: nat, f: nat, x: Prefetch)
    requires TableOk(t)
    ensures x in Looked(t, q, pc, f) <==>
            || x in q
            || (x.cycle == f && (forall y :: y in q ==> y.address / 64 != x.address / 64)
                && exists i: nat :: i < |t| && t[i].tag == pc && t[i].state == SteadyState && t[i].stride != 0
                                    && x.address == (t[i].current + 2 * t[i].stride) % WORD)
  {
    hide IsRanking;
    var k := Find(t, pc);
    if k < |t| {
      QueuedMembers(q, t[k], f);
    }
    forall i: nat | i < |t| && t[i].tag == pc && t[i].state == SteadyState
      ensures i == k
    {
    }
    hide Queued;
  }

  /** The table has been trained with one load, in place of the entry of rank 0 if the load was not in it. */
  ghost predicate TrainedBy(t: seq<RPTEntry>, t': seq<RPTEntry>, pc: nat, address: nat) {
    && (Find(t, pc) < |t| ==> !t[Find(t, pc)].state.Invalid?)
    && exists victim :: 0 <= victim < |t| && t[victim].lru == 0 && t' == TrainedTable(t, victim, pc, address)
  }

  /** What draining takes from the queue: the stale prefetches first, then those that got a lane. */
  ghost predicate Drained(before: seq<Prefetch>, stale: seq<Prefetch>, served: seq<Served>, after: seq<Prefetch>,
                          prev: nat, f: nat) {
    && before == stale + Prefetches(served) + after
    && (forall p :: p in stale ==> p.Stale(f))
    && (forall i :: 0 <= i < |served| ==>
          Max(prev, served[i].pf.cycle) <= served[i].at <= f && !served[i].pf.Stale(f))
    && (forall p :: p in after ==> !p.Stale(f))
  }

  ghost predicate Draining(before: seq<Prefetch>, stale: seq<Prefetch>, served: seq<Served>, after: seq<Prefetch>,
                           prev: nat, f: nat) {
    (served == [] && stale == [] && before == after) || Drained(before, stale, served, after, prev, f)
  }

  ghost function Requests(served: seq<Served>): seq<SystemRequest> {
    seq(|served|, i requires 0 <= i < |served| => DataRequest(served[i].at, served[i].pf.address, true))
  }

  lemma ServedOne(before: seq<Prefetch>, stale: seq<Prefetch>, served: seq<Served>, p: Prefetch, rest: seq<Prefetch>,
                  at: nat, prev: nat, f: nat)
    requires Drained(before, stale, served, [p] + rest, prev, f) && Max(prev, p.cycle) <= at <= f
    ensures Drained(before, stale, served + [Served(p, at)], rest, prev, f)
    ensures Requests(served + [Served(p, at)]) == Requests(served) + [DataRequest(at, p.address, true)]
  {
  }

  /** Only the first round drops anything. */
  lemma DroppedStale(queue0: seq<Prefetch>, stale: seq<Prefetch>, served: seq<Served>, q: seq<Prefetch>, k: nat,
                     prev: nat, f: nat)
    returns (stale': seq<Prefetch>)
    requires LinesDistinct(q) && k <= |q| && (forall x :: x in q[k..] <==> x in q && !x.Stale(f))
    requires Draining(queue0, stale, served, q, prev, f)
    ensures Drained(queue0, stale', served, q[k..], prev, f)
  {
    forall i | 0 <= i < k
      ensures q[i].Stale(f)
    {
      forall j | k <= j < |q|
        ensures q[j] != q[i]
      {
      }
    }
    if Drained(queue0, stale, served, q, prev, f) {
      stale' := stale;
      assert q != [] ==> q[0] in q;
      assert k == 0;
      assert q[k..] == q;
    } else {
      stale' := q[..k];
      assert Prefetches(served) == [];
      assert q == q[..k] + q[k..];
    }
  }

  // ---------------------------------------------------------------- requests and grants

  /** The search for a lane for one prefetch, and what it found. */
  function Placed(p: Prefetch, prev: nat, f: nat, at: Option<nat>): Call
    requires p.cycle <= f && prev <= f
  {
    Grant(Max(prev, p.cycle), Some(f - Max(prev, p.cycle)), at)
  }

  ghost predicate Due(served: seq<Served>, f: nat) {
    forall i :: 0 <= i < |served| ==> served[i].pf.cycle <= f
  }

  /** The lane searches of the served prefetches. */
  ghost function ServedCalls(served: seq<Served>, prev: nat, f: nat): seq<Call>
    requires prev <= f && Due(served, f)
  {
    seq(|served|, i requires 0 <= i < |served| => Placed(served[i].pf, prev, f, Some(served[i].at)))
  }

  /** The lane searches of draining: one for each served prefetch, and a last one when the front found no lane. */
  ghost function DrainCalls(served: seq<Served>, after: seq<Prefetch>, prev: nat, f: nat): seq<Call>
    requires prev <= f && Due(served, f)
  {
    ServedCalls(served, prev, f)
    + (if after == [] || after[0].cycle > f then [] else [Placed(after[0], prev, f, None)])
  }

  lemma ServedCallsGrow(served: seq<Served>, p: Prefetch, at: nat, prev: nat, f: nat)
    requires prev <= f && Due(served, f) && p.cycle <= f
    ensures Due(served + [Served(p, at)], f)
    ensures ServedCalls(served + [Served(p, at)], prev, f)
            == ServedCalls(served, prev, f) + [Placed(p, prev, f, Some(at))]
  {
  }

  lemma NothingDrained(ring: Ring, width: nat, prev: nat, f: nat)
    requires prev <= f
    ensures Requests([]) == [] && Due([], f) && ServedCalls([], prev, f) == [] && Ran(ring, width, [], ring)
  {
  }

  /** What a step does that its results do not show; `ldst` and `alu` are the calls on the lanes. */
  datatype Trace = Trace(start: nat, data: nat, stale: seq<Prefetch>, served: seq<Served>, done: nat,
                         ldst: seq<Call>, alu: seq<Call>) {
    function Calls(mem: bool): seq<Call> {
      if mem then ldst else alu
    }
  }

  /** When the data cache has a load's block. */
  ghost function CacheAnswer(k: Timing, sys: System, cycle: nat, addr: nat): nat
    requires sys.Ok()
  {
    if k.perfectCache then cycle + Latency(sys, Data) else Avail(sys, DataRequest(cycle, addr, false))
  }

  /** When a store's block is there. */
  ghost function StoreAnswer(k: Timing, sys: System, exec: nat, addr: nat): nat
    requires sys.Ok()
  {
    if !k.writeAllocate || k.perfectCache then exec else Avail(sys, DataRequest(exec, addr, false))
  }

  lemma NothingGrown(slots: seq<nat>, base: nat)
    requires |slots| > 0
    ensures Grown(slots, DepthAt(|slots|, base, base)) == slots
  {
  }

  lemma FindsAfterStart(slots: seq<nat>, base: nat, width: nat, start: nat, r: Option<nat>)
    requires base <= start && Finds(slots, base, width, start, None, r)
    ensures r.Some? && r.value >= start
  {
  }

  // ---------------------------------------------------------------- one micro-op

  /** The cycles that the back end can give a micro-op that gets its lane in cycle `start`. */
  ghost predicate CyclesFrom(k: Timing, u: MicroOp, start: nat, agen: nat, exec: nat) {
    && agen == (if u.cls.IsMem() then start + 1 else NEVER)
    && (if u.cls.Load? then exec >= start + 2 else exec == start + ExecLatency(k, u))
  }

  /** The back end as a value. */
  datatype BackEnd = BackEnd(registers: seq<nat>, storeQueue: map<nat, StoreByte>, ldst: Ring, alu: Ring, sys: System,
                             rpt: seq<RPTEntry>, queue: seq<Prefetch>) {
    ghost predicate Ok() {
      |registers| == RFSIZE && sys.Ok()
    }

    /** The lanes of the loads and stores, or those of the other micro-ops. */
    function Lane(mem: bool): Ring {
      if mem then ldst else alu
    }
  }

  /** The latencies, and how many lanes of each kind there are. */
  datatype Setup = Setup(k: Timing, ldst: nat, alu: nat) {
    function Width(mem: bool): nat {
      if mem then ldst else alu
    }
  }

  /** The memory requests that a micro-op makes before a store of its own. */
  ghost function RequestsBefore(k: Timing, u: MicroOp, t: Trace): seq<SystemRequest> {
    (if u.cls.Load? && !k.perfectCache then [DataRequest(t.start + 1, u.addr, false)] else []) + Requests(t.served)
  }

  /** The memory requests of a micro-op, in order: the load, the prefetches, the store. */
  ghost function RequestsOf(k: Timing, u: MicroOp, exec: nat, t: Trace): seq<SystemRequest> {
    RequestsBefore(k, u, t)
    + (if u.cls.Store? && k.writeAllocate && !k.perfectCache then [DataRequest(exec, u.addr, false)] else [])
  }

  /** The lane of a micro-op is taken once, and the load and store lanes also by the prefetches that drain. */
  ghost predicate LanesTaken(m: Setup, u: MicroOp, f: nat, prev: nat, b: BackEnd, t: Trace, b': BackEnd) {
    && b.Ok() && WellFormed(u) && prev <= f && Due(t.served, f)
    && var own := Grant(OperandsReady(b.registers, u, f + m.k.fill), None, Some(t.start));
    && own.start <= t.start
    && t.ldst == (if u.cls.IsMem() then [own] else [])
                 + (if m.k.prefetch then DrainCalls(t.served, b'.queue, prev, f) else [])
    && t.alu == (if u.cls.IsMem() then [] else [own])
    && Ran(b.ldst, m.ldst, t.ldst, b'.ldst) && Ran(b.alu, m.alu, t.alu, b'.alu)
  }

  /** When a load's data is there, and when a store's; the store asks after everything else. */
  ghost predicate MemoryAsked(m: Setup, u: MicroOp, b: BackEnd, exec: nat, t: Trace, b': BackEnd) {
    && b.Ok()
    && t.data == (if u.cls.Load? then CacheAnswer(m.k, b.sys, t.start + 1, u.addr) else 0)
    && t.done == (if u.cls.Store?
                  then StoreAnswer(m.k, RunSystem(b.sys, MAIN_MEMORY_LATENCY, RequestsBefore(m.k, u, t)), exec, u.addr)
                  else 0)
    && b'.sys == RunSystem(b.sys, MAIN_MEMORY_LATENCY, RequestsOf(m.k, u, exec, t))
  }

  /** What the prefetcher's table and queue become. */
  ghost predicate Prefetched(m: Setup, u: MicroOp, f: nat, prev: nat, b: BackEnd, t: Trace, b': BackEnd) {
    var looks := u.cls.Load? && m.k.prefetch;
    && (if looks then TrainedBy(b.rpt, b'.rpt, u.pc / 4, u.addr) else b'.rpt == b.rpt)
    && (if m.k.prefetch
        then Drained(if looks then Looked(b.rpt, b.queue, u.pc / 4, f) else b.queue, t.stale, t.served, b'.queue,
                     prev, f)
        else b'.queue == b.queue && t.stale == [] && t.served == [])
  }

  /** The store queue after a micro-op; a store stays in it until everything older has retired. */
  function Stored(sq: map<nat, StoreByte>, u: MicroOp, exec: nat, done: nat, lastRetire: nat): map<nat, StoreByte> {
    if u.cls.Store? then Written(sq, u.addr, u.size, StoreByte(exec, Max(done, lastRetire))) else sq
  }

  /** Everything that the back end does for one micro-op fetched in cycle `f`. */
  ghost predicate Executed(m: Setup, u: MicroOp, f: nat, prev: nat, lastRetire: nat, b: BackEnd, agen: nat, exec: nat,
                           t: Trace, b': BackEnd) {
    && LanesTaken(m, u, f, prev, b, t, b')
    && MemoryAsked(m, u, b, exec, t, b')
    && Prefetched(m, u, f, prev, b, t, b')
    && CyclesFrom(m.k, u, t.start, agen, exec)
    && (u.cls.Load? ==> exec == LoadReady(b.storeQueue, u.addr, u.size, t.start + 2, t.data))
    && b'.registers == Wrote(b.registers, u, exec)
    && b'.storeQueue == Stored(b.storeQueue, u, exec, t.done, lastRetire)
  }

  /** The micro-op takes the first cycle from its readiness on in which its kind of lane is free. */
  lemma StartIsFirstFree(m: Setup, u: MicroOp, f: nat, prev: nat, b: BackEnd, t: Trace, b': BackEnd)
    requires LanesTaken(m, u, f, prev, b, t, b')
    ensures var ring, width := b.Lane(u.cls.IsMem()), m.Width(u.cls.IsMem());
            var ready := OperandsReady(b.registers, u, f + m.k.fill);
            ring.base <= ready && Finds(ring.slots, ring.base, width, ready, None, Some(t.start))
  {
    hide OperandsReady;
    hide DrainCalls;
    hide RingAfter;
    hide Finds;
    var calls := t.Calls(u.cls.IsMem());
    assert calls[0] == Grant(OperandsReady(b.registers, u, f + m.k.fill), None, Some(t.start));
  }

  /** What the pipeline needs to know of a micro-op that the back end has executed. */
  lemma ExecutedTimes(m: Setup, u: MicroOp, f: nat, prev: nat, lastRetire: nat, b: BackEnd, agen: nat, exec: nat,
                      t: Trace, b': BackEnd)
    requires Executed(m, u, f, prev, lastRetire, b, agen, exec, t, b') && b.registers[RFZERO] == 0
    ensures f + m.k.fill <= t.start && CyclesFrom(m.k, u, t.start, agen, exec)
    ensures t.start + LeastLatency(m.k, u) <= exec
    ensures b'.registers == Wrote(b.registers, u, exec)
    ensures WaitsForAll(u) ==> ReadyAsMeant(b.registers, u, f + m.k.fill) <= t.start
  {
    WaitsAsMeant(b.registers, u, f + m.k.fill);
  }

  /**
    What executing comes to for each kind of micro-op: when it generates its address and when it has executed,
    counted from the cycle in which it got its lane.
  */
  lemma ExecutedByClass(m: Setup, u: MicroOp, f: nat, prev: nat, lastRetire: nat, b: BackEnd, agen: nat, exec: nat,
                        t: Trace, b': BackEnd)
    requires Executed(m, u, f, prev, lastRetire, b, agen, exec, t, b')
    ensures match u.cls
            case Load =>
              && agen == t.start + 1
              && t.data == (if m.k.perfectCache then t.start + 1 + b.sys.l1.cfg.latency
                            else Access([b.sys.l1] + b.sys.shared, 150, t.start + 1, u.addr, false).avail)
              && exec == LoadReady(b.storeQueue, u.addr, u.size, t.start + 2, t.data)
            case Store => agen == t.start + 1 && exec == t.start + m.k.default
            case Fp => agen == NEVER && exec == t.start + m.k.fp
            case SlowAlu => agen == NEVER && exec == t.start + m.k.slow
            case _ => agen == NEVER && exec == t.start + m.k.default
  {
    hide LanesTaken;
    hide Prefetched;
    hide RunSystem;
    hide Stored;
    hide Access;
  }

  /** What executing leaves: the destination register alone changes, and of the store queue the store's bytes alone. */
  lemma ExecutedWrites(m: Setup, u: MicroOp, f: nat, prev: nat, lastRetire: nat, b: BackEnd, agen: nat, exec: nat,
                       t: Trace, b': BackEnd)
    requires Executed(m, u, f, prev, lastRetire, b, agen, exec, t, b')
    ensures |b'.registers| == |b.registers| == RFSIZE
    ensures forall r :: 0 <= r < RFSIZE ==>
              b'.registers[r] == if u.d.valid && u.d.logReg == r && r != 65 then exec else b.registers[r]
    ensures forall x: nat :: x in b'.storeQueue <==>
              x in b.storeQueue || (u.cls == Store && u.addr <= x < u.addr + u.size)
    ensures forall x: nat :: x in b'.storeQueue ==>
              b'.storeQueue[x] == if u.cls == Store && u.addr <= x < u.addr + u.size
                                  then StoreByte(exec, Max(t.done, lastRetire)) else b.storeQueue[x]
  {
    hide Prefetched;
    hide MemoryAsked;
    hide CyclesFrom;
    hide Ran;
    forall x: nat
      ensures x in b'.storeQueue <==> x in b.storeQueue || (u.cls == Store && u.addr <= x < u.addr + u.size)
      ensures x in b'.storeQueue ==>
                b'.storeQueue[x] == if u.cls == Store && u.addr <= x < u.addr + u.size
                                    then StoreByte(exec, Max(t.done, lastRetire)) else b.storeQueue[x]
    {
      WrittenAt(b.storeQueue, u.addr, u.size, StoreByte(exec, Max(t.done, lastRetire)), x);
      hide Written;
    }
    hide Written;
  }

  /** The accesses that executing makes: a load's, those of the served prefetches, and then an allocating store's. */
  lemma ExecutedAsks(m: Setup, u: MicroOp, f: nat, prev: nat, lastRetire: nat, b: BackEnd, agen: nat, exec: nat,
                     t: Trace, b': BackEnd)
    requires Executed(m, u, f, prev, lastRetire, b, agen, exec, t, b')
    ensures var reqs := RequestsOf(m.k, u, exec, t);
            var loads := if u.cls == Load && !m.k.perfectCache then 1 else 0;
            var stores := if u.cls == Store && m.k.writeAllocate && !m.k.perfectCache then 1 else 0;
            && b'.sys == RunSystem(b.sys, 150, reqs)
            && |reqs| == loads + |t.served| + stores
            && (loads == 1 ==> reqs[0] == SystemRequest(Data, Request(t.start + 1, u.addr, false)))
            && (forall k :: 0 <= k < |t.served| ==>
                  reqs[loads + k] == SystemRequest(Data, Request(t.served[k].at, t.served[k].pf.address, true)))
            && (stores == 1 ==> reqs[|reqs| - 1] == SystemRequest(Data, Request(exec, u.addr, false)))
    ensures u.cls == Store && (!m.k.writeAllocate || m.k.perfectCache) ==> t.done == exec
  {
    hide LanesTaken;
    hide Prefetched;
    hide RunSystem;
    hide CyclesFrom;
    hide Stored;
    hide LoadReady;
    hide Wrote;
  }

  /**
    Draining drops exactly the prefetches that are more than eight cycles old, and a prefetch that is served got a
    lane no earlier than the last fetch and its own cycle.
  */
  lemma ServedInTime(m: Setup, u: MicroOp, f: nat, prev: nat, lastRetire: nat, b: BackEnd, agen: nat, exec: nat,
                     t: Trace, b': BackEnd)
    requires Executed(m, u, f, prev, lastRetire, b, agen, exec, t, b') && m.k.prefetch
    ensures forall p :: p in t.stale ==> f > p.cycle + 8
    ensures forall p :: p in b'.queue ==> f <= p.cycle + 8
    ensures forall k :: 0 <= k < |t.served| ==>
              var s := t.served[k]; prev <= s.at <= f && s.pf.cycle <= s.at && f <= s.pf.cycle + 8
  {
    hide LanesTaken;
    hide MemoryAsked;
    hide CyclesFrom;
    hide Stored;
    hide LoadReady;
    hide Wrote;
    hide Looked;
    hide TrainedBy;
  }

  /** The cycle before which no lane is asked for any more: fetch, or the oldest queued prefetch. */
  function HorizonOf(q: seq<Prefetch>, f: nat): (h: nat)
    ensures h <= f
  {
    if q == [] then f else Min(f, q[0].cycle)
  }

  lemma HorizonIs(q: seq<Prefetch>, f: nat, oldest: Option<nat>)
    requires QueueOk(q) && (oldest.None? <==> q == [])
    requires oldest.Some? ==>
               (exists p :: p in q && p.cycle == oldest.value) && forall p :: p in q ==> oldest.value <= p.cycle
    ensures HorizonOf(q, f) == if oldest.Some? then Min(f, oldest.value) else f
  {
    if q != [] {
      var p :| p in q && p.cycle == oldest.value;
      var i :| 0 <= i < |q| && q[i] == p;
      assert q[0] in q;
      assert i > 0 ==> q[0].Before(q[i]);
    }
  }

  /** Scheduling and draining lead to `mid`, and the results from there to `b'`. */
  lemma ExecutedInTwo(m: Setup, u: MicroOp, f: nat, prev: nat, lastRetire: nat, b: BackEnd, agen: nat, exec: nat,
                      t: Trace, mid: BackEnd, done: nat, b': BackEnd)
    requires LanesTaken(m, u, f, prev, b, t, mid) && Prefetched(m, u, f, prev, b, t, mid)
    requires CyclesFrom(m.k, u, t.start, agen, exec)
    requires t.data == if u.cls.Load? then CacheAnswer(m.k, b.sys, t.start + 1, u.addr) else 0
    requires u.cls.Load? ==> exec == LoadReady(b.storeQueue, u.addr, u.size, t.start + 2, t.data)
    requires mid.sys == RunSystem(b.sys, MAIN_MEMORY_LATENCY, RequestsBefore(m.k, u, t))
    requires done == if u.cls.Store? then StoreAnswer(m.k, mid.sys, exec, u.addr) else 0
    requires b' == mid.(registers := Wrote(b.registers, u, exec),
                        storeQueue := Stored(b.storeQueue, u, exec, done, lastRetire),
                        sys := RunSystem(b.sys, MAIN_MEMORY_LATENCY, RequestsOf(m.k, u, exec, t)))
    ensures Executed(m, u, f, prev, lastRetire, b, agen, exec, t.(done := done), b')
  {
    hide Ran;
    hide RunSystem;
    hide OperandsReady;
    hide CyclesFrom;
    hide DrainCalls;
    hide Drained;
    hide TrainedBy;
    hide Looked;
    hide Requests;
    hide CacheAnswer;
    hide StoreAnswer;
    hide Wrote;
    hide Stored;
  }

  /** Both lanes forget the cycles before the horizon. */
  ghost predicate Forgets(m: Setup, b: BackEnd, h: nat, b': BackEnd) {
    && Ran(b.ldst, m.ldst, [Advance(h)], b'.ldst) && Ran(b.alu, m.alu, [Advance(h)], b'.alu)
    && b' == b.(ldst := b'.ldst, alu := b'.alu)
  }
}
