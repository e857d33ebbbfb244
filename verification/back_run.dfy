/**
  The back end over a whole run, beside the pipeline: what one step makes of it, and what follows for the
  lanes, the memory and the store queue of a program.
*/
module BackRuns {
  import CacheLevels
  import PipelineRuns
  import opened Bits
  import opened CacheRuns
  import opened Common
  import opened ExecutionRules
  import opened FirstFits
  import opened MemorySystems
  import opened MicroOps
  import opened Pipelines
  import opened ResourceSchedules
  import opened StoreQueues

  // ---------------------------------------------------------------- one step

  ghost function CodeRequests(k: Timing, fetch: nat, pc: nat): seq<SystemRequest> {
    if k.modelIcache then [CodeRequest(fetch, pc)] else []
  }

  /** When the instruction cache delivers a micro-op. */
  ghost function Arrival(k: Timing, sys: System, fetch: nat, pc: nat): nat
    requires sys.Ok()
  {
    if k.modelIcache then Avail(sys, CodeRequest(fetch, pc)) else fetch
  }

  /** The youngest retirement in the window when a micro-op is fetched. */
  function RetireAtFetch(p: Pipe, i: Input): nat {
    LastRetire(Fetched(CaughtUp(p), i.icacheCycle))
  }

  /** A step of the back end: `mid` is what executing leaves, before the lanes forget the past. */
  datatype BackStep = BackStep(t: Trace, mid: BackEnd, after: BackEnd)

  /** The horizon of a step that leaves fetch in cycle `f`. */
  function HorizonAfter(s: BackStep, f: nat): nat {
    HorizonOf(s.mid.queue, f)
  }

  ghost function AfterFetch(k: Timing, b: BackEnd, fetch: nat, pc: nat): BackEnd
    requires b.Ok()
  {
    b.(sys := RunSystem(b.sys, CacheLevels.MAIN_MEMORY_LATENCY, CodeRequests(k, fetch, pc)))
  }

  /** What a step of the pipeline `p` on input `i` makes of the back end. */
  ghost predicate Steps(m: Setup, cfg: Config, p: Pipe, b: BackEnd, i: Input, s: BackStep) {
    && b.Ok()
    && i.icacheCycle == Arrival(m.k, b.sys, p.fetchCycle, i.uop.pc)
    && Executed(m, i.uop, i.icacheCycle, p.previousFetchCycle, RetireAtFetch(p, i),
                AfterFetch(m.k, b, p.fetchCycle, i.uop.pc), i.agen, i.exec, s.t, s.mid)
    && Forgets(m, s.mid, HorizonAfter(s, Stepped(p, cfg, i).fetchCycle), s.after)
  }

  /** A micro-op is fetched when the instruction cache answers, or at once when there is none in the model. */
  lemma FetchedWhenAnswered(m: Setup, cfg: Config, p: Pipe, b: BackEnd, i: Input, s: BackStep)
    requires Steps(m, cfg, p, b, i, s)
    ensures b.Ok()
    ensures i.icacheCycle
            == if m.k.modelIcache
               then CacheLevels.Access([b.sys.ic] + b.sys.shared, 150, p.fetchCycle, i.uop.pc, false).avail
               else p.fetchCycle
  {
    hide Executed;
    hide Forgets;
    hide Stepped;
  }

  // ---------------------------------------------------------------- runs

  function After(b: BackEnd, steps: seq<BackStep>): BackEnd {
    if steps == [] then b else steps[|steps| - 1].after
  }

  /** The back end's steps beside a run of the pipeline from `p`. */
  ghost predicate BackRun(m: Setup, cfg: Config, p: Pipe, b: BackEnd, inputs: seq<Input>, steps: seq<BackStep>)
    decreases |inputs|
  {
    && |steps| == |inputs|
    && (inputs == [] || (
          var n := |inputs| - 1;
          && BackRun(m, cfg, p, b, inputs[..n], steps[..n])
          && Steps(m, cfg, PipelineRuns.Run(p, cfg, inputs[..n]), After(b, steps[..n]), inputs[n], steps[n])))
  }

  lemma BackRunExtends(m: Setup, cfg: Config, p: Pipe, b: BackEnd, inputs: seq<Input>, steps: seq<BackStep>,
                       i: Input, s: BackStep)
    requires BackRun(m, cfg, p, b, inputs, steps)
    requires Steps(m, cfg, PipelineRuns.Run(p, cfg, inputs), After(b, steps), i, s)
    ensures BackRun(m, cfg, p, b, inputs + [i], steps + [s]) && After(b, steps + [s]) == s.after
  {
    hide Steps;
    hide PipelineRuns.Run;
    assert (inputs + [i])[..|inputs|] == inputs && (steps + [s])[..|inputs|] == steps;
  }

  // ---------------------------------------------------------------- the memory

  /** The requests of a step: the micro-op's fetch, and what executing it asks for. */
  ghost function StepRequests(k: Timing, p: Pipe, i: Input, s: BackStep): seq<SystemRequest> {
    CodeRequests(k, p.fetchCycle, i.uop.pc) + RequestsOf(k, i.uop, i.exec, s.t)
  }

  ghost function AllRequests(k: Timing, cfg: Config, p: Pipe, inputs: seq<Input>, steps: seq<BackStep>)
    : seq<SystemRequest>
    requires |steps| == |inputs|
    decreases |inputs|
  {
    if inputs == [] then []
    else
      var n := |inputs| - 1;
      AllRequests(k, cfg, p, inputs[..n], steps[..n])
      + StepRequests(k, PipelineRuns.Run(p, cfg, inputs[..n]), inputs[n], steps[n])
  }

  lemma StepAsks(m: Setup, cfg: Config, p: Pipe, b: BackEnd, i: Input, s: BackStep)
    requires Steps(m, cfg, p, b, i, s)
    ensures b.Ok()
    ensures s.after.sys == RunSystem(b.sys, CacheLevels.MAIN_MEMORY_LATENCY, StepRequests(m.k, p, i, s))
  {
    RunConcat(b.sys, CodeRequests(m.k, p.fetchCycle, i.uop.pc), RequestsOf(m.k, i.uop, i.exec, s.t));
  }

  /** The memory serves exactly the requests of the steps, in order, and every miss is an access one level down. */
  lemma {:induction false} RunAsksMemory(m: Setup, cfg: Config, p: Pipe, b: BackEnd, inputs: seq<Input>,
                                         steps: seq<BackStep>)
    requires BackRun(m, cfg, p, b, inputs, steps) && b.Ok()
    ensures var reqs := AllRequests(m.k, cfg, p, inputs, steps);
            After(b, steps).sys == RunSystem(b.sys, CacheLevels.MAIN_MEMORY_LATENCY, reqs)
    ensures Conserved(b.sys, After(b, steps).sys)
    decreases |inputs|
  {
    hide Steps;
    hide Conserved;
    hide StepRequests;
    hide PipelineRuns.Run;
    if inputs != [] {
      var n := |inputs| - 1;
      var q := PipelineRuns.Run(p, cfg, inputs[..n]);
      RunAsksMemory(m, cfg, p, b, inputs[..n], steps[..n]);
      StepAsks(m, cfg, q, After(b, steps[..n]), inputs[n], steps[n]);
      RunConcat(b.sys, AllRequests(m.k, cfg, p, inputs[..n], steps[..n]), StepRequests(m.k, q, inputs[n], steps[n]));
    }
    RunConserves(b.sys, CacheLevels.MAIN_MEMORY_LATENCY, AllRequests(m.k, cfg, p, inputs, steps));
  }

  // ---------------------------------------------------------------- the lanes

  /** What a step asks of the load and store lanes, or of the others. */
  ghost function LaneCalls(cfg: Config, p: Pipe, i: Input, s: BackStep, mem: bool): seq<Call> {
    s.t.Calls(mem) + [Advance(HorizonAfter(s, Stepped(p, cfg, i).fetchCycle))]
  }

  ghost function AllLaneCalls(cfg: Config, p: Pipe, inputs: seq<Input>, steps: seq<BackStep>, mem: bool): seq<Call>
    requires |steps| == |inputs|
    decreases |inputs|
  {
    if inputs == [] then []
    else
      var n := |inputs| - 1;
      AllLaneCalls(cfg, p, inputs[..n], steps[..n], mem)
      + LaneCalls(cfg, PipelineRuns.Run(p, cfg, inputs[..n]), inputs[n], steps[n], mem)
  }

  lemma StepRunsLanes(m: Setup, cfg: Config, p: Pipe, b: BackEnd, i: Input, s: BackStep, mem: bool)
    requires Steps(m, cfg, p, b, i, s)
    ensures Ran(b.Lane(mem), m.Width(mem), LaneCalls(cfg, p, i, s, mem), s.after.Lane(mem))
  {
    hide Ran;
    hide Stepped;
    hide RunSystem;
    hide DrainCalls;
    hide OperandsReady;
    hide RetireAtFetch;
    hide HorizonAfter;
    var h := HorizonAfter(s, Stepped(p, cfg, i).fetchCycle);
    RanConcat(b.Lane(mem), m.Width(mem), s.t.Calls(mem), s.mid.Lane(mem), [Advance(h)], s.after.Lane(mem));
  }

  /** Each lane ring goes through exactly the calls of the steps, in order. */
  lemma {:induction false} RunRunsLanes(m: Setup, cfg: Config, p: Pipe, b: BackEnd, inputs: seq<Input>,
                                        steps: seq<BackStep>, mem: bool)
    requires BackRun(m, cfg, p, b, inputs, steps)
    ensures Ran(b.Lane(mem), m.Width(mem), AllLaneCalls(cfg, p, inputs, steps, mem), After(b, steps).Lane(mem))
    decreases |inputs|
  {
    hide Ran;
    hide Steps;
    hide PipelineRuns.Run;
    hide LaneCalls;
    if inputs == [] {
      RanNothing(b.Lane(mem), m.Width(mem));
    } else {
      var n := |inputs| - 1;
      var q, before := PipelineRuns.Run(p, cfg, inputs[..n]), After(b, steps[..n]);
      RunRunsLanes(m, cfg, p, b, inputs[..n], steps[..n], mem);
      StepRunsLanes(m, cfg, q, before, inputs[n], steps[n], mem);
      RanConcat(b.Lane(mem), m.Width(mem), AllLaneCalls(cfg, p, inputs[..n], steps[..n], mem), before.Lane(mem),
                LaneCalls(cfg, q, inputs[n], steps[n], mem), steps[n].after.Lane(mem));
    }
  }

  /** The grants that were asked for without a limit, as micro-ops do; prefetches ask up to the current cycle. */
  function Limitless(calls: seq<Call>): seq<Call> {
    if calls == [] then []
    else
      var c := calls[|calls| - 1];
      Limitless(calls[..|calls| - 1]) + (if c.Grant? && c.maxDelta.None? then [c] else [])
  }

  lemma {:induction false} LimitlessConcat(a: seq<Call>, b: seq<Call>)
    ensures Limitless(a + b) == Limitless(a) + Limitless(b)
  {
    if b == [] {
      assert a + b == a;
    } else {
      assert (a + b)[..|a + b| - 1] == a + b[..|b| - 1];
      LimitlessConcat(a, b[..|b| - 1]);
    }
  }

  lemma {:induction false} NoneLimitless(calls: seq<Call>)
    requires forall k :: 0 <= k < |calls| ==> calls[k].Grant? ==> calls[k].maxDelta.Some?
    ensures Limitless(calls) == []
  {
    if calls != [] {
      NoneLimitless(calls[..|calls| - 1]);
    }
  }

  lemma OneLimitless(c: Call)
    requires c.Grant? && c.maxDelta.None?
    ensures Limitless([c]) == [c]
  {
    assert [c][..0] == [] && Limitless([]) == [];
  }

  /** From when its operands are ready, the micro-op gets the cycle in which it starts. */
  ghost function OwnGrant(m: Setup, b: BackEnd, i: Input, s: BackStep): Call
    requires |b.registers| == RFSIZE && WellFormed(i.uop)
  {
    Grant(OperandsReady(b.registers, i.uop, i.icacheCycle + m.k.fill), None, Some(s.t.start))
  }

  /** The grants of the micro-ops of one kind, in program order. */
  ghost function OwnGrants(m: Setup, cfg: Config, p: Pipe, b: BackEnd, inputs: seq<Input>, steps: seq<BackStep>,
                           mem: bool): seq<Call>
    requires BackRun(m, cfg, p, b, inputs, steps)
    decreases |inputs|
  {
    if inputs == [] then []
    else
      var n := |inputs| - 1;
      OwnGrants(m, cfg, p, b, inputs[..n], steps[..n], mem)
      + (if inputs[n].uop.cls.IsMem() == mem then [OwnGrant(m, After(b, steps[..n]), inputs[n], steps[n])] else [])
  }

  /** A micro-op's own grant is the first of its calls, and the only one without a limit. */
  lemma OwnGrantFirst(m: Setup, u: MicroOp, f: nat, prev: nat, b: BackEnd, t: Trace, b': BackEnd, mem: bool)
    requires LanesTaken(m, u, f, prev, b, t, b')
    ensures var own := Grant(OperandsReady(b.registers, u, f + m.k.fill), None, Some(t.start));
            var calls := t.Calls(mem);
            var n := if u.cls.IsMem() == mem then 1 else 0;
            && n <= |calls| && (n == 1 ==> calls[0] == own)
            && forall j :: n <= j < |calls| && calls[j].Grant? ==> calls[j].maxDelta.Some?
  {
    hide Ran;
    hide WellFormed;
    hide OperandsReady;
  }

  lemma LanesOfWellFormed(m: Setup, u: MicroOp, f: nat, prev: nat, b: BackEnd, t: Trace, b': BackEnd)
    requires LanesTaken(m, u, f, prev, b, t, b')
    ensures b.Ok() && WellFormed(u)
  {
  }

  lemma StepOwnGrant(m: Setup, cfg: Config, p: Pipe, b: BackEnd, i: Input, s: BackStep, mem: bool)
    requires Steps(m, cfg, p, b, i, s)
    ensures |b.registers| == RFSIZE && WellFormed(i.uop)
    ensures var own := if i.uop.cls.IsMem() == mem then [OwnGrant(m, b, i, s)] else [];
            Limitless(LaneCalls(cfg, p, i, s, mem)) == own
  {
    hide LanesTaken;
    hide MemoryAsked;
    hide Prefetched;
    hide Forgets;
    hide Stepped;
    hide RunSystem;
    hide OperandsReady;
    hide RetireAtFetch;
    hide HorizonAfter;
    hide WellFormed;
    hide Limitless;
    var after := AfterFetch(m.k, b, p.fetchCycle, i.uop.pc);
    LanesOfWellFormed(m, i.uop, i.icacheCycle, p.previousFetchCycle, after, s.t, s.mid);
    OwnGrantFirst(m, i.uop, i.icacheCycle, p.previousFetchCycle, after, s.t, s.mid, mem);
    var own, n := OwnGrant(m, b, i, s), if i.uop.cls.IsMem() == mem then 1 else 0;
    var calls := LaneCalls(cfg, p, i, s, mem);
    assert calls == calls[..n] + calls[n..];
    assert n == 1 ==> calls[..n] == [own];
    NoneLimitless(calls[n..]);
    NoneLimitless([]);
    LimitlessConcat(calls[..n], calls[n..]);
    OneLimitless(own);
  }

  /** The limitless grants of each kind of lane are the micro-ops' own, in program order, each in its own cycle. */
  lemma {:induction false} GrantsAreStarts(m: Setup, cfg: Config, p: Pipe, b: BackEnd, inputs: seq<Input>,
                                           steps: seq<BackStep>, mem: bool)
    requires BackRun(m, cfg, p, b, inputs, steps)
    ensures Limitless(AllLaneCalls(cfg, p, inputs, steps, mem)) == OwnGrants(m, cfg, p, b, inputs, steps, mem)
    decreases |inputs|
  {
    hide Steps;
    hide PipelineRuns.Run;
    hide LaneCalls;
    hide OwnGrant;
    hide Limitless;
    if inputs == [] {
      NoneLimitless([]);
    } else {
      var n := |inputs| - 1;
      var q := PipelineRuns.Run(p, cfg, inputs[..n]);
      GrantsAreStarts(m, cfg, p, b, inputs[..n], steps[..n], mem);
      StepOwnGrant(m, cfg, q, After(b, steps[..n]), inputs[n], steps[n], mem);
      LimitlessConcat(AllLaneCalls(cfg, p, inputs[..n], steps[..n], mem),
                      LaneCalls(cfg, q, inputs[n], steps[n], mem));
    }
  }

  /**
    After any run in which the ring of its kind of lane stays faithful, the next micro-op starts in the first
    cycle, from its readiness on, that first-fit allocation over all cycles has a lane for.
  */
  lemma StartsAtFirstFreeLane(m: Setup, cfg: Config, p: Pipe, b: BackEnd, inputs: seq<Input>, steps: seq<BackStep>,
                              i: Input, s: BackStep, granted: Allocation)
    requires BackRun(m, cfg, p, b, inputs, steps)
    requires Steps(m, cfg, PipelineRuns.Run(p, cfg, inputs), After(b, steps), i, s)
    requires var mem := i.uop.cls.IsMem();
             var ring := b.Lane(mem);
             && IsPow2(|ring.slots|) && Abstracts(ring.slots, ring.base, granted)
             && RingRun(ring, granted, m.Width(mem),
                        AllLaneCalls(cfg, p, inputs, steps, mem) + [OwnGrant(m, After(b, steps), i, s)])
    ensures var mem := i.uop.cls.IsMem();
            var own := OwnGrant(m, After(b, steps), i, s);
            var taken := AllocationAfterAll(granted, AllLaneCalls(cfg, p, inputs, steps, mem));
            FirstFit(taken, m.Width(mem), own.start, None, Some(s.t.start))
  {
    hide RingRun;
    hide FirstFitRun;
    hide FirstFit;
    hide Abstracts;
    hide AllLaneCalls;
    hide AllocationAfterAll;
    var mem := i.uop.cls.IsMem();
    var calls, own := AllLaneCalls(cfg, p, inputs, steps, mem), OwnGrant(m, After(b, steps), i, s);
    RunRefinesFirstFit(b.Lane(mem), granted, m.Width(mem), calls + [own]);
    LastFirstFit(granted, m.Width(mem), calls, own);
  }

  // ---------------------------------------------------------------- the store queue

  predicate StoresTo(u: MicroOp, x: nat) {
    u.cls.Store? && u.addr <= x < u.addr + u.size
  }

  /** Micro-op `j` is the youngest store to the byte at `x`. */
  ghost predicate LastStoreTo(inputs: seq<Input>, j: nat, x: nat) {
    && j < |inputs| && StoresTo(inputs[j].uop, x)
    && forall k :: j < k < |inputs| ==> !StoresTo(inputs[k].uop, x)
  }

  /**
    What store `j` of a run leaves in the queue: it can be forwarded until it is written and all older have
    retired.
  */
  function StoreEntry(cfg: Config, p: Pipe, inputs: seq<Input>, steps: seq<BackStep>, j: nat): StoreByte
    requires j < |inputs| == |steps|
  {
    StoreByte(inputs[j].exec,
              Max(steps[j].t.done, RetireAtFetch(PipelineRuns.Run(p, cfg, inputs[..j]), inputs[j])))
  }

  lemma StepStores(m: Setup, cfg: Config, p: Pipe, b: BackEnd, i: Input, s: BackStep, x: nat)
    requires Steps(m, cfg, p, b, i, s)
    ensures var sq, sq' := b.storeQueue, s.after.storeQueue;
            if StoresTo(i.uop, x) then x in sq' && sq'[x] == StoreByte(i.exec, Max(s.t.done, RetireAtFetch(p, i)))
            else (x in sq' <==> x in sq) && (x in sq ==> sq'[x] == sq[x])
  {
    hide LanesTaken;
    hide MemoryAsked;
    hide Prefetched;
    hide Stepped;
    hide RetireAtFetch;
    hide Ran;
    hide HorizonAfter;
    WrittenAt(b.storeQueue, i.uop.addr, i.uop.size, StoreByte(i.exec, Max(s.t.done, RetireAtFetch(p, i))), x);
  }

  /** The queue holds of each byte its youngest store in the program, and otherwise what it held before. */
  lemma {:induction false} ByteOfRun(m: Setup, cfg: Config, p: Pipe, b: BackEnd, inputs: seq<Input>,
                                     steps: seq<BackStep>, x: nat)
    requires BackRun(m, cfg, p, b, inputs, steps)
    ensures forall j: nat :: LastStoreTo(inputs, j, x) ==>
              && x in After(b, steps).storeQueue
              && After(b, steps).storeQueue[x] == StoreEntry(cfg, p, inputs, steps, j)
    ensures (forall j :: 0 <= j < |inputs| ==> !StoresTo(inputs[j].uop, x)) ==>
              && (x in After(b, steps).storeQueue <==> x in b.storeQueue)
              && (x in b.storeQueue ==> After(b, steps).storeQueue[x] == b.storeQueue[x])
    decreases |inputs|
  {
    hide Steps;
    hide StoresTo;
    hide RetireAtFetch;
    hide PipelineRuns.Run;
    if inputs != [] {
      var n := |inputs| - 1;
      ByteOfRun(m, cfg, p, b, inputs[..n], steps[..n], x);
      StepStores(m, cfg, PipelineRuns.Run(p, cfg, inputs[..n]), After(b, steps[..n]), inputs[n], steps[n], x);
      forall j: nat | LastStoreTo(inputs, j, x)
        ensures x in After(b, steps).storeQueue
        ensures After(b, steps).storeQueue[x] == StoreEntry(cfg, p, inputs, steps, j)
      {
        if j < n {
          assert LastStoreTo(inputs[..n], j, x);
          assert inputs[..n][..j] == inputs[..j];
        }
      }
    }
  }

  lemma StepLoads(m: Setup, cfg: Config, p: Pipe, b: BackEnd, i: Input, s: BackStep)
    requires Steps(m, cfg, p, b, i, s) && i.uop.cls.Load?
    ensures i.uop.size > 0
    ensures i.exec == LoadReady(b.storeQueue, i.uop.addr, i.uop.size, s.t.start + 2, s.t.data)
  {
    hide MemoryAsked;
    hide Prefetched;
    hide Forgets;
    hide Ran;
    hide RunSystem;
    hide LoadReady;
    hide Stepped;
    hide RetireAtFetch;
    hide OperandsReady;
  }

  lemma EntryTime(cfg: Config, p: Pipe, inputs: seq<Input>, steps: seq<BackStep>, j: nat)
    requires j < |inputs| == |steps|
    ensures StoreEntry(cfg, p, inputs, steps, j).exec == inputs[j].exec
  {
  }

  /**
    After any run, a load executes no earlier than any store that it takes a byte from; and when it takes
    them all from one store, it waits for that store alone, however long the cache takes.
  */
  lemma LoadWaitsForStores(m: Setup, cfg: Config, p: Pipe, b: BackEnd, inputs: seq<Input>, steps: seq<BackStep>,
                           i: Input, s: BackStep)
    requires BackRun(m, cfg, p, b, inputs, steps)
    requires Steps(m, cfg, PipelineRuns.Run(p, cfg, inputs), After(b, steps), i, s) && i.uop.cls.Load?
    ensures forall x: nat, j: nat :: i.uop.addr <= x < i.uop.addr + i.uop.size && LastStoreTo(inputs, j, x)
                                     && s.t.start + 2 < StoreEntry(cfg, p, inputs, steps, j).ret ==>
              inputs[j].exec <= i.exec
    ensures forall j: nat :: (forall x: nat :: i.uop.addr <= x < i.uop.addr + i.uop.size ==> LastStoreTo(inputs, j, x))
                             && j < |inputs| && s.t.start + 2 < StoreEntry(cfg, p, inputs, steps, j).ret ==>
              i.exec == Max(s.t.start + 2, inputs[j].exec)
  {
    hide Steps;
    hide RetireAtFetch;
    hide PipelineRuns.Run;
    hide LoadReady;
    hide StoreEntry;
    hide StoresTo;
    var sq, cycle := After(b, steps).storeQueue, s.t.start + 2;
    StepLoads(m, cfg, PipelineRuns.Run(p, cfg, inputs), After(b, steps), i, s);
    LoadReadyIsLatest(sq, i.uop.addr, i.uop.size, cycle, s.t.data);
    forall x: nat, j: nat | i.uop.addr <= x < i.uop.addr + i.uop.size && LastStoreTo(inputs, j, x)
                            && cycle < StoreEntry(cfg, p, inputs, steps, j).ret
      ensures ByteReady(sq, x, cycle, s.t.data) == Max(cycle, inputs[j].exec)
    {
      ByteOfRun(m, cfg, p, b, inputs, steps, x);
      assert StoreEntry(cfg, p, inputs, steps, j).exec == inputs[j].exec by {
        EntryTime(cfg, p, inputs, steps, j);
      }
    }
  }

  // ---------------------------------------------------------------- all together

  /** What a whole run leaves of the lanes, the memory and the store queue. */
  ghost predicate Accounted(m: Setup, cfg: Config, p: Pipe, b: BackEnd, inputs: seq<Input>, steps: seq<BackStep>)
    requires BackRun(m, cfg, p, b, inputs, steps) && b.Ok()
  {
    var after := After(b, steps);
    && (forall mem ::
          && Ran(b.Lane(mem), m.Width(mem), AllLaneCalls(cfg, p, inputs, steps, mem), after.Lane(mem))
          && Limitless(AllLaneCalls(cfg, p, inputs, steps, mem)) == OwnGrants(m, cfg, p, b, inputs, steps, mem))
    && after.sys == RunSystem(b.sys, CacheLevels.MAIN_MEMORY_LATENCY, AllRequests(m.k, cfg, p, inputs, steps))
    && Conserved(b.sys, after.sys)
    && (forall x: nat, j: nat :: LastStoreTo(inputs, j, x) ==>
          x in after.storeQueue && after.storeQueue[x] == StoreEntry(cfg, p, inputs, steps, j))
  }

  lemma SameLength(m: Setup, cfg: Config, p: Pipe, b: BackEnd, inputs: seq<Input>, steps: seq<BackStep>)
    requires BackRun(m, cfg, p, b, inputs, steps)
    ensures |steps| == |inputs|
  {
  }

  lemma RunAccounted(m: Setup, cfg: Config, p: Pipe, b: BackEnd, inputs: seq<Input>, steps: seq<BackStep>)
    requires BackRun(m, cfg, p, b, inputs, steps) && b.Ok()
    ensures Accounted(m, cfg, p, b, inputs, steps)
  {
    hide BackRun;
    hide Ran;
    hide Limitless;
    hide AllLaneCalls;
    hide AllRequests;
    hide OwnGrants;
    hide Conserved;
    hide StoreEntry;
    hide StoresTo;
    SameLength(m, cfg, p, b, inputs, steps);
    forall mem
      ensures Ran(b.Lane(mem), m.Width(mem), AllLaneCalls(cfg, p, inputs, steps, mem), After(b, steps).Lane(mem))
      ensures Limitless(AllLaneCalls(cfg, p, inputs, steps, mem)) == OwnGrants(m, cfg, p, b, inputs, steps, mem)
    {
      RunRunsLanes(m, cfg, p, b, inputs, steps, mem);
      GrantsAreStarts(m, cfg, p, b, inputs, steps, mem);
    }
    RunAsksMemory(m, cfg, p, b, inputs, steps);
    forall x: nat, j: nat | LastStoreTo(inputs, j, x)
      ensures j < |inputs| && x in After(b, steps).storeQueue
      ensures After(b, steps).storeQueue[x] == StoreEntry(cfg, p, inputs, steps, j)
    {
      ByteOfRun(m, cfg, p, b, inputs, steps, x);
    }
  }
}
