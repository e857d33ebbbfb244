/**
  The back end in place: registers, execution lanes, caches, store queue and prefetcher, each a component
  with its own contract, composed as `step` composes them.
*/
module Backends {
  import opened Bits
  import opened CacheLevels
  import opened CacheRuns
  import opened Caches
  import opened Common
  import opened ExecutionRules
  import opened MemorySystems
  import opened MicroOps
  import opened ResourceSchedules
  import opened StoreQueues
  import opened StridePrefetchers
  import opened StrideTables

  class Backend {
    const k: Timing
    const registers: array<nat>
    var storeQueue: map<nat, StoreByte>
    const ldst: ResourceSchedule
    const alu: ResourceSchedule
    const mem: MemorySystem
    const prefetcher: StridePrefetcher

    ghost predicate Separate()
      reads this, ldst, alu
    {
      && ldst != alu && ldst.sched != alu.sched && registers != ldst.sched && registers != alu.sched
      && {this, registers, ldst, ldst.sched, alu, alu.sched, prefetcher, prefetcher.rpt} !! mem.Repr
    }

    ghost function Footprint(): set<object>
      reads this, ldst, alu
    {
      {this, registers, ldst, ldst.sched, alu, alu.sched, prefetcher, prefetcher.rpt, mem} + mem.Repr
    }

    /** The lanes agree on a base cycle that no queued prefetch precedes, and the zero register is always ready. */
    ghost predicate Valid()
      reads this, ldst, alu, Footprint()
    {
      && Separate()
      && registers.Length == RFSIZE && registers[RFZERO] == 0
      && ldst.Valid() && ldst.width > 0
      && alu.Valid() && alu.width > 0
      && ldst.baseCycle == alu.baseCycle
      && prefetcher.Valid()
      && mem.Valid() && Latency(mem.Sys(), Data) > 0
      && QueuedSince(prefetcher.queue, ldst.baseCycle)
    }

    constructor (k: Timing, ldstLanes: nat, aluLanes: nat, c1: Config, c2: Config, c3: Config, ci: Config, entries: nat)
      requires ldstLanes > 0 && aluLanes > 0 && entries > 0
      requires c1.assoc > 0 && c2.assoc > 0 && c3.assoc > 0 && ci.assoc > 0 && ci.latency == 0 && c1.latency > 0
      ensures Valid() && this.k == k && ldst.baseCycle == 0 && registers[..] == seq(RFSIZE, i => 0)
      ensures fresh(ldst) && fresh(ldst.sched) && fresh(alu) && fresh(alu.sched)
      ensures fresh(registers) && fresh(mem.Repr) && fresh(prefetcher) && fresh(prefetcher.rpt)
    {
      hide Cold;
      hide ResourceSchedule.Valid;
      hide StridePrefetcher.Valid;
      hide MemorySystem.Valid;
      hide MemorySystem.Sys;
      hide Level.Ok;
      hide Pow2;
      hide Cache.Valid;
      this.k := k;
      registers := new nat[RFSIZE](i => 0);
      storeQueue := map[];
      mem := new MemorySystem(c1, c2, c3, ci);
      ldst := new ResourceSchedule(ldstLanes);
      alu := new ResourceSchedule(aluLanes);
      prefetcher := new StridePrefetcher(entries);
    }

    /** The back end as a value. */
    ghost function Value(): (b: BackEnd)
      requires Valid()
      reads this, ldst, alu, Footprint()
      ensures b.Ok() && b.registers == registers[..] && b.registers[RFZERO] == 0 && b.ldst.base == ldst.baseCycle
    {
      BackEnd(registers[..], storeQueue, ldst.View(), alu.View(), mem.Sys(), prefetcher.rpt[..], prefetcher.queue)
    }

    ghost function Lanes(): Setup
    {
      Setup(k, ldst.width, alu.width)
    }

    function Lane(u: MicroOp): ResourceSchedule
    {
      if u.cls.IsMem() then ldst else alu
    }

    /** The instruction cache decides when the micro-op is there. */
    method Fetch(pc: nat, f: nat) returns (arrived: nat, ghost reqs: seq<SystemRequest>)
      requires Valid()
      modifies Footprint()
      ensures Valid() && Footprint() == old(Footprint()) && arrived >= f
      ensures reqs == if k.modelIcache then [CodeRequest(f, pc)] else []
      ensures arrived == if k.modelIcache then Avail(old(Value()).sys, CodeRequest(f, pc)) else f
      ensures Value() == old(Value()).(sys := RunSystem(old(Value()).sys, MAIN_MEMORY_LATENCY, reqs))
    {
      hide ResourceSchedule.Valid;
      hide StridePrefetcher.Valid;
      hide MemorySystem.Valid;
      hide MemorySystem.Sys;
      hide Serve;
      hide Avail;
      arrived, reqs := f, [];
      if k.modelIcache {
        reqs := [CodeRequest(f, pc)];
        RunAppend(mem.Sys(), [], CodeRequest(f, pc));
        arrived := mem.Fetch(f, pc);
      }
    }

    // -------------------------------------------------------------- scheduling

    method ReadSources(u: MicroOp, earliest: nat) returns (ready: nat)
      requires registers.Length == RFSIZE && WellFormed(u)
      ensures ready == OperandsReady(registers[..], u, earliest)
    {
      ready := earliest;
      if u.a.valid && u.a.logReg != RFZERO {
        ready := Max(ready, registers[u.a.logReg]);
      }
      if u.b.valid && u.a.logReg != RFZERO {
        ready := Max(ready, registers[u.b.logReg]);
      }
      if u.c.valid && u.a.logReg != RFZERO {
        ready := Max(ready, registers[u.c.logReg]);
      }
    }

    /** The first cycle from `ready` on in which a lane of the right kind is free. */
    method PickLane(u: MicroOp, ready: nat) returns (start: nat)
      requires Valid() && ready >= ldst.baseCycle
      modifies Lane(u)`sched, Lane(u)`depth, Lane(u)`grants, Lane(u).sched
      ensures Valid() && (Lane(u).sched == old(Lane(u).sched) || fresh(Lane(u).sched))
      ensures start >= ready
      ensures Finds(old(Lane(u).sched[..]), Lane(u).baseCycle, Lane(u).width, ready, None, Some(start))
      ensures Ran(old(Lane(u).View()), Lane(u).width, [Grant(ready, None, Some(start))], Lane(u).View())
    {
      hide Finds;
      hide Granted;
      hide Ran;
      hide ResourceSchedule.Valid;
      hide StridePrefetcher.Valid;
      var lane := Lane(u);
      var r := lane.Schedule(ready, None);
      assert r.Some? && r.value >= ready by {
        FindsAfterStart(old(lane.sched[..]), lane.baseCycle, lane.width, ready, r);
      }
      start := r.value;
    }

    /** A load shows the prefetcher where it is. */
    method Prefetching(u: MicroOp, f: nat)
      requires Valid() && WellFormed(u) && u.cls.Load? && f >= ldst.baseCycle
      modifies prefetcher, prefetcher.rpt
      ensures Valid()
      ensures prefetcher.queue == Looked(old(prefetcher.rpt[..]), old(prefetcher.queue), u.pc / 4, f)
      ensures TrainedBy(old(prefetcher.rpt[..]), prefetcher.rpt[..], u.pc / 4, u.addr)
    {
      hide ResourceSchedule.Valid;
      hide MemorySystem.Valid;
      hide MemorySystem.Sys;
      hide TableOk;
      hide TrainedTable;
      LookedSince(prefetcher.rpt[..], prefetcher.queue, u.pc / 4, f, ldst.baseCycle);
      ghost var t := prefetcher.rpt[..];
      prefetcher.Lookahead(u.pc / 4, f);
      ghost var victim := prefetcher.Train(u.pc / 4, u.addr);
      assert t[victim].lru == 0 && prefetcher.rpt[..] == TrainedTable(t, victim, u.pc / 4, u.addr);
    }

    /** A load asks the data cache. */
    method LoadFromCache(u: MicroOp, cycle: nat) returns (data: nat, ghost reqs: seq<SystemRequest>)
      requires Valid()
      modifies mem.Repr
      ensures Valid() && data > cycle
      ensures reqs == if k.perfectCache then [] else [DataRequest(cycle, u.addr, false)]
      ensures data == CacheAnswer(k, old(mem.Sys()), cycle, u.addr)
      ensures mem.Sys() == RunSystem(old(mem.Sys()), MAIN_MEMORY_LATENCY, reqs)
    {
      hide ResourceSchedule.Valid;
      hide StridePrefetcher.Valid;
      hide MemorySystem.Valid;
      hide MemorySystem.Sys;
      hide Serve;
      hide Avail;
      reqs := [];
      if k.perfectCache {
        data := cycle + mem.L1Latency();
      } else {
        reqs := [DataRequest(cycle, u.addr, false)];
        RunAppend(mem.Sys(), [], DataRequest(cycle, u.addr, false));
        data := mem.DataAccess(cycle, u.addr, false);
      }
    }

    /** The loop over a load's bytes. */
    method ForwardStores(addr: nat, n: nat, cycle: nat, data: nat) returns (ready: nat)
      ensures ready == LoadReady(storeQueue, addr, n, cycle, data)
    {
      ready := 0;
      var i := 0;
      while i < n
        invariant i <= n && ready == LoadReady(storeQueue, addr, i, cycle, data)
      {
        if addr + i in storeQueue && cycle < storeQueue[addr + i].ret {
          ready := Max(ready, Max(cycle, storeQueue[addr + i].exec));
        } else {
          ready := Max(ready, data);
        }
        i := i + 1;
      }
    }

    /** When a load that got its lane in cycle `start` has executed. */
    method Load(u: MicroOp, f: nat, start: nat) returns (exec: nat, ghost data: nat, ghost reqs: seq<SystemRequest>)
      requires Valid() && WellFormed(u) && u.cls.Load? && f >= ldst.baseCycle
      modifies prefetcher, prefetcher.rpt, mem.Repr
      ensures Valid()
      ensures data == CacheAnswer(k, old(mem.Sys()), start + 1, u.addr) > start + 1
      ensures exec == LoadReady(storeQueue, u.addr, u.size, start + 2, data) >= start + 2
      ensures reqs == if k.perfectCache then [] else [DataRequest(start + 1, u.addr, false)]
      ensures mem.Sys() == RunSystem(old(mem.Sys()), MAIN_MEMORY_LATENCY, reqs)
      ensures k.prefetch ==>
                && prefetcher.queue == Looked(old(prefetcher.rpt[..]), old(prefetcher.queue), u.pc / 4, f)
                && TrainedBy(old(prefetcher.rpt[..]), prefetcher.rpt[..], u.pc / 4, u.addr)
      ensures !k.prefetch ==> unchanged(prefetcher) && unchanged(prefetcher.rpt)
    {
      hide ResourceSchedule.Valid;
      hide StridePrefetcher.Valid;
      hide MemorySystem.Valid;
      hide MemorySystem.Sys;
      hide Serve;
      hide CacheAnswer;
      hide Looked;
      hide TrainedBy;
      if k.prefetch {
        Prefetching(u, f);
      }
      var answer;
      answer, reqs := LoadFromCache(u, start + 1);
      data := answer;
      LoadReadyAfterSearch(storeQueue, u.addr, u.size, start + 2, answer);
      exec := ForwardStores(u.addr, u.size, start + 2, answer);
    }

    /** Operands, lane, and for a load the cache and the store queue: when the micro-op executes. */
    method Schedule(u: MicroOp, f: nat)
      returns (agen: nat, exec: nat, ghost start: nat, ghost data: nat, ghost reqs: seq<SystemRequest>)
      requires Valid() && WellFormed(u) && f >= ldst.baseCycle
      modifies Lane(u)`sched, Lane(u)`depth, Lane(u)`grants, Lane(u).sched, prefetcher, prefetcher.rpt, mem.Repr
      ensures Valid() && (Lane(u).sched == old(Lane(u).sched) || fresh(Lane(u).sched))
      ensures var ready := OperandsReady(registers[..], u, f + k.fill);
              && ready <= start
              && Finds(old(Lane(u).sched[..]), Lane(u).baseCycle, Lane(u).width, ready, None, Some(start))
              && Ran(old(Lane(u).View()), Lane(u).width, [Grant(ready, None, Some(start))], Lane(u).View())
      ensures CyclesFrom(k, u, start, agen, exec)
      ensures u.cls.Load? ==>
                && data == CacheAnswer(k, old(mem.Sys()), start + 1, u.addr)
                && exec == LoadReady(storeQueue, u.addr, u.size, start + 2, data)
      ensures reqs == if u.cls.Load? && !k.perfectCache then [DataRequest(start + 1, u.addr, false)] else []
      ensures mem.Sys() == RunSystem(old(mem.Sys()), MAIN_MEMORY_LATENCY, reqs)
      ensures u.cls.Load? && k.prefetch ==>
                && prefetcher.queue == Looked(old(prefetcher.rpt[..]), old(prefetcher.queue), u.pc / 4, f)
                && TrainedBy(old(prefetcher.rpt[..]), prefetcher.rpt[..], u.pc / 4, u.addr)
      ensures !(u.cls.Load? && k.prefetch) ==> unchanged(prefetcher) && unchanged(prefetcher.rpt)
    {
      hide Finds;
      hide Ran;
      hide ResourceSchedule.Valid;
      hide StridePrefetcher.Valid;
      hide MemorySystem.Valid;
      hide MemorySystem.Sys;
      hide Serve;
      hide CacheAnswer;
      hide OperandsReady;
      hide Looked;
      hide TrainedBy;
      hide LoadReady;
      var ready := ReadSources(u, f + k.fill);
      var lane := PickLane(u, ready);
      start, reqs, data := lane, [], 0;
      agen := if u.cls.IsMem() then lane + 1 else NEVER;
      if u.cls.Load? {
        exec, data, reqs := Load(u, f, lane);
      } else {
        exec := lane + ExecLatency(k, u);
      }
    }

    // -------------------------------------------------------------- draining prefetches

    /** Asks for a lane that is free in cycle `c`; earlier tries only made the ring grow. */
    method TryCycle(c: nat, ghost slots: seq<nat>, ghost last: nat) returns (at: Option<nat>)
      requires Valid() && ldst.baseCycle <= last <= c
      requires |slots| > 0 && |slots| % SCHED_DEPTH_INCREMENT == 0
      requires ldst.sched[..] == Grown(slots, DepthAt(|slots|, ldst.baseCycle, last))
      modifies ldst`sched, ldst`depth, ldst`grants, ldst.sched
      ensures Valid() && (ldst.sched == old(ldst.sched) || fresh(ldst.sched))
      ensures at.Some? ==> at.value == c && ldst.sched[..] == Granted(slots, ldst.baseCycle, c)
      ensures at.None? ==> ldst.sched[..] == Grown(slots, DepthAt(|slots|, ldst.baseCycle, c))
      ensures at.Some? <==> Seen(slots, ldst.baseCycle, c) < ldst.width
    {
      hide Seen;
      hide DepthAt;
      hide Granted;
      hide Grown;
      hide Ran;
      hide StridePrefetcher.Valid;
      hide ResourceSchedule.Valid;
      hide MemorySystem.Valid;
      hide MemorySystem.Sys;
      SeenAfterGrowth(slots, ldst.baseCycle, last, c);
      at := ldst.Schedule(c, Some(0));
    }

    /** Tries every cycle up to now for a lane that is free in that very cycle: together, one bounded search. */
    method PlacePrefetch(p: Prefetch, prev: nat, f: nat) returns (at: Option<nat>)
      requires Valid() && p.cycle >= ldst.baseCycle && prev <= f && p.cycle <= f
      modifies ldst`sched, ldst`depth, ldst`grants, ldst.sched
      ensures Valid() && (ldst.sched == old(ldst.sched) || fresh(ldst.sched))
      ensures at.Some? ==> Max(prev, p.cycle) <= at.value <= f
      ensures Ran(old(ldst.View()), ldst.width, [Placed(p, prev, f, at)], ldst.View())
    {
      hide Seen;
      hide DepthAt;
      hide Granted;
      hide Grown;
      hide Ran;
      hide StridePrefetcher.Valid;
      ghost var slots, base := ldst.sched[..], ldst.baseCycle;
      assert |slots| > 0 && |slots| % SCHED_DEPTH_INCREMENT == 0;
      hide ResourceSchedule.Valid;
      hide MemorySystem.Valid;
      hide MemorySystem.Sys;
      hide QueuedSince;
      var c := Max(prev, p.cycle);
      ghost var start, last := c, base;
      NothingGrown(slots, base);
      at := None;
      while c <= f && at.None?
        invariant base <= last <= c && start <= c <= f + 1
        invariant Valid() && (ldst.sched == old(ldst.sched) || fresh(ldst.sched)) && ldst.baseCycle == base
        invariant AllBusy(slots, base, ldst.width, start, c)
        invariant at.None? ==>
                  ldst.sched[..] == Grown(slots, DepthAt(|slots|, base, last)) && (c > start ==> last == c - 1)
        invariant at.Some? ==>
                    at.value == c <= f && Seen(slots, base, c) < ldst.width && ldst.sched[..] == Granted(slots, base, c)
        decreases f + 1 - c, at.None?
      {
        at := TryCycle(c, slots, last);
        last := c;
        if at.None? {
          c := c + 1;
        }
      }
      GrantRan(slots, base, ldst.width, start, Some(f - start), at);
    }

    /** A placed prefetch goes to the data cache, any other back to the queue. */
    method ServePrefetch(p: Prefetch, prev: nat, f: nat) returns (at: Option<nat>)
      requires Valid() && p.cycle >= ldst.baseCycle && prev <= f && p.cycle <= f && QueueOk([p] + prefetcher.queue)
      modifies ldst`sched, ldst`depth, ldst`grants, ldst.sched, mem.Repr, prefetcher`queue, prefetcher`putBack
      ensures Valid() && (ldst.sched == old(ldst.sched) || fresh(ldst.sched))
      ensures prefetcher.queue == if at.None? then [p] + old(prefetcher.queue) else old(prefetcher.queue)
      ensures at.Some? ==> Max(prev, p.cycle) <= at.value <= f
      ensures Ran(old(ldst.View()), ldst.width, [Placed(p, prev, f, at)], ldst.View())
      ensures mem.Sys() == if at.None? then old(mem.Sys())
                           else Serve(old(mem.Sys()), MAIN_MEMORY_LATENCY, DataRequest(at.value, p.address, true))
    {
      hide Ran;
      hide ResourceSchedule.Valid;
      hide StridePrefetcher.Valid;
      hide MemorySystem.Valid;
      hide MemorySystem.Sys;
      hide Serve;
      hide Avail;
      hide QueueOk;
      at := PlacePrefetch(p, prev, f);
      if at.Some? {
        var avail := mem.DataAccess(at.value, p.address, true);
      } else {
        prefetcher.PutBack(p);
      }
    }

    /** One call of `issue`; the first one drops what is stale. */
    method NextDue(prev: nat, f: nat, ghost queue0: seq<Prefetch>, ghost stale: seq<Prefetch>,
                   ghost served: seq<Served>)
      returns (p: Option<Prefetch>, ghost stale': seq<Prefetch>)
      requires prefetcher.Valid() && Draining(queue0, stale, served, prefetcher.queue, prev, f)
      modifies prefetcher`queue, prefetcher`issued, prefetcher`droppedUntimely
      ensures prefetcher.Valid()
      ensures forall x :: x in prefetcher.queue ==> x in old(prefetcher.queue)
      ensures |prefetcher.queue| + (if p.Some? then 1 else 0) <= old(|prefetcher.queue|)
      ensures p.None? ==>
                && Drained(queue0, stale', served, prefetcher.queue, prev, f)
                && (prefetcher.queue == [] || prefetcher.queue[0].cycle > f)
      ensures p.Some? ==>
                && Drained(queue0, stale', served, [p.value] + prefetcher.queue, prev, f)
                && p.value in old(prefetcher.queue) && p.value.cycle <= f
                && QueueOk([p.value] + prefetcher.queue)
    {
      hide TableOk;
      hide Drained;
      hide Draining;
      hide Prefetch.Stale;
      ghost var before, dropped := prefetcher.queue, prefetcher.droppedUntimely;
      p := prefetcher.Issue(f);
      dropped := prefetcher.droppedUntimely - dropped;
      ghost var live := before[dropped..];
      stale' := DroppedStale(queue0, stale, served, before, dropped, prev, f);
      SuffixOk(before, dropped);
      assert forall x :: x in live ==> x in before;
      assert p.Some? ==> live == [p.value] + prefetcher.queue;
    }

    /** Serves the queue in order, until it is empty, nothing is due, or a prefetch finds no lane. */
    method Drain(prev: nat, f: nat) returns (ghost stale: seq<Prefetch>, ghost served: seq<Served>)
      requires Valid() && prev <= f
      modifies prefetcher`queue, prefetcher`issued, prefetcher`droppedUntimely, prefetcher`putBack
      modifies ldst`sched, ldst`depth, ldst`grants, ldst.sched, mem.Repr
      ensures Valid() && (ldst.sched == old(ldst.sched) || fresh(ldst.sched))
      ensures Drained(old(prefetcher.queue), stale, served, prefetcher.queue, prev, f) && Due(served, f)
      ensures Ran(old(ldst.View()), ldst.width, DrainCalls(served, prefetcher.queue, prev, f), ldst.View())
      ensures mem.Sys() == RunSystem(old(mem.Sys()), MAIN_MEMORY_LATENCY, Requests(served))
    {
      hide Ran;
      hide ResourceSchedule.Valid;
      hide StridePrefetcher.Valid;
      hide MemorySystem.Valid;
      hide MemorySystem.Sys;
      hide Serve;
      hide Drained;
      hide QueueOk;
      hide Requests;
      hide ServedCalls;
      hide Due;
      ghost var queue0, sys, ring := prefetcher.queue, mem.Sys(), ldst.View();
      stale, served := [], [];
      ghost var calls: seq<Call> := [];
      var going := true;
      NothingDrained(ring, ldst.width, prev, f);
      while going
        invariant Valid() && (ldst.sched == old(ldst.sched) || fresh(ldst.sched))
                  && ldst.baseCycle == old(ldst.baseCycle)
        invariant Draining(queue0, stale, served, prefetcher.queue, prev, f) && Due(served, f)
        invariant Ran(ring, ldst.width, calls, ldst.View())
        invariant mem.Sys() == RunSystem(sys, MAIN_MEMORY_LATENCY, Requests(served))
        invariant going ==> calls == ServedCalls(served, prev, f)
        invariant !going ==>
                    && Drained(queue0, stale, served, prefetcher.queue, prev, f)
                    && calls == DrainCalls(served, prefetcher.queue, prev, f)
        decreases |prefetcher.queue|, going
      {
        var p;
        p, stale := NextDue(prev, f, queue0, stale, served);
        if p.None? {
          going := false;
        } else {
          ghost var before := ldst.View();
          var at := ServePrefetch(p.value, prev, f);
          RanConcat(ring, ldst.width, calls, before, [Placed(p.value, prev, f, at)], ldst.View());
          calls := calls + [Placed(p.value, prev, f, at)];
          if at.Some? {
            ServedOne(queue0, stale, served, p.value, prefetcher.queue, at.value, prev, f);
            ServedCallsGrow(served, p.value, at.value, prev, f);
            RunAppend(sys, Requests(served), DataRequest(at.value, p.value.address, true));
            served := served + [Served(p.value, at.value)];
          } else {
            going := false;
          }
        }
      }
    }

    // -------------------------------------------------------------- results

    /** The loop over a store's bytes. */
    method RecordStore(addr: nat, n: nat, b: StoreByte)
      modifies this`storeQueue
      ensures storeQueue == Written(old(storeQueue), addr, n, b)
    {
      var i := 0;
      while i < n
        invariant i <= n && storeQueue == Written(old(storeQueue), addr, i, b)
      {
        storeQueue := storeQueue[addr + i := b];
        i := i + 1;
      }
    }

    /** The destination register, and for a store its bytes. */
    method WriteBack(u: MicroOp, exec: nat, lastRetire: nat) returns (ghost done: nat, ghost reqs: seq<SystemRequest>)
      requires Valid() && WellFormed(u)
      modifies this`storeQueue, registers, mem.Repr
      ensures Valid()
      ensures registers[..] == Wrote(old(registers[..]), u, exec)
      ensures storeQueue == if u.cls.Store?
                            then Written(old(storeQueue), u.addr, u.size, StoreByte(exec, Max(done, lastRetire)))
                            else old(storeQueue)
      ensures u.cls.Store? ==> done == StoreAnswer(k, old(mem.Sys()), exec, u.addr)
      ensures reqs == if u.cls.Store? && k.writeAllocate && !k.perfectCache
                      then [DataRequest(exec, u.addr, false)] else []
      ensures mem.Sys() == RunSystem(old(mem.Sys()), MAIN_MEMORY_LATENCY, reqs)
    {
      hide ResourceSchedule.Valid;
      hide StridePrefetcher.Valid;
      hide MemorySystem.Valid;
      hide MemorySystem.Sys;
      hide Serve;
      hide Avail;
      done, reqs := 0, [];
      if u.d.valid && u.d.logReg != RFZERO {
        registers[u.d.logReg] := exec;
      }
      if u.cls.Store? {
        var answer := exec;
        if k.writeAllocate && !k.perfectCache {
          RunAppend(mem.Sys(), [], DataRequest(exec, u.addr, false));
          answer := mem.DataAccess(exec, u.addr, false);
          reqs := [DataRequest(exec, u.addr, false)];
        }
        done := answer;
        RecordStore(u.addr, u.size, StoreByte(exec, Max(answer, lastRetire)));
      }
    }

    // -------------------------------------------------------------- one micro-op

    /** Scheduling, and then the prefetches that can still use a lane. */
    method ScheduleAndDrain(u: MicroOp, f: nat, prev: nat) returns (agen: nat, exec: nat, ghost t: Trace)
      requires Valid() && WellFormed(u) && ldst.baseCycle <= f && prev <= f
      modifies ldst, ldst.sched, alu, alu.sched, prefetcher, prefetcher.rpt, mem.Repr
      ensures Valid() && ldst.baseCycle == old(ldst.baseCycle)
      ensures fresh(Footprint() - old(Footprint()))
      ensures LanesTaken(Lanes(), u, f, prev, old(Value()), t, Value())
      ensures Prefetched(Lanes(), u, f, prev, old(Value()), t, Value())
      ensures CyclesFrom(k, u, t.start, agen, exec)
      ensures t.data == if u.cls.Load? then CacheAnswer(k, old(mem.Sys()), t.start + 1, u.addr) else 0
      ensures u.cls.Load? ==> exec == LoadReady(storeQueue, u.addr, u.size, t.start + 2, t.data)
      ensures mem.Sys() == RunSystem(old(mem.Sys()), MAIN_MEMORY_LATENCY, RequestsBefore(k, u, t))
    {
      hide Finds;
      hide Ran;
      hide WellFormed;
      hide ResourceSchedule.Valid;
      hide StridePrefetcher.Valid;
      hide MemorySystem.Valid;
      hide MemorySystem.Sys;
      hide RunSystem;
      hide CacheAnswer;
      hide OperandsReady;
      hide Looked;
      hide TrainedBy;
      hide Drained;
      hide DrainCalls;
      hide LoadReady;
      hide Requests;
      hide QueuedSince;
      hide CyclesFrom;
      hide Due;
      hide ResourceSchedule.View;
      hide Latency;
      hide System.Ok;
      ghost var sys, ring, other := mem.Sys(), ldst.View(), alu.View();
      ghost var ready := OperandsReady(registers[..], u, f + k.fill);
      ghost var start, data, reqs;
      agen, exec, start, data, reqs := Schedule(u, f);
      ghost var issued: seq<Call> := if u.cls.IsMem() then [Grant(ready, None, Some(start))] else [];
      ghost var computed: seq<Call> := if u.cls.IsMem() then [] else [Grant(ready, None, Some(start))];
      RanNothing(ring, ldst.width);
      RanNothing(other, alu.width);
      ghost var stale, served := [], [];
      ghost var drained: seq<Call> := [];
      ghost var mid := ldst.View();
      NothingDrained(mid, ldst.width, prev, f);
      if k.prefetch {
        stale, served := Drain(prev, f);
        drained := DrainCalls(served, prefetcher.queue, prev, f);
      } else {
        assert reqs + Requests(served) == reqs;
      }
      RanConcat(ring, ldst.width, issued, mid, drained, ldst.View());
      RunConcat(sys, reqs, Requests(served));
      t := Trace(start, if u.cls.Load? then data else 0, stale, served, 0, issued + drained, computed);
    }

    /** What the body of `step` does for one micro-op between fetching it and putting it into the window. */
    method Execute(u: MicroOp, f: nat, prev: nat, lastRetire: nat) returns (agen: nat, exec: nat, ghost t: Trace)
      requires Valid() && WellFormed(u) && ldst.baseCycle <= f && prev <= f
      modifies Footprint()
      ensures Valid() && ldst.baseCycle == old(ldst.baseCycle)
      ensures fresh(Footprint() - old(Footprint()))
      ensures Executed(Lanes(), u, f, prev, lastRetire, old(Value()), agen, exec, t, Value())
    {
      hide Ran;
      hide WellFormed;
      hide ResourceSchedule.Valid;
      hide StridePrefetcher.Valid;
      hide MemorySystem.Valid;
      hide MemorySystem.Sys;
      hide RunSystem;
      hide CacheAnswer;
      hide StoreAnswer;
      hide OperandsReady;
      hide Looked;
      hide TrainedBy;
      hide Drained;
      hide DrainCalls;
      hide LoadReady;
      hide Written;
      hide Wrote;
      hide Requests;
      hide RequestsBefore;
      hide QueuedSince;
      hide CyclesFrom;
      hide Due;
      hide LanesTaken;
      hide Prefetched;
      hide Executed;
      ghost var b := Value();
      agen, exec, t := ScheduleAndDrain(u, f, prev);
      ghost var mid, reqs := Value(), RequestsBefore(k, u, t);
      ghost var done, written := WriteBack(u, exec, lastRetire);
      RunConcat(b.sys, reqs, written);
      done := if u.cls.Store? then done else 0;
      ExecutedInTwo(Lanes(), u, f, prev, lastRetire, b, agen, exec, t, mid, done, Value());
      t := t.(done := done);
    }

    // -------------------------------------------------------------- the horizon

    /** Both lane schedules forget the cycles before the horizon, which never moves back. */
    method AdvanceLanes(f: nat)
      requires Valid() && f >= ldst.baseCycle
      modifies Footprint()
      ensures Valid() && Footprint() == old(Footprint())
      ensures old(ldst.baseCycle) <= ldst.baseCycle == HorizonOf(old(Value()).queue, f)
      ensures Forgets(Lanes(), old(Value()), ldst.baseCycle, Value())
    {
      hide Cleared;
      hide Ran;
      hide Sum;
      hide TableOk;
      hide MemorySystem.Valid;
      hide MemorySystem.Sys;
      var oldest := prefetcher.OldestCycle();
      var h := if oldest.Some? then Min(f, oldest.value) else f;
      HorizonIs(prefetcher.queue, f, oldest);
      hide StridePrefetcher.Valid;
      ldst.AdvanceBaseCycle(h);
      alu.AdvanceBaseCycle(h);
    }
  }
}
