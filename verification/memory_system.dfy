/** The data and instruction caches of the simulator in front of the second level they share. */
module MemorySystems {
  import opened CacheLevels
  import opened Caches
  import opened CacheRuns

  function DataRequest(cycle: nat, addr: nat, pf: bool): SystemRequest {
    SystemRequest(Data, Request(cycle, addr, pf))
  }

  function CodeRequest(cycle: nat, pc: nat): SystemRequest {
    SystemRequest(Instruction, Request(cycle, pc, false))
  }

  /** When the block of a request is there. */
  ghost function Avail(sys: System, r: SystemRequest): nat
    requires sys.Ok()
  {
    Access([if r.port.Data? then sys.l1 else sys.ic] + sys.shared, MAIN_MEMORY_LATENCY, r.req.cycle, r.req.addr,
        r.req.pf).avail
  }

  ghost function Latency(sys: System, port: Port): nat {
    if port.Data? then sys.l1.cfg.latency else sys.ic.cfg.latency
  }

  /** An access is never answered before the first level has been searched. */
  lemma {:induction false} SearchTakesTime(chain: seq<Level>, memory: nat, cycle: nat, addr: nat, pf: bool)
    requires ChainOk(chain)
    ensures var r := Access(chain, memory, cycle, addr, pf);
            && r.avail >= cycle + (if chain == [] then memory else chain[0].cfg.latency)
            && forall i :: 0 <= i < |chain| ==> r.chain[i].cfg == chain[i].cfg
    decreases |chain|
  {
    hide Level.After;
    hide Level.Arrival;
    hide Level.Holds;
    if chain != [] {
      SearchTakesTime(chain[1..], memory, cycle + chain[0].cfg.latency, addr, pf);
      var below := Access(chain[1..], memory, cycle + chain[0].cfg.latency, addr, pf);
      assert forall i :: 0 <= i < |below.chain| ==> below.chain[i].cfg == chain[1..][i].cfg;
    }
  }

  lemma AvailAfterSearch(sys: System, r: SystemRequest)
    requires sys.Ok()
    ensures Avail(sys, r) >= r.req.cycle + Latency(sys, r.port)
    ensures Latency(Serve(sys, MAIN_MEMORY_LATENCY, r), r.port) == Latency(sys, r.port)
  {
    hide Level.Ok;
    hide Level.After;
    hide Level.Arrival;
    hide Level.Holds;
    hide Access;
    var chain := [if r.port.Data? then sys.l1 else sys.ic] + sys.shared;
    SearchTakesTime(chain, MAIN_MEMORY_LATENCY, r.req.cycle, r.req.addr, r.req.pf);
  }

  lemma {:induction false} RunAppend(sys: System, reqs: seq<SystemRequest>, r: SystemRequest)
    requires sys.Ok()
    ensures RunSystem(sys, MAIN_MEMORY_LATENCY, reqs + [r])
            == Serve(RunSystem(sys, MAIN_MEMORY_LATENCY, reqs), MAIN_MEMORY_LATENCY, r)
    decreases |reqs|
  {
    hide Serve;
    hide Level.Ok;
    if reqs != [] {
      assert (reqs + [r])[1..] == reqs[1..] + [r];
      RunAppend(Serve(sys, MAIN_MEMORY_LATENCY, reqs[0]), reqs[1..], r);
    }
  }

  lemma {:induction false} RunConcat(sys: System, a: seq<SystemRequest>, b: seq<SystemRequest>)
    requires sys.Ok()
    ensures RunSystem(sys, MAIN_MEMORY_LATENCY, a + b)
            == RunSystem(RunSystem(sys, MAIN_MEMORY_LATENCY, a), MAIN_MEMORY_LATENCY, b)
    decreases |a|
  {
    hide Serve;
    hide Level.Ok;
    if a != [] {
      assert (a + b)[1..] == a[1..] + b;
      RunConcat(Serve(sys, MAIN_MEMORY_LATENCY, a[0]), a[1..], b);
    } else {
      assert a + b == b;
    }
  }

  class MemorySystem {
    const l1: Cache
    const ic: Cache
    ghost const Repr: set<object>

    ghost predicate Valid()
      reads this, Repr
      ensures Valid() ==> this in Repr
    {
      && this in Repr
      && l1 in Repr && l1.Repr <= Repr && this !in l1.Repr && l1.Valid()
      && ic in Repr && ic.Repr <= Repr && this !in ic.Repr && ic.Valid()
      && l1.next == ic.next
      && l1 !in ic.Repr && l1.blocks !in ic.Repr && ic !in l1.Repr && ic.blocks !in l1.Repr
    }

    ghost function Sys(): (s: System)
      requires Valid()
      reads this, Repr
      ensures s.Ok()
    {
      System(l1.Here(), ic.Here(), l1.Below())
    }

    function L1Latency(): (l: nat)
      requires Valid()
      reads this, Repr
      ensures l == Latency(Sys(), Data)
    {
      l1.cfg.latency
    }

    /** L1 and the instruction cache both ask the same L2, which asks L3; the instruction cache hits for free. */
    constructor (c1: Config, c2: Config, c3: Config, ci: Config)
      requires c1.assoc > 0 && c2.assoc > 0 && c3.assoc > 0 && ci.assoc > 0 && ci.latency == 0
      ensures Valid() && fresh(Repr)
      ensures Cold(Sys().l1) && Cold(Sys().ic) && |Sys().shared| == 2
      ensures Sys().l1.cfg == c1 && Sys().ic.cfg == ci && Sys().shared[0].cfg == c2 && Sys().shared[1].cfg == c3
    {
      hide Cache.ValidHere;
      var l2 := LowerLevels(c2, c3);
      hide Cache.Chain;
      ghost var shared := l2.Chain();
      var first := new Cache(c1, l2, 0, 0);
      var code := new Cache(ci, l2, 0, 0);
      l1, ic := first, code;
      Repr := {this} + first.Repr + code.Repr;
      new;
      assert l1.Below() == shared;
    }

    static method LowerLevels(c2: Config, c3: Config) returns (l2: Cache)
      requires c2.assoc > 0 && c3.assoc > 0
      ensures l2.Valid() && fresh(l2.Repr)
      ensures |l2.Chain()| == 2 && l2.Chain()[0].cfg == c2 && l2.Chain()[1].cfg == c3
    {
      hide Cache.ValidHere;
      var l3 := new Cache(c3, null, 0, 0);
      assert l3.Below() == [];
      l2 := new Cache(c2, l3, 0, 0);
      assert l3.Valid() && l2.Below() == l3.Chain();
      assert l3.Chain() == [l3.Here()];
    }

    /** An access of the data cache, by a load, a store or a prefetch. */
    method DataAccess(cycle: nat, addr: nat, pf: bool) returns (avail: nat)
      requires Valid()
      modifies Repr
      ensures Valid()
      ensures avail == Avail(old(Sys()), DataRequest(cycle, addr, pf))
      ensures Sys() == Serve(old(Sys()), MAIN_MEMORY_LATENCY, DataRequest(cycle, addr, pf))
      ensures avail >= cycle + Latency(old(Sys()), Data) && Latency(Sys(), Data) == Latency(old(Sys()), Data)
    {
      hide Access;
      hide Cache.ValidHere;
      hide Level.Ok;
      ghost var before := Sys();
      AvailAfterSearch(before, DataRequest(cycle, addr, pf));
      assert l1.Chain() == [before.l1] + before.shared;
      avail := l1.Access(cycle, addr, pf);
      assert l1.Chain()[1..] == l1.Below();
    }

    /** An access of the instruction cache. */
    method Fetch(cycle: nat, pc: nat) returns (avail: nat)
      requires Valid()
      modifies Repr
      ensures Valid()
      ensures avail == Avail(old(Sys()), CodeRequest(cycle, pc))
      ensures Sys() == Serve(old(Sys()), MAIN_MEMORY_LATENCY, CodeRequest(cycle, pc))
      ensures avail >= cycle + Latency(old(Sys()), Instruction) && Latency(Sys(), Data) == Latency(old(Sys()), Data)
    {
      hide Access;
      hide Cache.ValidHere;
      hide Level.Ok;
      ghost var before := Sys();
      AvailAfterSearch(before, CodeRequest(cycle, pc));
      assert ic.Chain() == [before.ic] + before.shared;
      avail := ic.Access(cycle, pc, false);
      assert ic.Chain()[1..] == ic.Below();
    }
  }
}
