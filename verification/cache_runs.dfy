/**
  Whole runs of the cache hierarchy: which accesses hit, what more ways change, and how the counts of
  the levels balance when the data and instruction caches share the levels below them.
*/
module CacheRuns {
  import opened Bits
  import opened LruSets
  import opened CacheLevels

  datatype Request = Request(cycle: nat, addr: nat, pf: bool)

  ghost function Run(chain: seq<Level>, memory: nat, reqs: seq<Request>): (c: seq<Level>)
    requires ChainOk(chain)
    ensures |c| == |chain| && ChainOk(c)
  {
    if reqs == [] then chain
    else
      var r := reqs[|reqs| - 1];
      Access(Run(chain, memory, reqs[..|reqs| - 1]), memory, r.cycle, r.addr, r.pf).chain
  }

  /** The tags that the requests so far used in one set, oldest first. */
  function SetTrace(cfg: Config, reqs: seq<Request>, index: nat): seq<nat> {
    if reqs == [] then []
    else
      var before, addr := SetTrace(cfg, reqs[..|reqs| - 1], index), reqs[|reqs| - 1].addr;
      if cfg.Index(addr) == index then before + [cfg.Tag(addr)] else before
  }

  ghost predicate Follows(l: Level, cfg: Config, reqs: seq<Request>) {
    && l.Ok() && l.cfg == cfg
    && forall s :: 0 <= s < |l.sets| ==> Tags(l.sets[s]) == Contents(SetTrace(cfg, reqs, s), cfg.assoc)
  }

  ghost predicate Cold(l: Level) {
    l.Ok() && forall s :: 0 <= s < |l.sets| ==> l.sets[s] == []
  }

  lemma AfterFollows(l: Level, reqs: seq<Request>, r: Request, avail: nat)
    requires Follows(l, l.cfg, reqs)
    ensures Follows(l.After(r.addr, r.pf, avail), l.cfg, reqs + [r])
    ensures l.Holds(r.addr) <==>
            var trace := SetTrace(l.cfg, reqs, l.cfg.Index(r.addr));
            l.cfg.Tag(r.addr) in trace && |UsedSince(trace, l.cfg.Tag(r.addr))| < l.cfg.assoc
  {
    hide Low;
    hide Shr;
    hide Contents;
    hide UsedSince;
    hide Accessed;
    assert (reqs + [r])[..|reqs|] == reqs;
    var index := l.cfg.Index(r.addr);
    AccessExtendsTrace(l.sets[index], SetTrace(l.cfg, reqs, index), l.cfg.assoc, Line(l.cfg.Tag(r.addr), avail));
  }

  lemma AccessFollows(chain: seq<Level>, memory: nat, reqs: seq<Request>, r: Request)
    requires chain != [] && ChainOk(chain) && Follows(chain[0], chain[0].cfg, reqs)
    ensures Follows(Access(chain, memory, r.cycle, r.addr, r.pf).chain[0], chain[0].cfg, reqs + [r])
  {
    hide Level.After;
    hide Follows;
    var l := chain[0];
    assert Follows(l, l.cfg, reqs) && l.Ok();
    if l.Holds(r.addr) {
      AfterFollows(l, reqs, r, l.Arrival(r.addr));
    } else {
      AfterFollows(l, reqs, r, Access(chain[1..], memory, r.cycle + l.cfg.latency, r.addr, r.pf).avail);
    }
  }

  lemma {:induction false} RunFollows(chain: seq<Level>, memory: nat, reqs: seq<Request>)
    requires chain != [] && ChainOk(chain) && Cold(chain[0])
    ensures Follows(Run(chain, memory, reqs)[0], chain[0].cfg, reqs)
  {
    hide Access;
    if reqs == [] {
      forall s | 0 <= s < |chain[0].sets|
        ensures Tags(chain[0].sets[s]) == Contents(SetTrace(chain[0].cfg, reqs, s), chain[0].cfg.assoc)
      {
      }
    } else {
      var n := |reqs| - 1;
      RunFollows(chain, memory, reqs[..n]);
      assert reqs[..n] + [reqs[n]] == reqs;
      AccessFollows(Run(chain, memory, reqs[..n]), memory, reqs[..n], reqs[n]);
    }
  }

  /**
    After any requests to a cold hierarchy, the first level holds a block exactly when the block was
    requested before and fewer distinct blocks of its set than ways were requested since.
  */
  lemma HoldsIffRecent(chain: seq<Level>, memory: nat, reqs: seq<Request>, addr: nat)
    requires chain != [] && ChainOk(chain) && Cold(chain[0])
    ensures var cfg := chain[0].cfg;
            var trace := SetTrace(cfg, reqs, cfg.Index(addr));
            Run(chain, memory, reqs)[0].Holds(addr) <==>
            cfg.Tag(addr) in trace && |UsedSince(trace, cfg.Tag(addr))| < cfg.assoc
  {
    RunFollows(chain, memory, reqs);
    AfterFollows(Run(chain, memory, reqs)[0], reqs, Request(0, addr, false), 0);
  }

  lemma {:induction false} SameTrace(cfg: Config, wider: Config, reqs: seq<Request>, index: nat)
    requires wider.(assoc := cfg.assoc) == cfg
    ensures SetTrace(cfg, reqs, index) == SetTrace(wider, reqs, index)
  {
    if reqs != [] {
      SameTrace(cfg, wider, reqs[..|reqs| - 1], index);
    }
  }

  /** With the sets unchanged, more ways never turn a hit into a miss, in any run. */
  lemma MoreWaysNeverHurt(chain: seq<Level>, wider: seq<Level>, memory: nat, reqs: seq<Request>, addr: nat)
    requires chain != [] && ChainOk(chain) && Cold(chain[0])
    requires wider != [] && ChainOk(wider) && Cold(wider[0])
    requires wider[0].cfg.(assoc := chain[0].cfg.assoc) == chain[0].cfg
    requires chain[0].cfg.assoc <= wider[0].cfg.assoc
    ensures Run(chain, memory, reqs)[0].Holds(addr) ==> Run(wider, memory, reqs)[0].Holds(addr)
  {
    hide UsedSince;
    hide Low;
    hide Shr;
    HoldsIffRecent(chain, memory, reqs, addr);
    HoldsIffRecent(wider, memory, reqs, addr);
    SameTrace(chain[0].cfg, wider[0].cfg, reqs, chain[0].cfg.Index(addr));
  }

  lemma {:induction false} SplitUnique(x: nat, y: nat, k: nat)
    ensures Low(x, k) == Low(y, k) && Shr(x, k) == Shr(y, k) <==> x == y
  {
    if k > 0 {
      hide Low;
      LowStep(x, k);
      LowStep(y, k);
      SplitUnique(x / 2, y / 2, k - 1);
    } else {
      assert Low(x, 0) == 0 && Low(y, 0) == 0;
    }
  }

  /** Two addresses share set and tag exactly when they lie in the same block. */
  lemma SetAndTagNameTheBlock(cfg: Config, a: nat, b: nat)
    ensures cfg.Index(a) == cfg.Index(b) && cfg.Tag(a) == cfg.Tag(b) <==> cfg.BlockOf(a) == cfg.BlockOf(b)
  {
    SplitUnique(cfg.BlockOf(a), cfg.BlockOf(b), cfg.indexBits);
  }

  // ---------------------------------------------------------------- the simulator's arrangement

  datatype Port = Data | Instruction

  /** L1 and the instruction cache each sit in front of the same lower levels. */
  datatype System = System(l1: Level, ic: Level, shared: seq<Level>) {
    ghost predicate Ok() {
      l1.Ok() && ic.Ok() && ChainOk(shared)
    }
  }

  datatype SystemRequest = SystemRequest(port: Port, req: Request)

  ghost function Serve(sys: System, memory: nat, r: SystemRequest): (s: System)
    requires sys.Ok()
    ensures s.Ok() && |s.shared| == |sys.shared|
  {
    var first := if r.port.Data? then sys.l1 else sys.ic;
    var after := Access([first] + sys.shared, memory, r.req.cycle, r.req.addr, r.req.pf).chain;
    if r.port.Data? then System(after[0], sys.ic, after[1..]) else System(sys.l1, after[0], after[1..])
  }

  ghost function RunSystem(sys: System, memory: nat, reqs: seq<SystemRequest>): (s: System)
    requires sys.Ok()
    ensures s.Ok() && |s.shared| == |sys.shared|
    decreases |reqs|
  {
    if reqs == [] then sys else RunSystem(Serve(sys, memory, reqs[0]), memory, reqs[1..])
  }

  /** Level i of the shared part is accessed once for each miss of what sits in front of it. */
  ghost predicate Conserved(a: System, b: System) {
    && |a.shared| == |b.shared|
    && Balanced(a.shared, b.shared)
    && (a.shared != [] ==>
          && b.shared[0].accesses - a.shared[0].accesses
               == (b.l1.misses - a.l1.misses) + (b.ic.misses - a.ic.misses)
          && b.shared[0].pfAccesses - a.shared[0].pfAccesses
               == (b.l1.pfMisses - a.l1.pfMisses) + (b.ic.pfMisses - a.ic.pfMisses))
  }

  lemma ServeConserves(sys: System, memory: nat, r: SystemRequest)
    requires sys.Ok()
    ensures Conserved(sys, Serve(sys, memory, r))
  {
    hide Access;
    hide Level.Ok;
    var chain := [if r.port.Data? then sys.l1 else sys.ic] + sys.shared;
    var after := Access(chain, memory, r.req.cycle, r.req.addr, r.req.pf).chain;
    AccessBalanced(chain, memory, r.req.cycle, r.req.addr, r.req.pf);
    forall i | 0 < i < |sys.shared|
      ensures after[1..][i].accesses - sys.shared[i].accesses == after[1..][i - 1].misses - sys.shared[i - 1].misses
      ensures after[1..][i].pfAccesses - sys.shared[i].pfAccesses
              == after[1..][i - 1].pfMisses - sys.shared[i - 1].pfMisses
    {
      assert chain[i + 1] == sys.shared[i] && chain[i] == sys.shared[i - 1];
    }
  }

  /** Over any run, demand misses and prefetch misses above are accesses of their kind below. */
  lemma {:induction false} RunConserves(sys: System, memory: nat, reqs: seq<SystemRequest>)
    requires sys.Ok()
    ensures Conserved(sys, RunSystem(sys, memory, reqs))
    decreases |reqs|
  {
    hide Serve;
    hide Level.Ok;
    if reqs != [] {
      ServeConserves(sys, memory, reqs[0]);
      RunConserves(Serve(sys, memory, reqs[0]), memory, reqs[1..]);
    }
  }

  // ---------------------------------------------------------------- what every level holds

  ghost predicate ChainFollows(chain: seq<Level>, ts: seq<seq<Request>>) {
    |ts| == |chain| && forall i :: 0 <= i < |chain| ==> Follows(chain[i], chain[i].cfg, ts[i])
  }

  /** Each level's requests after one more: a level is searched when all before it miss. */
  ghost function Searched(chain: seq<Level>, ts: seq<seq<Request>>, r: Request): (ts': seq<seq<Request>>)
    requires ChainOk(chain) && |ts| == |chain|
    ensures |ts'| == |ts|
    decreases |chain|
  {
    if chain == [] then []
    else
      [ts[0] + [r]]
      + (if chain[0].Holds(r.addr) then ts[1..]
         else Searched(chain[1..], ts[1..], r.(cycle := r.cycle + chain[0].cfg.latency)))
  }

  lemma NothingFollows()
    ensures ChainFollows([], [])
  {
  }

  lemma FollowsTail(chain: seq<Level>, ts: seq<seq<Request>>)
    requires chain != [] && ChainFollows(chain, ts)
    ensures ts != [] && Follows(chain[0], chain[0].cfg, ts[0]) && ChainFollows(chain[1..], ts[1..])
  {
  }

  lemma FollowsCons(l: Level, t: seq<Request>, rest: seq<Level>, ts: seq<seq<Request>>)
    requires Follows(l, l.cfg, t) && ChainFollows(rest, ts)
    ensures ChainFollows([l] + rest, [t] + ts)
  {
  }

  lemma {:induction false} ChainAccessFollows(chain: seq<Level>, memory: nat, ts: seq<seq<Request>>, r: Request)
    requires ChainOk(chain) && ChainFollows(chain, ts)
    ensures ChainFollows(Access(chain, memory, r.cycle, r.addr, r.pf).chain, Searched(chain, ts, r))
    decreases |chain|
  {
    hide Level.After;
    hide Level.Holds;
    hide Level.Arrival;
    hide Follows;
    hide ChainFollows;
    if chain == [] {
      NothingFollows();
    } else {
      var l := chain[0];
      FollowsTail(chain, ts);
      assert l.Ok() && ChainOk(chain[1..]) && |ts| == |chain|;
      hide ChainOk;
      if l.Holds(r.addr) {
        AfterFollows(l, ts[0], r, l.Arrival(r.addr));
        FollowsCons(l.After(r.addr, r.pf, l.Arrival(r.addr)), ts[0] + [r], chain[1..], ts[1..]);
      } else {
        var later := r.(cycle := r.cycle + l.cfg.latency);
        ChainAccessFollows(chain[1..], memory, ts[1..], later);
        var below := Access(chain[1..], memory, later.cycle, r.addr, r.pf);
        AfterFollows(l, ts[0], r, below.avail);
        FollowsCons(l.After(r.addr, r.pf, below.avail), ts[0] + [r], below.chain, Searched(chain[1..], ts[1..], later));
      }
    }
  }

  /** The requests that each cache of a system has had. */
  datatype Demand = Demand(l1: seq<Request>, ic: seq<Request>, shared: seq<seq<Request>>)

  ghost function DemandAfter(sys: System, demand: Demand, r: SystemRequest): (s: Demand)
    requires sys.Ok() && |demand.shared| == |sys.shared|
    ensures |s.shared| == |sys.shared|
  {
    var chain := [if r.port.Data? then sys.l1 else sys.ic] + sys.shared;
    var ts := Searched(chain, [if r.port.Data? then demand.l1 else demand.ic] + demand.shared, r.req);
    if r.port.Data? then Demand(ts[0], demand.ic, ts[1..]) else Demand(demand.l1, ts[0], ts[1..])
  }

  ghost function DemandAfterAll(sys: System, memory: nat, demand: Demand, reqs: seq<SystemRequest>): (s: Demand)
    requires sys.Ok() && |demand.shared| == |sys.shared|
    ensures |s.shared| == |sys.shared|
    decreases |reqs|
  {
    if reqs == [] then demand
    else DemandAfterAll(Serve(sys, memory, reqs[0]), memory, DemandAfter(sys, demand, reqs[0]), reqs[1..])
  }

  ghost predicate SystemFollows(sys: System, demand: Demand) {
    && Follows(sys.l1, sys.l1.cfg, demand.l1) && Follows(sys.ic, sys.ic.cfg, demand.ic)
    && ChainFollows(sys.shared, demand.shared)
  }

  lemma ServeFollows(sys: System, memory: nat, demand: Demand, r: SystemRequest)
    requires sys.Ok() && SystemFollows(sys, demand)
    ensures SystemFollows(Serve(sys, memory, r), DemandAfter(sys, demand, r))
  {
    hide Access;
    hide Searched;
    hide Follows;
    hide Level.Ok;
    var chain := [if r.port.Data? then sys.l1 else sys.ic] + sys.shared;
    var ts := [if r.port.Data? then demand.l1 else demand.ic] + demand.shared;
    assert ChainFollows(chain, ts);
    ChainAccessFollows(chain, memory, ts, r.req);
  }

  lemma SameShape(sys: System, demand: Demand)
    requires SystemFollows(sys, demand)
    ensures |demand.shared| == |sys.shared|
  {
  }

  lemma {:induction false} RunSystemFollows(sys: System, memory: nat, demand: Demand, reqs: seq<SystemRequest>)
    requires sys.Ok() && SystemFollows(sys, demand)
    ensures SystemFollows(RunSystem(sys, memory, reqs), DemandAfterAll(sys, memory, demand, reqs))
    decreases |reqs|
  {
    hide Serve;
    hide DemandAfter;
    hide SystemFollows;
    hide Level.Ok;
    SameShape(sys, demand);
    if reqs != [] {
      ServeFollows(sys, memory, demand, reqs[0]);
      SameShape(Serve(sys, memory, reqs[0]), DemandAfter(sys, demand, reqs[0]));
      RunSystemFollows(Serve(sys, memory, reqs[0]), memory, DemandAfter(sys, demand, reqs[0]), reqs[1..]);
    }
  }

  ghost predicate ColdSystem(sys: System) {
    sys.Ok() && Cold(sys.l1) && Cold(sys.ic) && forall i :: 0 <= i < |sys.shared| ==> Cold(sys.shared[i])
  }

  function NoDemand(n: nat): Demand {
    Demand([], [], seq(n, i => []))
  }

  lemma ColdFollows(l: Level)
    requires Cold(l)
    ensures Follows(l, l.cfg, [])
  {
  }

  /**
    After any requests to a cold system every cache of it, the shared levels included, holds in each set
    exactly the most recent distinct tags that it was itself asked for.
  */
  lemma EveryLevelHoldsRecent(sys: System, memory: nat, reqs: seq<SystemRequest>)
    requires ColdSystem(sys)
    ensures SystemFollows(RunSystem(sys, memory, reqs), DemandAfterAll(sys, memory, NoDemand(|sys.shared|), reqs))
  {
    hide RunSystem;
    hide DemandAfterAll;
    ColdFollows(sys.l1);
    ColdFollows(sys.ic);
    forall i | 0 <= i < |sys.shared|
      ensures Follows(sys.shared[i], sys.shared[i].cfg, [])
    {
      ColdFollows(sys.shared[i]);
    }
    RunSystemFollows(sys, memory, NoDemand(|sys.shared|), reqs);
  }
}
