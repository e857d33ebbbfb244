/**
  The cache hierarchy as values: what an access to a chain of levels returns and leaves behind.
*/
module CacheLevels {
  import opened Common
  import opened Bits
  import opened LruSets

  const MAIN_MEMORY_LATENCY: nat := 150

  /** Sizes are powers of two: 2^indexBits sets of `assoc` blocks of 2^offsetBits bytes. */
  datatype Config = Config(indexBits: nat, assoc: nat, offsetBits: nat, latency: nat) {
    function BlockOf(addr: nat): nat {
      Shr(addr, offsetBits)
    }

    function Tag(addr: nat): nat {
      Shr(BlockOf(addr), indexBits)
    }

    function Index(addr: nat): (i: nat)
      ensures i < Pow2(indexBits)
    {
      Low(BlockOf(addr), indexBits)
    }
  }

  datatype Level = Level(cfg: Config, sets: seq<seq<Line>>,
                         accesses: nat, pfAccesses: nat, misses: nat, pfMisses: nat) {
    ghost predicate Ok() {
      && cfg.assoc > 0
      && |sets| == Pow2(cfg.indexBits)
      && forall s :: 0 <= s < |sets| ==> |sets[s]| <= cfg.assoc
    }

    function Stack(addr: nat): seq<Line>
      requires |sets| == Pow2(cfg.indexBits)
    {
      sets[cfg.Index(addr)]
    }

    /** Whether the tag array holds the block; the data may still be on its way. */
    predicate Holds(addr: nat)
      requires |sets| == Pow2(cfg.indexBits)
    {
      Depth(Stack(addr), cfg.Tag(addr)) < |Stack(addr)|
    }

    function Arrival(addr: nat): nat
      requires |sets| == Pow2(cfg.indexBits) && Holds(addr)
    {
      Stack(addr)[Depth(Stack(addr), cfg.Tag(addr))].avail
    }

    /** The level after an access; `avail` is when a missing block arrives. */
    ghost function After(addr: nat, pf: bool, avail: nat): (l: Level)
      requires Ok()
      ensures l.Ok() && l.cfg == cfg
    {
      var stack := Accessed(Stack(addr), Line(cfg.Tag(addr), avail), cfg.assoc);
      var missed := if Holds(addr) then 0 else 1;
      Level(cfg, sets[cfg.Index(addr) := stack],
            accesses + (if pf then 0 else 1), pfAccesses + (if pf then 1 else 0),
            misses + (if pf then 0 else missed), pfMisses + (if pf then missed else 0))
    }
  }

  ghost predicate ChainOk(chain: seq<Level>) {
    forall i :: 0 <= i < |chain| ==> chain[i].Ok()
  }

  datatype Outcome = Outcome(avail: nat, chain: seq<Level>)

  /** An access searches level after level, and the memory behind the last one. */
  ghost function Access(chain: seq<Level>, memory: nat, cycle: nat, addr: nat, pf: bool): (r: Outcome)
    requires ChainOk(chain)
    ensures |r.chain| == |chain| && ChainOk(r.chain)
    decreases |chain|
  {
    if chain == [] then Outcome(cycle + memory, [])
    else
      var l, searched := chain[0], cycle + chain[0].cfg.latency;
      if l.Holds(addr) then
        Outcome(Max(l.Arrival(addr), searched), [l.After(addr, pf, l.Arrival(addr))] + chain[1..])
      else
        var below := Access(chain[1..], memory, searched, addr, pf);
        Outcome(below.avail, [l.After(addr, pf, below.avail)] + below.chain)
  }

  /** One level of an access. */
  lemma AccessHere(chain: seq<Level>, memory: nat, cycle: nat, addr: nat, pf: bool)
    requires ChainOk(chain) && chain != []
    ensures var l, r := chain[0], Access(chain, memory, cycle, addr, pf);
            if l.Holds(addr)
            then r == Outcome(Max(l.Arrival(addr), cycle + l.cfg.latency),
                              [l.After(addr, pf, l.Arrival(addr))] + chain[1..])
            else var below := Access(chain[1..], memory, cycle + l.cfg.latency, addr, pf);
                 r == Outcome(below.avail, [l.After(addr, pf, below.avail)] + below.chain)
  {
    hide Level.After;
    hide Level.Holds;
    hide Level.Arrival;
  }

  // ---------------------------------------------------------------- timing

  function TotalLatency(chain: seq<Level>): nat {
    if chain == [] then 0 else chain[0].cfg.latency + TotalLatency(chain[1..])
  }

  ghost predicate StampsBelow(l: Level, bound: nat) {
    forall s, k :: 0 <= s < |l.sets| && 0 <= k < |l.sets[s]| ==> l.sets[s][k].avail <= bound
  }

  ghost predicate ChainStampsBelow(chain: seq<Level>, bound: nat) {
    forall i :: 0 <= i < |chain| ==> StampsBelow(chain[i], bound)
  }

  lemma AfterStamps(l: Level, addr: nat, pf: bool, avail: nat, bound: nat)
    requires l.Ok() && StampsBelow(l, bound) && avail <= bound
    ensures StampsBelow(l.After(addr, pf, avail), bound)
  {
  }

  /**
    No access returns before its own search is over, nor after both every stored arrival and a full
    trip to memory; and it stores no later arrival than that.
  */
  lemma {:induction false} AccessTiming(chain: seq<Level>, memory: nat, cycle: nat, addr: nat, pf: bool, bound: nat)
    requires ChainOk(chain) && ChainStampsBelow(chain, bound)
    requires cycle + TotalLatency(chain) + memory <= bound
    ensures var r := Access(chain, memory, cycle, addr, pf);
            && cycle + (if chain == [] then memory else chain[0].cfg.latency) <= r.avail <= bound
            && ChainStampsBelow(r.chain, bound)
    decreases |chain|
  {
    hide Level.After;
    if chain != [] {
      var l := chain[0];
      if l.Holds(addr) {
        assert StampsBelow(l, bound);
        assert l.Arrival(addr) <= bound;
        AfterStamps(l, addr, pf, l.Arrival(addr), bound);
      } else {
        AccessTiming(chain[1..], memory, cycle + l.cfg.latency, addr, pf, bound);
        var below := Access(chain[1..], memory, cycle + l.cfg.latency, addr, pf);
        AfterStamps(l, addr, pf, below.avail, bound);
      }
    }
  }

  /** `is_hit` */
  predicate IsHit(l: Level, cycle: nat, addr: nat)
    requires |l.sets| == Pow2(l.cfg.indexBits)
  {
    l.Holds(addr) && cycle + l.cfg.latency >= Max(l.Arrival(addr), cycle + l.cfg.latency)
  }

  lemma IsHitForeseesAccess(chain: seq<Level>, memory: nat, cycle: nat, addr: nat, pf: bool)
    requires chain != [] && ChainOk(chain)
    ensures var r := Access(chain, memory, cycle, addr, pf);
            IsHit(chain[0], cycle, addr) <==>
            (r.chain[0].misses + r.chain[0].pfMisses == chain[0].misses + chain[0].pfMisses
             && r.avail == cycle + chain[0].cfg.latency)
  {
  }

  // ---------------------------------------------------------------- conservation

  /** Every access of a level below is a miss of the level above, of the same kind. */
  ghost predicate Balanced(chain: seq<Level>, chain': seq<Level>) {
    && |chain| == |chain'|
    && forall i :: 0 < i < |chain| ==>
         && chain'[i].accesses - chain[i].accesses == chain'[i - 1].misses - chain[i - 1].misses
         && chain'[i].pfAccesses - chain[i].pfAccesses == chain'[i - 1].pfMisses - chain[i - 1].pfMisses
  }

  lemma AfterCounts(l: Level, addr: nat, pf: bool, avail: nat)
    requires l.Ok()
    ensures var l' := l.After(addr, pf, avail);
            && l'.accesses == l.accesses + (if pf then 0 else 1)
            && l'.pfAccesses == l.pfAccesses + (if pf then 1 else 0)
            && l'.misses == l.misses + (if pf || l.Holds(addr) then 0 else 1)
            && l'.pfMisses == l.pfMisses + (if pf && !l.Holds(addr) then 1 else 0)
  {
  }

  lemma NothingBelow(chain: seq<Level>)
    ensures Balanced(chain, chain)
  {
  }

  lemma BalancedCons(l: Level, rest: seq<Level>, l': Level, rest': seq<Level>)
    requires Balanced(rest, rest')
    requires rest != [] ==>
               && rest'[0].accesses - rest[0].accesses == l'.misses - l.misses
               && rest'[0].pfAccesses - rest[0].pfAccesses == l'.pfMisses - l.pfMisses
    ensures Balanced([l] + rest, [l'] + rest')
  {
    var a, b := [l] + rest, [l'] + rest';
    forall i | 0 < i < |a|
      ensures b[i].accesses - a[i].accesses == b[i - 1].misses - a[i - 1].misses
      ensures b[i].pfAccesses - a[i].pfAccesses == b[i - 1].pfMisses - a[i - 1].pfMisses
    {
      assert a[i] == rest[i - 1] && b[i] == rest'[i - 1];
      assert i > 1 ==> a[i - 1] == rest[i - 2] && b[i - 1] == rest'[i - 2];
    }
  }

  lemma {:induction false} AccessBalanced(chain: seq<Level>, memory: nat, cycle: nat, addr: nat, pf: bool)
    requires ChainOk(chain)
    ensures var r := Access(chain, memory, cycle, addr, pf);
            && Balanced(chain, r.chain)
            && (chain != [] ==>
                  && r.chain[0].accesses == chain[0].accesses + (if pf then 0 else 1)
                  && r.chain[0].pfAccesses == chain[0].pfAccesses + (if pf then 1 else 0))
    decreases |chain|
  {
    hide Level.After;
    hide Level.Holds;
    hide Level.Arrival;
    hide Balanced;
    if chain != [] {
      var l, searched := chain[0], cycle + chain[0].cfg.latency;
      var r := Access(chain, memory, cycle, addr, pf);
      assert chain == [l] + chain[1..];
      if l.Holds(addr) {
        AfterCounts(l, addr, pf, l.Arrival(addr));
        NothingBelow(chain[1..]);
        BalancedCons(l, chain[1..], r.chain[0], chain[1..]);
      } else {
        var below := Access(chain[1..], memory, searched, addr, pf);
        AccessBalanced(chain[1..], memory, searched, addr, pf);
        AfterCounts(l, addr, pf, below.avail);
        BalancedCons(l, chain[1..], r.chain[0], below.chain);
      }
    } else {
      NothingBelow(chain);
    }
  }
}
