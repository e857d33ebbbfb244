/**
  The cache as the simulator builds it: blocks with LRU counters, updated in place, and a pointer to
  the next level. `Chain` is the value that the module CacheLevels reasons about.
*/
module Caches {
  import opened Common
  import opened Bits
  import opened LruSets
  import opened CacheLevels

  lemma HoldsIffFound(l: Level, addr: nat)
    requires l.Ok()
    ensures l.Holds(addr) <==> Depth(l.sets[l.cfg.Index(addr)], l.cfg.Tag(addr)) < |l.sets[l.cfg.Index(addr)]|
  {
  }

  class Cache {
    const cfg: Config
    const blocks: array2<Block>
    const next: Cache?
    ghost const Repr: set<object>
    ghost const depth: nat
    var accesses: nat
    var pfAccesses: nat
    var misses: nat
    var pfMisses: nat
    ghost var sets: seq<seq<Line>>

    ghost function Ways(index: nat): (w: seq<Block>)
      requires index < blocks.Length0
      reads blocks
      ensures |w| == blocks.Length1
    {
      seq(blocks.Length1, w requires 0 <= w < blocks.Length1 reads blocks => blocks[index, w])
    }

    ghost predicate ValidHere()
      reads this, blocks
    {
      && cfg.assoc > 0
      && blocks.Length0 == |sets| == Pow2(cfg.indexBits)
      && blocks.Length1 == cfg.assoc
      && forall s :: 0 <= s < |sets| ==> Represents(Ways(s), sets[s])
    }

    ghost predicate Valid()
      reads this, Repr
      decreases depth
      ensures Valid() ==> this in Repr && ValidHere()
    {
      && this in Repr && blocks in Repr
      && ValidHere()
      && (next == null ==> depth == 0)
      && (next != null ==>
            && depth == next.depth + 1
            && next in Repr && next.Repr <= Repr && this !in next.Repr && blocks !in next.Repr
            && next.Valid())
    }

    ghost function Here(): (l: Level)
      requires ValidHere()
      reads this, blocks
      ensures l.Ok()
    {
      Level(cfg, sets, accesses, pfAccesses, misses, pfMisses)
    }

    ghost function Chain(): (c: seq<Level>)
      requires Valid()
      reads Repr
      decreases depth, 1
      ensures ChainOk(c) && c != [] && c[0] == Here()
    {
      [Here()] + Below()
    }

    ghost function Below(): (c: seq<Level>)
      requires Valid()
      reads Repr
      decreases depth, 0
      ensures ChainOk(c)
    {
      if next == null then [] else next.Chain()
    }

    /** The counters of prefetches are not set by the original; they start at whatever `pf0` and `pfm0` say. */
    constructor (cfg: Config, next: Cache?, pf0: nat, pfm0: nat)
      requires cfg.assoc > 0
      requires next != null ==> next.Valid()
      ensures Valid() && this.cfg == cfg && this.next == next
      ensures fresh(Repr - (if next == null then {} else next.Repr))
      ensures sets == seq(Pow2(cfg.indexBits), i => [])
      ensures accesses == misses == 0 && pfAccesses == pf0 && pfMisses == pfm0
    {
      this.cfg, this.next := cfg, next;
      accesses, misses, pfAccesses, pfMisses := 0, 0, pf0, pfm0;
      blocks := new Block[Pow2(cfg.indexBits), cfg.assoc]((i: nat, j: nat) => Block(false, 0, 0, j));
      sets := seq(Pow2(cfg.indexBits), i => []);
      depth := if next == null then 0 else next.depth + 1;
      Repr := {this, blocks} + (if next == null then {} else next.Repr);
    }

    /** The hit-or-victim scan of `access`: the way holding the tag, or the last way of greatest rank. */
    method Scan(index: nat, tag: nat) returns (hit: bool, way: nat)
      requires ValidHere() && index < blocks.Length0
      ensures way < cfg.assoc
      ensures hit <==> Depth(sets[index], tag) < |sets[index]|
      ensures hit ==> blocks[index, way].valid && blocks[index, way].tag == tag
      ensures !hit ==> blocks[index, way].lru == cfg.assoc - 1
    {
      ghost var ways := Ways(index);
      ghost var oldest := VictimExists(ways, sets[index]);
      ResidentIffOnStack(ways, sets[index], tag);
      assert forall w :: 0 <= w < cfg.assoc ==> ways[w] == blocks[index, w];
      hit := false;
      var maxLru, victim := 0, 0;
      way := 0;
      while way < cfg.assoc
        invariant way <= cfg.assoc && victim < cfg.assoc
        invariant forall w :: 0 <= w < way ==> !(blocks[index, w].valid && blocks[index, w].tag == tag)
        invariant forall w :: 0 <= w < way ==> blocks[index, w].lru <= maxLru
        invariant way > 0 ==> blocks[index, victim].lru == maxLru
        invariant way == 0 ==> maxLru == 0
      {
        if blocks[index, way].valid && blocks[index, way].tag == tag {
          hit := true;
          assert ways[way].valid && ways[way].tag == tag;
          return;
        } else if blocks[index, way].lru >= maxLru {
          maxLru := blocks[index, way].lru;
          victim := way;
        }
        way := way + 1;
      }
      assert ways[oldest] == blocks[index, oldest] && ways[victim] == blocks[index, victim];
      assert maxLru == cfg.assoc - 1;
      way := victim;
    }

    method UpdateLru(index: nat, mru: nat)
      requires index < blocks.Length0 && mru < blocks.Length1
      requires IsRanking(Ranks(Ways(index)))
      modifies blocks
      ensures Ways(index) == Aged(old(Ways(index)), mru)
      ensures forall s :: 0 <= s < blocks.Length0 && s != index ==> Ways(s) == old(Ways(s))
    {
      ghost var ways := Ways(index);
      var way := 0;
      while way < blocks.Length1
        invariant way <= blocks.Length1
        invariant forall w :: 0 <= w < way ==> blocks[index, w] == if w == mru then ways[w] else Aged(ways, mru)[w]
        invariant forall w :: way <= w < blocks.Length1 ==> blocks[index, w] == ways[w]
        invariant forall s, w :: 0 <= s < blocks.Length0 && 0 <= w < blocks.Length1 && s != index ==>
                  blocks[s, w] == old(blocks[s, w])
        invariant blocks[index, mru] == ways[mru]
      {
        if blocks[index, way].lru < blocks[index, mru].lru {
          assert Ranks(ways)[mru] < |ways|;
          blocks[index, way] := blocks[index, way].(lru := blocks[index, way].lru + 1);
          assert blocks[index, way].lru < blocks.Length1;
        }
        way := way + 1;
      }
      blocks[index, mru] := blocks[index, mru].(lru := 0);
    }

    method IsHit(cycle: nat, addr: nat) returns (hit: bool)
      requires Valid()
      ensures hit <==> CacheLevels.IsHit(Here(), cycle, addr)
    {
      var tag, index := cfg.Tag(addr), cfg.Index(addr);
      var found, way := Scan(index, tag);
      if found {
        HitKeepsRepresentation(Ways(index), sets[index], way);
        var avail := Max(blocks[index, way].timestamp, cycle + cfg.latency);
        return cycle + cfg.latency >= avail;
      }
      return false;
    }

    /** A hit: the block's way becomes the most recent one. */
    method Hit(cycle: nat, addr: nat, way: nat, pf: bool) returns (avail: nat)
      requires ValidHere() && Here().Holds(addr) && way < cfg.assoc
      requires blocks[cfg.Index(addr), way].valid && blocks[cfg.Index(addr), way].tag == cfg.Tag(addr)
      modifies this`sets, this`accesses, this`pfAccesses, blocks
      ensures ValidHere() && Here() == old(Here().After(addr, pf, Here().Arrival(addr)))
      ensures avail == Max(old(Here().Arrival(addr)), cycle + cfg.latency)
    {
      var index := cfg.Index(addr);
      ghost var ways, stack := Ways(index), sets[index];
      HitKeepsRepresentation(ways, stack, way);
      avail := Max(blocks[index, way].timestamp, cycle + cfg.latency);
      accesses := accesses + if pf then 0 else 1;
      pfAccesses := pfAccesses + if pf then 1 else 0;
      UpdateLru(index, way);
      sets := sets[index := Touched(stack, ways[way].lru)];
    }

    /** The block replaces the victim's. */
    method Replace(index: nat, way: nat, tag: nat, avail: nat)
      requires ValidHere() && index < blocks.Length0 && way < cfg.assoc
      requires Depth(sets[index], tag) == |sets[index]|
      requires blocks[index, way].lru == cfg.assoc - 1
      modifies this`sets, blocks
      ensures ValidHere() && sets == old(sets[index := Filled(sets[index], Line(tag, avail), cfg.assoc)])
    {
      ghost var ways, stack := Ways(index), sets[index];
      MissKeepsRepresentation(ways, stack, way, Line(tag, avail));
      blocks[index, way] := blocks[index, way].(valid := true, tag := tag, timestamp := avail);
      assert Ways(index) == ways[way := Block(true, tag, avail, ways[way].lru)];
      assert Ranks(Ways(index)) == Ranks(ways);
      assert forall s :: 0 <= s < blocks.Length0 && s != index ==> Ways(s) == old(Ways(s));
      UpdateLru(index, way);
      sets := sets[index := Filled(stack, Line(tag, avail), cfg.assoc)];
    }

    /** A miss: the victim's way takes the block and becomes the most recent one. */
    method Fill(addr: nat, way: nat, pf: bool, avail: nat)
      requires ValidHere() && !Here().Holds(addr) && way < cfg.assoc
      requires blocks[cfg.Index(addr), way].lru == cfg.assoc - 1
      modifies this`sets, this`accesses, this`pfAccesses, this`misses, this`pfMisses, blocks
      ensures ValidHere() && Here() == old(Here().After(addr, pf, avail))
    {
      accesses := accesses + if pf then 0 else 1;
      pfAccesses := pfAccesses + if pf then 1 else 0;
      misses := misses + if pf then 0 else 1;
      pfMisses := pfMisses + if pf then 1 else 0;
      Replace(cfg.Index(addr), way, cfg.Tag(addr), avail);
    }

    /** The block is asked of the next level, or of main memory when there is none. */
    method FetchBelow(cycle: nat, addr: nat, pf: bool) returns (avail: nat)
      requires Valid()
      modifies Repr
      decreases depth, 0
      ensures Valid() && unchanged(this) && unchanged(blocks)
      ensures Outcome(avail, Below()) == CacheLevels.Access(old(Below()), MAIN_MEMORY_LATENCY, cycle, addr, pf)
    {
      hide Represents;
      if next != null {
        avail := next.Access(cycle, addr, pf);
      } else {
        avail := cycle + MAIN_MEMORY_LATENCY;
      }
    }

    method Access(cycle: nat, addr: nat, pf: bool) returns (avail: nat)
      requires Valid()
      modifies Repr
      decreases depth, 1
      ensures Valid()
      ensures Outcome(avail, Chain()) == CacheLevels.Access(old(Chain()), MAIN_MEMORY_LATENCY, cycle, addr, pf)
    {
      hide Represents;
      hide Depth;
      hide Level.After;
      hide Level.Arrival;
      hide Level.Holds;
      hide Level.Ok;
      hide CacheLevels.Access;
      AccessHere(Chain(), MAIN_MEMORY_LATENCY, cycle, addr, pf);
      assert Chain()[1..] == Below();
      hide Config.Tag;
      hide Config.Index;
      var tag, index := cfg.Tag(addr), cfg.Index(addr);
      var hit, way := Scan(index, tag);
      assert hit <==> Here().Holds(addr) by {
        HoldsIffFound(Here(), addr);
      }
      if hit {
        avail := Hit(cycle, addr, way, pf);
      } else {
        avail := FetchBelow(cycle + cfg.latency, addr, pf);
        Fill(addr, way, pf, avail);
      }
    }
  }
}
