/**
  When the ring of the lane scheduler is a first-fit allocator over all cycles: one slot per cycle, growth
  that loses no count, and the refinement over whole runs.
*/
module FirstFits {
  import opened Bits
  import opened Common
  import opened ResourceSchedules

  /** The abstract allocator's view: the grants of each cycle inside the window, none beyond it. */
  function Count(slots: seq<nat>, base: nat, cycle: nat): nat
    requires |slots| > 0 && base <= cycle
  {
    if cycle < base + |slots| then slots[Slot(cycle, |slots|)] else 0
  }

  ghost predicate OneSlotPerCycle(base: nat, depth: nat)
    requires depth > 0
  {
    forall c, d :: base <= c < d < base + depth ==> Slot(c, depth) != Slot(d, depth)
  }

  /** In every window, two cycles that differ only in a missing mask bit share a slot. */
  lemma AliasedPair(base: nat, depth: nat, k: nat) returns (c: nat)
    requires depth > 0 && !BitSet(depth - 1, k) && Pow2(k + 1) <= depth - 1
    ensures base <= c && c + Pow2(k) < base + depth
    ensures Slot(c, depth) == Slot(c + Pow2(k), depth)
  {
    BitSetIffLow(base, k);
    c := if BitSet(base, k) then base + (Pow2(k + 1) - Low(base, k + 1)) else base;
    LowPlus(base, c - base, k + 1);
    BitSetIffLow(c, k);
    AndIgnoresBit(c, depth - 1, k);
  }

  lemma {:induction false} OnesMask(j: nat, k: nat)
    requires k < j
    ensures BitSet(Pow2(j) - 1, k)
  {
    if k > 0 {
      assert (Pow2(j) - 1) / 2 == Pow2(j - 1) - 1;
      OnesMask(j - 1, k - 1);
    }
  }

  lemma HoleMeansNotPow2(depth: nat, k: nat)
    requires depth > 0 && !BitSet(depth - 1, k) && Pow2(k + 1) <= depth - 1
    ensures !IsPow2(depth)
  {
    if IsPow2(depth) {
      var j: nat :| depth == Pow2(j);
      if j <= k + 1 {
        Pow2Grows(j, k + 1);
      } else {
        OnesMask(j, k);
      }
      assert false;
    }
  }

  /** Distinct cycles of a window have distinct slots exactly at the power-of-two depths. */
  lemma OneSlotPerCycleIffPow2(base: nat, depth: nat)
    requires depth > 0
    ensures OneSlotPerCycle(base, depth) <==> IsPow2(depth)
  {
    var full, k := MaskHole(depth - 1);
    if full {
      forall c, d | base <= c < d < base + depth
        ensures Slot(c, depth) != Slot(d, depth)
      {
        LowPlus(c, d - c, k);
      }
    } else {
      var c := AliasedPair(base, depth, k);
      HoleMeansNotPow2(depth, k);
    }
  }

  ghost predicate Preserved(slots: seq<nat>, base: nat, depth: nat)
    requires 0 < |slots| <= depth
  {
    forall c :: base <= c < base + depth ==> Count(Grown(slots, depth), base, c) == Count(slots, base, c)
  }

  lemma ExponentsOrdered(j: nat, k: nat)
    requires Pow2(j) < Pow2(k)
    ensures j < k
  {
  }

  lemma GrowthPreserves(slots: seq<nat>, base: nat, j: nat, k: nat)
    requires |slots| == Pow2(j) < Pow2(k) && Low(base, k) == 0
    ensures Preserved(slots, base, Pow2(k))
  {
    ExponentsOrdered(j, k);
    LowZeroBelow(base, j, k);
    forall c | base <= c < base + Pow2(k)
      ensures Count(Grown(slots, Pow2(k)), base, c) == Count(slots, base, c)
    {
      LowPlus(base, c - base, k);
      if c < base + Pow2(j) {
        LowPlus(base, c - base, j);
      }
    }
  }

  /** Otherwise an old cycle lands on a slot just added, or a new cycle on a slot already in use. */
  lemma GrowthLoses(ones: seq<nat>, base: nat, j: nat, k: nat) returns (c: nat)
    requires |ones| == Pow2(j) < Pow2(k) && Low(base, k) != 0
    requires forall i :: 0 <= i < |ones| ==> ones[i] == 1
    ensures base <= c < base + Pow2(k)
    ensures Count(Grown(ones, Pow2(k)), base, c) != Count(ones, base, c)
  {
    var b := Low(base, k);
    if b >= Pow2(j) {
      c := base;
    } else {
      ExponentsOrdered(j, k);
      Pow2Grows(j, k);
      c := base + (Pow2(k) - b);
      LowPlus(base, c - base, k);
    }
  }

  /**
    Copying the slots without re-hashing keeps every in-window count, and leaves the new cycles empty,
    whatever the counts were, exactly when the base is a multiple of the new depth.
  */
  lemma GrowthPreservesIff(base: nat, oldDepth: nat, newDepth: nat)
    requires IsPow2(oldDepth) && IsPow2(newDepth) && oldDepth < newDepth
    ensures (forall slots: seq<nat> :: |slots| == oldDepth ==> Preserved(slots, base, newDepth))
            <==> base % newDepth == 0
  {
    var j: nat :| oldDepth == Pow2(j);
    var k: nat :| newDepth == Pow2(k);
    LowIsMod(base, k);
    if base % newDepth == 0 {
      forall slots: seq<nat> | |slots| == oldDepth
        ensures Preserved(slots, base, newDepth)
      {
        GrowthPreserves(slots, base, j, k);
      }
    } else {
      var ones := seq(oldDepth, i => 1);
      var c := GrowthLoses(ones, base, j, k);
      assert !Preserved(ones, base, newDepth);
    }
  }

  /** Every cycle in sight keeps its slot, and every cycle that comes into sight gets a new one. */
  ghost predicate SlotsKept(base: nat, oldDepth: nat, newDepth: nat)
    requires 0 < oldDepth <= newDepth
  {
    && (forall c :: base <= c < base + oldDepth ==> Slot(c, newDepth) == Slot(c, oldDepth))
    && forall c :: base + oldDepth <= c < base + newDepth ==> Slot(c, newDepth) >= oldDepth
  }

  /** For any depths and any base, growth keeps every count whatever the counts were exactly when slots are kept. */
  lemma GrowthPreservesExactly(base: nat, oldDepth: nat, newDepth: nat)
    requires 0 < oldDepth < newDepth
    ensures (forall slots: seq<nat> :: |slots| == oldDepth ==> Preserved(slots, base, newDepth))
            <==> SlotsKept(base, oldDepth, newDepth)
  {
    hide Slot;
    if forall slots: seq<nat> :: |slots| == oldDepth ==> Preserved(slots, base, newDepth) {
      forall c | base <= c < base + oldDepth
        ensures Slot(c, newDepth) == Slot(c, oldDepth)
      {
        var one := seq(oldDepth, i => if i == Slot(c, oldDepth) then 1 else 0);
        assert Preserved(one, base, newDepth);
        assert Count(Grown(one, newDepth), base, c) == Count(one, base, c) == 1;
      }
      forall c | base + oldDepth <= c < base + newDepth
        ensures Slot(c, newDepth) >= oldDepth
      {
        var ones := seq(oldDepth, i => 1);
        assert Preserved(ones, base, newDepth);
        assert Count(Grown(ones, newDepth), base, c) == Count(ones, base, c) == 0;
      }
    }
    if SlotsKept(base, oldDepth, newDepth) {
      forall slots: seq<nat> | |slots| == oldDepth
        ensures Preserved(slots, base, newDepth)
      {
        forall c | base <= c < base + newDepth
          ensures Count(Grown(slots, newDepth), base, c) == Count(slots, base, c)
        {
        }
      }
    }
  }

  /** In an aligned window a cycle's slot depends only on its distance from the base. */
  lemma AlignedSlot(base: nat, x: nat, depth: nat, k: nat)
    requires 0 < depth <= Pow2(k) && base % Pow2(k) == 0 && x < Pow2(k)
    ensures Slot(base + x, depth) == Slot(x, depth)
  {
    hide Low;
    LowIsMod(base, k);
    LowPlus(base, x, k);
    LowOfSmall(x, k);
    AndSeesLow(base + x, depth - 1, k);
    AndSeesLow(x, depth - 1, k);
  }

  lemma Pow2Slot(x: nat, depth: nat)
    requires IsPow2(depth) && x < depth
    ensures Slot(x, depth) == x
  {
    var j: nat :| depth == Pow2(j);
    FullMask(x, j);
  }

  lemma BothPow2KeepSlots(base: nat, oldDepth: nat, newDepth: nat, k: nat)
    requires 0 < oldDepth < newDepth <= Pow2(k) && base % Pow2(k) == 0 && IsPow2(oldDepth) && IsPow2(newDepth)
    ensures SlotsKept(base, oldDepth, newDepth)
  {
    hide Slot;
    forall c | base <= c < base + newDepth
      ensures Slot(c, newDepth) == c - base
      ensures c < base + oldDepth ==> Slot(c, oldDepth) == c - base
    {
      AlignedSlot(base, c - base, newDepth, k);
      Pow2Slot(c - base, newDepth);
      if c < base + oldDepth {
        AlignedSlot(base, c - base, oldDepth, k);
        Pow2Slot(c - base, oldDepth);
      }
    }
  }

  lemma OneBitSlot(depth: nat, j: nat)
    requires depth > 0
    ensures Slot(Pow2(j), depth) == if BitSet(depth - 1, j) then Pow2(j) else 0
  {
    OneBit(depth - 1, j);
  }

  /** A bit within the old mask's reach is in the new mask exactly when it is in the old. */
  lemma SameBit(base: nat, oldDepth: nat, newDepth: nat, k: nat, j: nat)
    requires 0 < oldDepth < newDepth <= Pow2(k) && base % Pow2(k) == 0 && SlotsKept(base, oldDepth, newDepth)
    requires Pow2(j) < oldDepth
    ensures BitSet(newDepth - 1, j) == BitSet(oldDepth - 1, j)
  {
    hide Slot;
    AlignedSlot(base, Pow2(j), newDepth, k);
    AlignedSlot(base, Pow2(j), oldDepth, k);
    assert Slot(base + Pow2(j), newDepth) == Slot(base + Pow2(j), oldDepth);
    OneBitSlot(newDepth, j);
    OneBitSlot(oldDepth, j);
  }

  /** With a hole in both masks, the last cycle of the old window has a twin that comes into sight. */
  lemma SharedHole(base: nat, oldDepth: nat, newDepth: nat, k: nat, j: nat)
    requires 0 < oldDepth < newDepth <= Pow2(k) && base % Pow2(k) == 0
    requires !BitSet(oldDepth - 1, j) && !BitSet(newDepth - 1, j) && OnesBelow(oldDepth - 1, j)
    ensures oldDepth - 1 + Pow2(j) < newDepth
    ensures var c := base + oldDepth - 1;
            Slot(c + Pow2(j), newDepth) == Slot(c, newDepth) && Slot(c, oldDepth) < oldDepth
  {
    var x := oldDepth - 1;
    LowestHole(x, newDepth - 1, j);
    AndIgnoresBit(x, newDepth - 1, j);
    AlignedSlot(base, x, newDepth, k);
    AlignedSlot(base, x + Pow2(j), newDepth, k);
    assert base + (x + Pow2(j)) == base + oldDepth - 1 + Pow2(j);
  }

  lemma OldIsPow2(base: nat, oldDepth: nat, newDepth: nat, k: nat)
    requires 0 < oldDepth < newDepth <= Pow2(k) && base % Pow2(k) == 0 && SlotsKept(base, oldDepth, newDepth)
    ensures IsPow2(oldDepth)
  {
    hide Slot;
    var full, j := MaskHole(oldDepth - 1);
    if !full {
      SameBit(base, oldDepth, newDepth, k, j);
      SharedHole(base, oldDepth, newDepth, k, j);
      assert false;
    }
  }

  lemma NewIsPow2(base: nat, oldDepth: nat, newDepth: nat, k: nat)
    requires 0 < oldDepth < newDepth <= Pow2(k) && base % Pow2(k) == 0 && SlotsKept(base, oldDepth, newDepth)
    requires IsPow2(oldDepth)
    ensures IsPow2(newDepth)
  {
    hide Slot;
    var full, j := MaskHole(newDepth - 1);
    if !full {
      AlignedSlot(base, Pow2(j), newDepth, k);
      OneBitSlot(newDepth, j);
      if Pow2(j) < oldDepth {
        AlignedSlot(base, Pow2(j), oldDepth, k);
        Pow2Slot(Pow2(j), oldDepth);
      }
      assert false;
    }
  }

  /** At a base aligned to a power of two at least the new depth, that is: between powers of two. */
  lemma AlignedGrowthIffPow2(base: nat, oldDepth: nat, newDepth: nat, k: nat)
    requires 0 < oldDepth < newDepth <= Pow2(k) && base % Pow2(k) == 0
    ensures (forall slots: seq<nat> :: |slots| == oldDepth ==> Preserved(slots, base, newDepth))
            <==> IsPow2(oldDepth) && IsPow2(newDepth)
  {
    GrowthPreservesExactly(base, oldDepth, newDepth);
    if IsPow2(oldDepth) && IsPow2(newDepth) {
      BothPow2KeepSlots(base, oldDepth, newDepth, k);
    }
    if SlotsKept(base, oldDepth, newDepth) {
      OldIsPow2(base, oldDepth, newDepth, k);
      NewIsPow2(base, oldDepth, newDepth, k);
    }
  }

  // ---------------------------------------------------------------- refinement over whole runs

  /** The allocator the ring stands for: grants per cycle, over every cycle. */
  type Allocation = map<nat, nat>

  function GrantsAt(m: Allocation, cycle: nat): nat {
    if cycle in m then m[cycle] else 0
  }

  ghost predicate Abstracts(slots: seq<nat>, base: nat, m: Allocation)
    requires |slots| > 0
  {
    forall c :: base <= c ==> Count(slots, base, c) == GrantsAt(m, c)
  }

  ghost predicate FirstFit(m: Allocation, width: nat, start: nat, maxDelta: Option<nat>, r: Option<nat>) {
    match r
    case Some(c) =>
      && start <= c
      && (maxDelta.Some? ==> c <= start + maxDelta.value)
      && GrantsAt(m, c) < width
      && forall b :: start <= b < c ==> GrantsAt(m, b) >= width
    case None =>
      maxDelta.Some? && forall b :: start <= b <= start + maxDelta.value ==> GrantsAt(m, b) >= width
  }

  /** The ring need not grow to examine `cycle`, or grows to a power of two that divides the base. */
  ghost predicate Faithful(depth: nat, base: nat, cycle: nat)
    requires base <= cycle
  {
    var d := DepthAt(depth, base, cycle);
    d == depth || (IsPow2(d) && base % d == 0)
  }

  lemma FaithfulGrowth(slots: seq<nat>, base: nat, cycle: nat)
    requires IsPow2(|slots|) && base <= cycle && Faithful(|slots|, base, cycle)
    ensures var d := DepthAt(|slots|, base, cycle);
            IsPow2(d) && forall c :: base <= c ==> Count(Grown(slots, d), base, c) == Count(slots, base, c)
  {
    var d := DepthAt(|slots|, base, cycle);
    if d == |slots| {
      assert Grown(slots, d) == slots;
    } else {
      var j: nat :| |slots| == Pow2(j);
      var k: nat :| d == Pow2(k);
      LowIsMod(base, k);
      GrowthPreserves(slots, base, j, k);
    }
  }

  lemma GrantCounts(slots: seq<nat>, base: nat, cycle: nat)
    requires IsPow2(|slots|) && base <= cycle && Faithful(|slots|, base, cycle)
    ensures forall c :: base <= c ==>
              Count(Granted(slots, base, cycle), base, c) == Count(slots, base, c) + (if c == cycle then 1 else 0)
  {
    hide RoundUp;
    FaithfulGrowth(slots, base, cycle);
    OneSlotPerCycleIffPow2(base, DepthAt(|slots|, base, cycle));
  }

  lemma {:induction false} ClearedSlot(slots: seq<nat>, from: nat, upto: nat, s: nat)
    requires from <= upto && s < |slots|
    ensures Cleared(slots, from, upto)[s] ==
              if exists i :: from <= i < upto && Slot(i, |slots|) == s then 0 else slots[s]
    decreases upto
  {
    if from < upto {
      ClearedSlot(slots, from, upto - 1, s);
      var n := |slots|;
      if Slot(upto - 1, n) != s {
        assert (exists i :: from <= i < upto && Slot(i, n) == s) <==>
               (exists i :: from <= i < upto - 1 && Slot(i, n) == s);
      }
    }
  }

  /** Advancing the base forgets nothing at or after the new base, and frees what comes into view. */
  lemma AdvanceRefines(slots: seq<nat>, base: nat, m: Allocation, newBase: nat)
    requires IsPow2(|slots|) && base <= newBase && Abstracts(slots, base, m)
    ensures Abstracts(Cleared(slots, base, newBase), newBase, m)
  {
    var k: nat :| |slots| == Pow2(k);
    OneSlotPerCycleIffPow2(base, |slots|);
    forall c | newBase <= c
      ensures Count(Cleared(slots, base, newBase), newBase, c) == GrantsAt(m, c)
    {
      assert Count(slots, base, c) == GrantsAt(m, c);
      if c < newBase + |slots| {
        ClearedSlot(slots, base, newBase, Slot(c, |slots|));
        if c >= base + |slots| {
          LowPlus(c - |slots|, |slots|, k);
          assert Slot(c - |slots|, |slots|) == Slot(c, |slots|);
        }
      }
    }
  }

  /** The limit of a call's search. */
  function Limit(c: Call): Option<nat> {
    match c
    case Grant(_, maxDelta, _) => maxDelta
    case Peek(_, _) => None
    case Advance(_) => Some(0)
  }

  /** The cycles that first-fit allocation from `start` looks at: up to the first with room, within the limit. */
  ghost predicate Examined(m: Allocation, width: nat, start: nat, maxDelta: Option<nat>, x: nat) {
    && start <= x && (maxDelta.Some? ==> x <= start + maxDelta.value)
    && forall b :: start <= b < x ==> GrantsAt(m, b) >= width
  }

  /** At every cycle that first-fit allocation would look at, the ring keeps one slot per cycle and loses no count. */
  ghost predicate StaysFaithful(ring: Ring, m: Allocation, width: nat, c: Call) {
    c.Advance? ||
    forall x :: Examined(m, width, c.start, Limit(c), x) && ring.base <= x ==> Faithful(|ring.slots|, ring.base, x)
  }

  /** The allocator after a call. */
  function AllocationAfter(m: Allocation, c: Call): Allocation {
    if c.Grant? && c.result.Some? then m[c.result.value := GrantsAt(m, c.result.value) + 1] else m
  }

  /** A run of the ring that stays faithful to the allocator beside it. */
  ghost predicate RingRun(ring: Ring, m: Allocation, width: nat, calls: seq<Call>)
    decreases |calls|
  {
    calls == [] || (
      && Returns(ring, width, calls[0])
      && StaysFaithful(ring, m, width, calls[0])
      && RingRun(RingAfter(ring, width, calls[0]), AllocationAfter(m, calls[0]), width, calls[1..]))
  }

  ghost predicate FirstFitRun(m: Allocation, width: nat, calls: seq<Call>)
    decreases |calls|
  {
    calls == [] || match calls[0]
      case Grant(start, maxDelta, result) =>
        && FirstFit(m, width, start, maxDelta, result)
        && FirstFitRun(AllocationAfter(m, calls[0]), width, calls[1..])
      case Peek(start, found) => FirstFit(m, width, start, None, Some(found)) && FirstFitRun(m, width, calls[1..])
      case Advance(_) => FirstFitRun(m, width, calls[1..])
  }

  lemma SeenIsCount(slots: seq<nat>, base: nat, m: Allocation, c: nat)
    requires IsPow2(|slots|) && base <= c && Abstracts(slots, base, m) && Faithful(|slots|, base, c)
    ensures Seen(slots, base, c) == GrantsAt(m, c)
  {
    hide RoundUp;
    FaithfulGrowth(slots, base, c);
    assert Seen(slots, base, c) == Count(Grown(slots, DepthAt(|slots|, base, c)), base, c);
    assert Count(slots, base, c) == GrantsAt(m, c);
  }

  /** Whatever the ring probes, first-fit allocation examines. */
  lemma {:induction false} ProbedIsExamined(slots: seq<nat>, base: nat, m: Allocation, width: nat, c: Call, x: nat)
    requires IsPow2(|slots|) && Abstracts(slots, base, m) && !c.Advance?
    requires Returns(Ring(slots, base), width, c) && StaysFaithful(Ring(slots, base), m, width, c)
    requires c.start <= x <= LastProbed(c)
    ensures Examined(m, width, c.start, Limit(c), x)
    ensures Seen(slots, base, x) == GrantsAt(m, x) && Faithful(|slots|, base, x)
    decreases x
  {
    hide RoundUp;
    hide Seen;
    hide Faithful;
    forall b | c.start <= b < x
      ensures GrantsAt(m, b) >= width
    {
      ProbedIsExamined(slots, base, m, width, c, b);
    }
    assert Examined(m, width, c.start, Limit(c), x);
    SeenIsCount(slots, base, m, x);
  }

  lemma SearchRefines(slots: seq<nat>, base: nat, m: Allocation, width: nat, c: Call)
    requires IsPow2(|slots|) && Abstracts(slots, base, m) && !c.Advance?
    requires Returns(Ring(slots, base), width, c) && StaysFaithful(Ring(slots, base), m, width, c)
    ensures c.Grant? ==> FirstFit(m, width, c.start, c.maxDelta, c.result)
    ensures c.Peek? ==> FirstFit(m, width, c.start, None, Some(c.found))
    ensures Faithful(|slots|, base, LastProbed(c))
  {
    hide RoundUp;
    hide Seen;
    forall x | c.start <= x <= LastProbed(c)
      ensures Seen(slots, base, x) == GrantsAt(m, x) && Faithful(|slots|, base, x)
    {
      ProbedIsExamined(slots, base, m, width, c, x);
    }
  }

  /** One call on the ring is the same call on the unbounded allocator. */
  lemma CallRefines(ring: Ring, m: Allocation, width: nat, c: Call)
    requires IsPow2(|ring.slots|) && Abstracts(ring.slots, ring.base, m)
    requires Returns(ring, width, c) && StaysFaithful(ring, m, width, c)
    ensures FirstFitRun(m, width, [c])
    ensures var ring' := RingAfter(ring, width, c);
            IsPow2(|ring'.slots|) && Abstracts(ring'.slots, ring'.base, AllocationAfter(m, c))
  {
    hide RoundUp;
    hide Seen;
    if c.Advance? {
      AdvanceRefines(ring.slots, ring.base, m, c.newBase);
    } else {
      SearchRefines(ring.slots, ring.base, m, width, c);
      FaithfulGrowth(ring.slots, ring.base, LastProbed(c));
      if c.Grant? && c.result.Some? {
        GrantCounts(ring.slots, ring.base, c.result.value);
      }
    }
  }

  /** Whatever calls are made, the ring answers each as first-fit allocation over all cycles does. */
  lemma {:induction false} RunRefinesFirstFit(ring: Ring, m: Allocation, width: nat, calls: seq<Call>)
    requires IsPow2(|ring.slots|) && Abstracts(ring.slots, ring.base, m)
    requires RingRun(ring, m, width, calls)
    ensures FirstFitRun(m, width, calls)
    decreases |calls|
  {
    if calls != [] {
      CallRefines(ring, m, width, calls[0]);
      RunRefinesFirstFit(RingAfter(ring, width, calls[0]), AllocationAfter(m, calls[0]), width, calls[1..]);
    }
  }

  /** The allocator after any calls. */
  function AllocationAfterAll(m: Allocation, calls: seq<Call>): Allocation
    decreases |calls|
  {
    if calls == [] then m else AllocationAfterAll(AllocationAfter(m, calls[0]), calls[1..])
  }

  lemma {:induction false} LastFirstFit(m: Allocation, width: nat, calls: seq<Call>, c: Call)
    requires FirstFitRun(m, width, calls + [c]) && c.Grant?
    ensures FirstFit(AllocationAfterAll(m, calls), width, c.start, c.maxDelta, c.result)
    decreases |calls|
  {
    if calls == [] {
      assert calls + [c] == [c];
    } else {
      assert (calls + [c])[0] == calls[0] && (calls + [c])[1..] == calls[1..] + [c];
      LastFirstFit(AllocationAfter(m, calls[0]), width, calls[1..], c);
    }
  }

  /** The grants of a cycle in a run. */
  ghost function GrantsOf(calls: seq<Call>, cycle: nat): nat {
    if calls == [] then 0
    else
      (if calls[0].Grant? && calls[0].result == Some(cycle) then 1 else 0) + GrantsOf(calls[1..], cycle)
  }

  /** The allocator counts the grants. */
  lemma {:induction false} AllocationCounts(m: Allocation, calls: seq<Call>, cycle: nat)
    ensures GrantsAt(AllocationAfterAll(m, calls), cycle) == GrantsAt(m, cycle) + GrantsOf(calls, cycle)
    decreases |calls|
  {
    if calls != [] {
      AllocationCounts(AllocationAfter(m, calls[0]), calls[1..], cycle);
    }
  }

  lemma Slot256Of768()
    ensures Slot(0, 768) == 0 && Slot(256, 768) == 0 && !IsPow2(768)
  {
    hide And;
    assert Pow2(8) == 256 by {
      assert Pow2(4) == 16;
    }
    assert !BitSet(767, 8) by {
      assert BitSet(767, 8) == BitSet(47, 4);
    }
    assert !BitSet(0, 8) by {
      assert BitSet(0, 8) == BitSet(0, 4);
    }
    AndIgnoresBit(0, 767, 8);
    assert And(0, 767) <= 0;
    HoleMeansNotPow2(768, 8);
  }

  lemma SeenAt(slots: seq<nat>, cycle: nat)
    requires cycle < |slots|
    ensures Seen(slots, 0, cycle) == slots[Slot(cycle, |slots|)]
  {
  }

  /**
    Growing one step past 512 slots gives 768, where cycles 0 and 256 share a slot: with one lane taken
    at cycle 0 the ring refuses cycle 256, which nothing uses.
  */
  lemma AliasAt768()
    ensures DepthAt(512, 0, 512) == 768 && !IsPow2(768)
    ensures var slots := Grown([1], 768);
            && Count(slots, 0, 0) == 1
            && (forall c :: c < 768 && Slot(c, 768) != 0 ==> Count(slots, 0, c) == 0)
            && Finds(slots, 0, 1, 256, Some(0), None)
  {
    hide Slot;
    hide Seen;
    hide And;
    Slot256Of768();
    var slots := Grown([1], 768);
    assert Seen(slots, 0, 256) == slots[Slot(256, 768)] by {
      SeenAt(slots, 256);
    }
    assert AllBusy(slots, 0, 1, 256, 257);
  }
}
