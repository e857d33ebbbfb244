/**
  The execution-lane scheduler: a ring of per-cycle grant counts that grows on demand.
  `ResourceSchedule` works in place; the functions above it say what it computes for every
  ring depth.
*/
module ResourceSchedules {
  import opened Common
  import opened Bits

  const SCHED_DEPTH_INCREMENT: nat := 256

  /** The macro MOD_S: a bit mask, and so a remainder only for power-of-two depths. */
  function Slot(cycle: nat, depth: nat): (s: nat)
    requires depth > 0
    ensures s < depth
  {
    And(cycle, depth - 1)
  }

  /** The depth that `resize` allocates when asked for at least `needed` slots. */
  function RoundUp(needed: nat): (depth: nat)
    ensures needed <= depth < needed + SCHED_DEPTH_INCREMENT
    ensures depth % SCHED_DEPTH_INCREMENT == 0
  {
    var increments := needed / SCHED_DEPTH_INCREMENT;
    SCHED_DEPTH_INCREMENT * (if needed % SCHED_DEPTH_INCREMENT != 0 then increments + 1 else increments)
  }

  /** The ring depth at the moment a search examines `cycle`. */
  function DepthAt(depth: nat, base: nat, cycle: nat): (d: nat)
    requires base <= cycle
    ensures d >= depth && d > cycle - base
  {
    if cycle - base + 1 > depth then RoundUp(cycle - base + 1) else depth
  }

  /** The depth depends on the furthest cycle reached, not on the steps that led there. */
  lemma DepthStable(depth: nat, base: nat, last: nat, cycle: nat)
    requires depth % SCHED_DEPTH_INCREMENT == 0
    requires base <= last <= cycle
    requires cycle - base + 1 <= DepthAt(depth, base, last)
    ensures DepthAt(depth, base, cycle) == DepthAt(depth, base, last)
  {
  }

  lemma DepthsAgree(depth: nat, base: nat, last: nat, cycle: nat)
    requires depth % SCHED_DEPTH_INCREMENT == 0 && base <= last <= cycle
    ensures DepthAt(DepthAt(depth, base, last), base, cycle) == DepthAt(depth, base, cycle)
  {
    if cycle - base + 1 <= DepthAt(depth, base, last) {
      DepthStable(depth, base, last, cycle);
    }
    hide RoundUp;
  }

  /** `resize` copies the slots unchanged and appends empty ones. */
  function Grown(slots: seq<nat>, depth: nat): (s: seq<nat>)
    requires |slots| <= depth
    ensures |s| == depth
  {
    slots + seq(depth - |slots|, i => 0)
  }

  /** The count a search finds at `cycle`, after whatever growth reaching it causes. */
  function Seen(slots: seq<nat>, base: nat, cycle: nat): nat
    requires base <= cycle
  {
    var d := DepthAt(|slots|, base, cycle);
    Grown(slots, d)[Slot(cycle, d)]
  }

  ghost predicate AllBusy(slots: seq<nat>, base: nat, width: nat, from: nat, upto: nat)
    requires base <= from
  {
    forall c :: from <= c < upto ==> Seen(slots, base, c) >= width
  }

  /** The outcome of a search: the first cycle with room, or None when the limit is passed first. */
  ghost predicate Finds(slots: seq<nat>, base: nat, width: nat, start: nat, maxDelta: Option<nat>, r: Option<nat>)
    requires base <= start
  {
    match r
    case Some(c) =>
      && start <= c
      && (maxDelta.Some? ==> c <= start + maxDelta.value)
      && Seen(slots, base, c) < width
      && AllBusy(slots, base, width, start, c)
    case None =>
      maxDelta.Some? && AllBusy(slots, base, width, start, start + maxDelta.value + 1)
  }

  function Granted(slots: seq<nat>, base: nat, cycle: nat): seq<nat>
    requires base <= cycle
  {
    var d := DepthAt(|slots|, base, cycle);
    var s := Slot(cycle, d);
    Grown(slots, d)[s := Grown(slots, d)[s] + 1]
  }

  /** Growing in two steps, as a search repeated from a later cycle does, is growing in one. */
  lemma SeenAfterGrowth(slots: seq<nat>, base: nat, last: nat, cycle: nat)
    requires |slots| > 0 && |slots| % SCHED_DEPTH_INCREMENT == 0 && base <= last <= cycle
    ensures var grown := Grown(slots, DepthAt(|slots|, base, last));
            && DepthAt(|grown|, base, cycle) == DepthAt(|slots|, base, cycle)
            && Grown(grown, DepthAt(|grown|, base, cycle)) == Grown(slots, DepthAt(|slots|, base, cycle))
            && Seen(grown, base, cycle) == Seen(slots, base, cycle)
            && Granted(grown, base, cycle) == Granted(slots, base, cycle)
  {
    DepthsAgree(|slots|, base, last, cycle);
    hide DepthAt;
    hide Slot;
    var grown := Grown(slots, DepthAt(|slots|, base, last));
    var d := DepthAt(|slots|, base, cycle);
    assert Grown(grown, d) == Grown(slots, d);
  }

  /** `advance_base_cycle`: the slots of the cycles left behind are emptied one by one. */
  function Cleared(slots: seq<nat>, from: nat, upto: nat): (s: seq<nat>)
    requires |slots| > 0 && from <= upto
    ensures |s| == |slots|
    decreases upto
  {
    if from == upto then slots else Cleared(slots, from, upto - 1)[Slot(upto - 1, |slots|) := 0]
  }

  function Sum(s: seq<nat>): nat {
    if s == [] then 0 else Sum(s[..|s| - 1]) + s[|s| - 1]
  }

  // ---------------------------------------------------------------- arithmetic of the accounting

  lemma {:induction false} SumUpdate(s: seq<nat>, i: nat, v: nat)
    requires i < |s|
    ensures Sum(s[i := v]) + s[i] == Sum(s) + v
  {
    var n := |s| - 1;
    if i == n {
      assert s[i := v][..n] == s[..n];
    } else {
      SumUpdate(s[..n], i, v);
      assert s[i := v][..n] == s[..n][i := v];
    }
  }

  lemma {:induction false} SumGrown(s: seq<nat>, depth: nat)
    requires |s| <= depth
    ensures Sum(Grown(s, depth)) == Sum(s)
    decreases depth
  {
    if |s| == depth {
      assert Grown(s, depth) == s;
    } else {
      SumGrown(s, depth - 1);
      assert Grown(s, depth)[..depth - 1] == Grown(s, depth - 1);
    }
  }

  // ---------------------------------------------------------------- termination of the search

  lemma BitAheadAt(base: nat, j: nat) returns (t: nat)
    requires Low(base, j + 1) != Pow2(j)
    ensures base + Pow2(j) <= t < base + Pow2(j + 1)
    ensures BitSet(t, j)
  {
    var p, b := Pow2(j), Low(base, j + 1);
    t := if b < p then base + p else base + p + (2 * p - b);
    LowPlus(base, t - base, j + 1);
    BitSetIffLow(t, j);
  }

  lemma {:induction false} HalfPeriod(base: nat, j: nat)
    requires Low(base, j + 1) == Pow2(j)
    ensures Low(base, j + 2) != Pow2(j + 1)
  {
    LowStep(base, j + 1);
    LowStep(base, j + 2);
    if j > 0 {
      HalfPeriod(base / 2, j - 1);
    } else {
      LowStep(base / 2, 1);
    }
  }

  lemma BitAhead(base: nat, j: nat) returns (j': nat, t: nat)
    ensures j <= j'
    ensures base + Pow2(j') <= t < base + Pow2(j' + 1)
    ensures BitSet(t, j')
  {
    if Low(base, j + 1) != Pow2(j) {
      j' := j;
      t := BitAheadAt(base, j);
    } else {
      HalfPeriod(base, j);
      j' := j + 1;
      t := BitAheadAt(base, j + 1);
    }
  }

  lemma {:induction false} MultipleOf256(k: nat)
    requires k >= 8
    ensures Pow2(k) % 256 == 0
  {
    if k == 8 {
      assert Pow2(4) == 16;
    } else {
      MultipleOf256(k - 1);
    }
  }

  lemma RoundUpBelowPow2(needed: nat, k: nat)
    requires k >= 8 && needed <= Pow2(k)
    ensures RoundUp(needed) <= Pow2(k)
  {
    MultipleOf256(k);
  }

  /**
    Some cycle at or after `start` has an empty slot once the ring has grown to reach it: one whose
    bit j is set at a depth between 2^j and 2^(j+1), where no slot was in use before.
  */
  lemma EmptySlotAhead(depth: nat, base: nat, start: nat) returns (target: nat)
    requires base <= start && depth % SCHED_DEPTH_INCREMENT == 0 && depth > 0
    ensures start <= target
    ensures Slot(target, DepthAt(depth, base, target)) >= depth
  {
    hide BitSet;
    hide And;
    hide Low;
    hide Pow2;
    var j := depth + (start - base) + 8;
    Pow2Unbounded(j);
    var j', t := BitAhead(base, j);
    Pow2Grows(j, j');
    target := t;
    var d := DepthAt(depth, base, target);
    RoundUpBelowPow2(t - base + 1, j' + 1);
    BitSetIffLow(d - 1, j');
    LowOfSmall(d - 1, j' + 1);
    AndKeepsBit(t, d - 1, j');
  }

  /** With at least one lane, an unlimited search always ends in a grant. */
  lemma SearchEnds(slots: seq<nat>, base: nat, width: nat, start: nat) returns (target: nat)
    requires base <= start && |slots| % SCHED_DEPTH_INCREMENT == 0 && |slots| > 0 && width > 0
    ensures start <= target && Seen(slots, base, target) < width
  {
    target := EmptySlotAhead(|slots|, base, start);
  }

  // ---------------------------------------------------------------- calls and what they lead to

  datatype Ring = Ring(slots: seq<nat>, base: nat)

  /** A call together with what it returned. */
  datatype Call =
    | Grant(start: nat, maxDelta: Option<nat>, result: Option<nat>)
    | Peek(start: nat, found: nat)
    | Advance(newBase: nat)

  function LastProbed(c: Call): nat {
    match c
    case Grant(start, maxDelta, result) =>
      if result.Some? then result.value else if maxDelta.Some? then start + maxDelta.value else start
    case Peek(_, found) => found
    case Advance(newBase) => newBase
  }

  ghost predicate Returns(ring: Ring, width: nat, c: Call) {
    match c
    case Grant(start, maxDelta, result) =>
      ring.base <= start && Finds(ring.slots, ring.base, width, start, maxDelta, result)
    case Peek(start, found) => ring.base <= start && Finds(ring.slots, ring.base, width, start, None, Some(found))
    case Advance(newBase) => |ring.slots| > 0 && ring.base <= newBase
  }

  ghost function RingAfter(ring: Ring, width: nat, c: Call): Ring
    requires Returns(ring, width, c)
  {
    match c
    case Grant(_, _, result) =>
      ring.(slots := if result.Some? then Granted(ring.slots, ring.base, result.value)
                     else Grown(ring.slots, DepthAt(|ring.slots|, ring.base, LastProbed(c))))
    case Peek(_, found) => ring.(slots := Grown(ring.slots, DepthAt(|ring.slots|, ring.base, found)))
    case Advance(newBase) => Ring(Cleared(ring.slots, ring.base, newBase), newBase)
  }

  /** A run of the ring: each call returns what the ring gives. */
  ghost predicate RingReturns(ring: Ring, width: nat, calls: seq<Call>)
    decreases |calls|
  {
    calls == [] || (Returns(ring, width, calls[0]) && RingReturns(RingAfter(ring, width, calls[0]), width, calls[1..]))
  }

  ghost function RingAfterAll(ring: Ring, width: nat, calls: seq<Call>): Ring
    requires RingReturns(ring, width, calls)
    decreases |calls|
  {
    if calls == [] then ring else RingAfterAll(RingAfter(ring, width, calls[0]), width, calls[1..])
  }

  /** The calls were answered by the ring, and lead from `ring` to `ring'`. */
  ghost predicate Ran(ring: Ring, width: nat, calls: seq<Call>, ring': Ring) {
    RingReturns(ring, width, calls) && RingAfterAll(ring, width, calls) == ring'
  }

  lemma RanNothing(ring: Ring, width: nat)
    ensures Ran(ring, width, [], ring)
  {
  }

  lemma RanOne(ring: Ring, width: nat, c: Call)
    requires Returns(ring, width, c)
    ensures Ran(ring, width, [c], RingAfter(ring, width, c))
  {
    var ring', calls := RingAfter(ring, width, c), [c];
    hide RingAfter;
    hide Returns;
    assert calls[0] == c && calls[1..] == [] && RingReturns(ring', width, [])
           && RingAfterAll(ring', width, []) == ring';
    assert RingReturns(ring, width, calls);
  }

  lemma GrantRan(slots: seq<nat>, base: nat, width: nat, start: nat, maxDelta: Option<nat>, r: Option<nat>)
    requires base <= start && Finds(slots, base, width, start, maxDelta, r)
    ensures Ran(Ring(slots, base), width, [Grant(start, maxDelta, r)],
                Ring(if r.Some? then Granted(slots, base, r.value)
                     else Grown(slots, DepthAt(|slots|, base, start + maxDelta.value)), base))
  {
    RanOne(Ring(slots, base), width, Grant(start, maxDelta, r));
    hide Ran;
    hide Seen;
    hide AllBusy;
  }

  lemma AdvanceRan(slots: seq<nat>, base: nat, width: nat, newBase: nat)
    requires |slots| > 0 && base <= newBase
    ensures Ran(Ring(slots, base), width, [Advance(newBase)], Ring(Cleared(slots, base, newBase), newBase))
  {
    RanOne(Ring(slots, base), width, Advance(newBase));
  }

  lemma {:induction false} RanConcat(ring: Ring, width: nat, a: seq<Call>, mid: Ring, b: seq<Call>, ring': Ring)
    requires Ran(ring, width, a, mid) && Ran(mid, width, b, ring')
    ensures Ran(ring, width, a + b, ring')
    decreases |a|
  {
    hide RingAfter;
    hide Returns;
    if a == [] {
      assert a + b == b;
    } else {
      assert (a + b)[1..] == a[1..] + b;
      RanConcat(RingAfter(ring, width, a[0]), width, a[1..], mid, b, ring');
    }
  }

  class ResourceSchedule {
    var sched: array<nat>
    var depth: nat
    const width: nat
    var baseCycle: nat
    ghost var grants: nat     // successful calls to Schedule so far
    ghost var cleared: nat    // counts erased by AdvanceBaseCycle so far

    ghost predicate Valid()
      reads this, sched
    {
      && depth == sched.Length > 0
      && depth % SCHED_DEPTH_INCREMENT == 0
      && (forall i :: 0 <= i < depth ==> sched[i] <= width)
      && Sum(sched[..]) + cleared == grants
    }

    ghost function View(): Ring
      reads this, sched
    {
      Ring(sched[..], baseCycle)
    }

    constructor (width: nat)
      ensures Valid() && fresh(sched)
      ensures this.width == width && baseCycle == 0 && depth == SCHED_DEPTH_INCREMENT
      ensures sched[..] == seq(SCHED_DEPTH_INCREMENT, i => 0) && grants == 0
    {
      this.width := width;
      baseCycle, depth := 0, SCHED_DEPTH_INCREMENT;
      sched := new nat[SCHED_DEPTH_INCREMENT](i => 0);
      grants, cleared := 0, 0;
      new;
      assert sched[..] == Grown([], depth);
      SumGrown([], depth);
    }

    static method CopySlots(before: array<nat>, depth: nat) returns (s: array<nat>)
      requires before.Length <= depth
      ensures fresh(s) && s[..] == Grown(before[..], depth)
    {
      s := new nat[depth];
      var i := 0;
      while i < before.Length
        invariant i <= before.Length
        invariant forall k :: 0 <= k < i ==> s[k] == before[k]
      {
        s[i] := before[i];
        i := i + 1;
      }
      while i < depth
        invariant before.Length <= i <= depth
        invariant forall k :: 0 <= k < i ==> s[k] == if k < before.Length then before[k] else 0
      {
        s[i] := 0;
        i := i + 1;
      }
    }

    method Resize(newDepth: nat)
      requires Valid() && newDepth > depth
      modifies this`sched, this`depth
      ensures Valid() && fresh(sched)
      ensures depth == RoundUp(newDepth)
      ensures sched[..] == Grown(old(sched[..]), depth)
    {
      var oldDepth, before := depth, sched;
      ghost var slots := sched[..];
      var increments := newDepth / SCHED_DEPTH_INCREMENT;
      if newDepth % SCHED_DEPTH_INCREMENT != 0 {
        increments := increments + 1;
      }
      depth := increments * SCHED_DEPTH_INCREMENT;
      assert depth >= newDepth;
      var grown := CopySlots(before, depth);
      sched := grown;
      SumGrown(slots, depth);
      assert forall i :: 0 <= i < depth ==> sched[i] == sched[..][i] <= width;
    }

    /** Makes the ring reach `cycle` and looks at its slot: one round of the search; `last` was probed before. */
    method Probe(cycle: nat, ghost slots: seq<nat>, ghost last: nat) returns (room: bool)
      requires Valid() && 0 < |slots| <= depth && |slots| % SCHED_DEPTH_INCREMENT == 0
      requires baseCycle <= last <= cycle
      requires sched[..] == Grown(slots, depth)
      requires depth == |slots| || depth == DepthAt(|slots|, baseCycle, last)
      modifies this`sched, this`depth
      ensures Valid() && (sched == old(sched) || fresh(sched))
      ensures depth == DepthAt(|slots|, baseCycle, cycle)
      ensures sched[..] == Grown(slots, depth)
      ensures room <==> Seen(slots, baseCycle, cycle) < width
    {
      if cycle - baseCycle + 1 > depth {
        Resize(cycle - baseCycle + 1);
      } else if depth != |slots| {
        DepthStable(|slots|, baseCycle, last, cycle);
      }
      assert depth == DepthAt(|slots|, baseCycle, cycle);
      assert sched[Slot(cycle, depth)] == sched[..][Slot(cycle, depth)] == Seen(slots, baseCycle, cycle);
      room := sched[Slot(cycle, depth)] < width;
    }

    /** `sched[s]++` */
    method Take(s: nat)
      requires Valid() && s < depth && sched[s] < width
      modifies this`grants, sched
      ensures Valid() && grants == old(grants) + 1
      ensures sched[..] == old(sched[..])[s := old(sched[s]) + 1]
    {
      SumUpdate(sched[..], s, sched[s] + 1);
      ghost var before := sched[..];
      sched[s] := sched[s] + 1;
      assert sched[..] == before[s := before[s] + 1];
      grants := grants + 1;
    }

    /** The loop that both searches run; it stops at the first cycle with room, which it leaves untouched. */
    method Search(startCycle: nat, maxDelta: Option<nat>) returns (r: Option<nat>)
      requires Valid() && width > 0
      requires startCycle >= baseCycle
      modifies this`sched, this`depth
      ensures Valid() && (sched == old(sched) || fresh(sched))
      ensures Finds(old(sched[..]), baseCycle, width, startCycle, maxDelta, r)
      ensures depth == DepthAt(old(depth), baseCycle, if r.Some? then r.value else startCycle + maxDelta.value)
      ensures sched[..] == Grown(old(sched[..]), depth)
    {
      hide Sum;
      hide RoundUp;
      hide Seen;
      ghost var slots := sched[..];
      ghost var target := SearchEnds(slots, baseCycle, width, startCycle);
      assert sched[..] == Grown(slots, depth);
      var cycle := startCycle;
      ghost var last := startCycle;
      while true
        invariant Valid() && startCycle <= last <= cycle <= target
        invariant sched == old(sched) || fresh(sched)
        invariant maxDelta.Some? ==> cycle <= startCycle + maxDelta.value
        invariant forall c :: startCycle <= c < cycle ==> Seen(slots, baseCycle, c) >= width
        invariant |slots| <= depth && sched[..] == Grown(slots, depth)
        invariant depth == |slots| || depth == DepthAt(|slots|, baseCycle, last)
        decreases target - cycle
      {
        var room := Probe(cycle, slots, last);
        last := cycle;
        if room {
          return Some(cycle);
        }
        cycle := cycle + 1;
        if maxDelta.Some? && cycle > startCycle + maxDelta.value {
          return None;
        }
      }
    }

    method Schedule(startCycle: nat, maxDelta: Option<nat>) returns (r: Option<nat>)
      requires Valid() && width > 0
      requires startCycle >= baseCycle
      modifies this`sched, this`depth, this`grants, sched
      ensures Valid() && (sched == old(sched) || fresh(sched))
      ensures Finds(old(sched[..]), baseCycle, width, startCycle, maxDelta, r)
      ensures grants == old(grants) + (if r.Some? then 1 else 0)
      ensures r.Some? ==> sched[..] == Granted(old(sched[..]), baseCycle, r.value)
      ensures r.None? ==>
                sched[..] == Grown(old(sched[..]), DepthAt(|old(sched[..])|, baseCycle, startCycle + maxDelta.value))
      ensures Ran(old(View()), width, [Grant(startCycle, maxDelta, r)], View())
    {
      hide Ran;
      r := Search(startCycle, maxDelta);
      GrantRan(old(sched[..]), baseCycle, width, startCycle, maxDelta, r);
      if r.Some? {
        assert sched[Slot(r.value, depth)] == sched[..][Slot(r.value, depth)];
        Take(Slot(r.value, depth));
      }
    }

    method TrySchedule(tryCycle: nat) returns (r: nat)
      requires Valid() && width > 0
      requires tryCycle >= baseCycle
      modifies this`sched, this`depth
      ensures Valid() && (sched == old(sched) || fresh(sched))
      ensures Finds(old(sched[..]), baseCycle, width, tryCycle, None, Some(r))
      ensures sched[..] == Grown(old(sched[..]), DepthAt(old(depth), baseCycle, r))
      ensures Ran(old(View()), width, [Peek(tryCycle, r)], View())
    {
      var found := Search(tryCycle, None);
      r := found.value;
      RanOne(old(View()), width, Peek(tryCycle, r));
      hide Ran;
    }

    /** Empties one slot. */
    method Clear(s: nat)
      requires Valid() && s < depth
      modifies this`cleared, sched
      ensures Valid() && sched[..] == old(sched[..])[s := 0]
    {
      SumUpdate(sched[..], s, 0);
      ghost var before := sched[..];
      cleared := cleared + sched[s];
      sched[s] := 0;
      assert sched[..] == before[s := 0];
    }

    method AdvanceBaseCycle(newBaseCycle: nat)
      requires Valid()
      requires newBaseCycle >= baseCycle
      modifies this`baseCycle, this`cleared, sched
      ensures Valid() && baseCycle == newBaseCycle
      ensures sched[..] == Cleared(old(sched[..]), old(baseCycle), newBaseCycle)
      ensures cleared - old(cleared) == Sum(old(sched[..])) - Sum(sched[..])
      ensures Ran(old(View()), width, [Advance(newBaseCycle)], View())
    {
      hide Ran;
      hide Sum;
      hide Slot;
      AdvanceRan(sched[..], baseCycle, width, newBaseCycle);
      ghost var slots := sched[..];
      var i := baseCycle;
      while i < newBaseCycle
        invariant baseCycle <= i <= newBaseCycle
        invariant baseCycle == old(baseCycle)
        invariant Valid()
        invariant sched[..] == Cleared(slots, baseCycle, i)
      {
        Clear(Slot(i, depth));
        i := i + 1;
      }
      baseCycle := newBaseCycle;
    }
  }
}
