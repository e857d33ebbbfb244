/**
  The reference prediction table of the stride prefetcher as values: how one entry learns, and how the
  table finds, replaces and ages its entries.
*/
module StrideTables {
  import opened Common

  const WORD: nat := 0x1_0000_0000_0000_0000
  const SENTINEL: nat := 0xdeadbeef
  const PREFETCH_MULTIPLIER: nat := 2

  datatype PrefetcherState = Invalid | Initial | Transient | SteadyState | NoPrediction

  /** Addresses and strides are 64-bit words; a stride is kept as the residue of its two's complement. */
  datatype RPTEntry = RPTEntry(state: PrefetcherState, tag: nat, prev: nat, current: nat, stride: nat, lru: nat)

  function Difference(a: nat, b: nat): (d: nat)
    ensures d < WORD
  {
    (a - b) % WORD
  }

  function Plus(a: nat, s: nat): (r: nat)
    ensures r < WORD
  {
    (a + s) % WORD
  }

  /** What an access at `address` teaches an entry that is already tracking the load. */
  function Trained(e: RPTEntry, address: nat): RPTEntry
    requires !e.state.Invalid?
  {
    var stride := Difference(address, e.current);
    var moved := e.(prev := e.current, current := address);
    match e.state
    case Initial =>
      if stride == e.stride then moved.(state := SteadyState) else moved.(state := Transient, stride := stride)
    case Transient =>
      if stride == e.stride then moved.(state := SteadyState) else moved.(state := NoPrediction, stride := stride)
    case SteadyState => if stride == e.stride then moved else moved.(state := Initial)
    case NoPrediction => if stride == e.stride then moved.(state := Transient) else moved.(stride := stride)
  }

  /** The entry after `n` accesses, each `s` beyond the one before. */
  function Walk(e: RPTEntry, s: nat, n: nat): (r: RPTEntry)
    requires !e.state.Invalid?
    ensures !r.state.Invalid?
  {
    if n == 0 then e
    else
      var before := Walk(e, s, n - 1);
      Trained(before, Plus(before.current, s))
  }

  lemma StrideOfStep(a: nat, s: nat)
    requires a < WORD && s < WORD
    ensures Difference(Plus(a, s), a) == s
  {
  }

  /** Two equal strides settle exactly the entries that were fresh or already held the stride. */
  lemma TwoStridesSettleIff(e: RPTEntry, s: nat)
    requires !e.state.Invalid? && e.current < WORD && s < WORD
    ensures Walk(e, s, 2).state == SteadyState <==> e.state == Initial || e.stride == s
  {
    var one := Walk(e, s, 1);
    assert one == Trained(e, Plus(e.current, s)) by {
      assert Walk(e, s, 0) == e;
    }
    assert Walk(e, s, 2) == Trained(one, Plus(one.current, s));
    StrideOfStep(e.current, s);
    StrideOfStep(one.current, s);
  }

  /** Three equal strides settle every entry, and it stays settled while the stride continues. */
  lemma {:induction false} ThreeStridesSettle(e: RPTEntry, s: nat, n: nat)
    requires !e.state.Invalid? && e.current < WORD && s < WORD && n >= 3
    ensures Walk(e, s, n).state == SteadyState && Walk(e, s, n).stride == s && Walk(e, s, n).current < WORD
  {
    if n == 3 {
      var one := Trained(e, Plus(e.current, s));
      var two := Trained(one, Plus(one.current, s));
      assert Walk(e, s, 0) == e;
      assert Walk(e, s, 1) == one;
      assert Walk(e, s, 2) == two;
      StrideOfStep(e.current, s);
      StrideOfStep(one.current, s);
      StrideOfStep(two.current, s);
    } else {
      ThreeStridesSettle(e, s, n - 1);
      StrideOfStep(Walk(e, s, n - 1).current, s);
    }
  }

  /** The address that a lookahead on a settled entry asks for. */
  function Target(e: RPTEntry): nat {
    (e.current + e.stride * PREFETCH_MULTIPLIER) % WORD
  }

  lemma WalkMoves(e: RPTEntry, s: nat, n: nat)
    requires !e.state.Invalid? && n > 0
    ensures Walk(e, s, n).current == Plus(Walk(e, s, n - 1).current, s)
  {
  }

  lemma PlusTwice(a: nat, s: nat)
    requires a < WORD && s < WORD
    ensures Plus(Plus(a, s), s) == (a + s * PREFETCH_MULTIPLIER) % WORD
  {
  }

  /** While the stride continues, the prefetch is for the access after the one now being fetched. */
  lemma LookaheadIsOneAhead(e: RPTEntry, s: nat, n: nat)
    requires !e.state.Invalid? && e.current < WORD && s < WORD && n >= 3
    ensures Target(Walk(e, s, n)) == Walk(e, s, n + 2).current
  {
    ThreeStridesSettle(e, s, n);
    var now := Walk(e, s, n);
    WalkMoves(e, s, n + 1);
    WalkMoves(e, s, n + 2);
    PlusTwice(now.current, s);
  }

  // ---------------------------------------------------------------- the table

  function Lrus(t: seq<RPTEntry>): seq<nat> {
    seq(|t|, i requires 0 <= i < |t| => t[i].lru)
  }

  /** Ranks are a permutation, unused entries carry the sentinel, and used entries have distinct tags. */
  ghost predicate TableOk(t: seq<RPTEntry>) {
    && IsRanking(Lrus(t))
    && (forall i :: 0 <= i < |t| && t[i].state.Invalid? ==> t[i].tag == SENTINEL)
    && (forall i, j :: 0 <= i < |t| && 0 <= j < |t| && i != j && !t[i].state.Invalid? ==> t[i].tag != t[j].tag)
  }

  /** `std::find_if` on the tag: the first position with it, or the table's length. */
  function Find(t: seq<RPTEntry>, pc: nat): (i: nat)
    ensures i <= |t|
    ensures i < |t| ==> t[i].tag == pc
    ensures forall j :: 0 <= j < i ==> t[j].tag != pc
  {
    if t == [] || t[0].tag == pc then 0 else 1 + Find(t[1..], pc)
  }

  lemma FindIs(t: seq<RPTEntry>, pc: nat, i: nat)
    requires i <= |t| && (i < |t| ==> t[i].tag == pc) && forall j :: 0 <= j < i ==> t[j].tag != pc
    ensures Find(t, pc) == i
  {
  }

  /** `update_lru`: everything ranked above `index` drops by one, and `index` gets the top rank. */
  function Refreshed(t: seq<RPTEntry>, index: nat): (r: seq<RPTEntry>)
    requires index < |t|
    ensures |r| == |t|
    ensures forall i :: 0 <= i < |t| ==> r[i].(lru := 0) == t[i].(lru := 0)
  {
    seq(|t|, i requires 0 <= i < |t| =>
      if i == index then t[i].(lru := |t| - 1)
      else if t[i].lru > t[index].lru then t[i].(lru := t[i].lru - 1)
      else t[i])
  }

  function Fresh(e: RPTEntry, pc: nat, address: nat): RPTEntry {
    RPTEntry(Initial, pc, SENTINEL, address, 0, e.lru)
  }

  /** The table after training; `victim` is the entry of rank 0, replaced when the load is not tracked yet. */
  function TrainedTable(t: seq<RPTEntry>, victim: nat, pc: nat, address: nat): (r: seq<RPTEntry>)
    requires victim < |t|
    requires Find(t, pc) < |t| ==> !t[Find(t, pc)].state.Invalid?
    ensures |r| == |t|
  {
    var i := Find(t, pc);
    if i == |t| then
      Refreshed(t[victim := Fresh(t[victim], pc, address)], victim)
    else
      var e := Trained(t[i], address);
      if e.stride != 0 then Refreshed(t[i := e], i) else t[i := e]
  }

  lemma RefreshedIsRanking(t: seq<RPTEntry>, index: nat)
    requires index < |t| && IsRanking(Lrus(t))
    ensures IsRanking(Lrus(Refreshed(t, index)))
  {
    var r, a := Lrus(t), Lrus(Refreshed(t, index));
    forall i, j | 0 <= i < j < |a|
      ensures a[i] != a[j]
    {
      assert r[i] != r[j];
      assert i != index ==> r[i] != r[index];
      assert j != index ==> r[j] != r[index];
      assert r[i] < |t| && r[j] < |t| && r[index] < |t|;
    }
    assert forall i :: 0 <= i < |a| ==> r[i] < |r| && a[i] < |a|;
  }

  lemma RefreshedOk(t: seq<RPTEntry>, index: nat)
    requires index < |t| && TableOk(t)
    ensures TableOk(Refreshed(t, index))
  {
    RefreshedIsRanking(t, index);
    var r := Refreshed(t, index);
    assert forall i :: 0 <= i < |t| ==> r[i].(lru := 0).tag == t[i].tag && r[i].(lru := 0).state == t[i].state;
  }

  /** A ranking always has a victim. */
  lemma VictimExists(t: seq<RPTEntry>) returns (victim: nat)
    requires TableOk(t) && t != []
    ensures victim < |t| && t[victim].lru == 0
  {
    victim := EveryRankTaken(Lrus(t), 0);
  }

  /** An entry may change while its rank stays, it is in use, and no other entry has its tag. */
  lemma EntryChanged(t: seq<RPTEntry>, i: nat, e: RPTEntry)
    requires TableOk(t) && i < |t| && e.lru == t[i].lru && !e.state.Invalid?
    requires forall j :: 0 <= j < |t| && j != i ==> t[j].tag != e.tag
    ensures TableOk(t[i := e])
  {
    assert Lrus(t[i := e]) == Lrus(t);
  }

  /** Training keeps ranks a permutation and tags distinct. */
  lemma TrainingKeepsTable(t: seq<RPTEntry>, victim: nat, pc: nat, address: nat)
    requires TableOk(t) && victim < |t| && t[victim].lru == 0
    requires Find(t, pc) < |t| ==> !t[Find(t, pc)].state.Invalid?
    ensures TableOk(TrainedTable(t, victim, pc, address))
  {
    hide IsRanking;
    hide Refreshed;
    var i := Find(t, pc);
    if i == |t| {
      var e := Fresh(t[victim], pc, address);
      EntryChanged(t, victim, e);
      RefreshedOk(t[victim := e], victim);
    } else {
      var e := Trained(t[i], address);
      EntryChanged(t, i, e);
      RefreshedOk(t[i := e], i);
    }
  }

  /**
    The branch the source marks unexpected, training an unused entry, is taken exactly for the PC equal
    to the sentinel tag while some entry is still unused.
  */
  lemma UnexpectedStateIff(t: seq<RPTEntry>, pc: nat)
    requires TableOk(t)
    ensures (Find(t, pc) < |t| && t[Find(t, pc)].state.Invalid?)
            <==> (pc == SENTINEL && exists i :: 0 <= i < |t| && t[i].state.Invalid?)
  {
  }

  /** Training another load leaves a tracked load alone, unless it was the victim. */
  lemma OthersUntouched(t: seq<RPTEntry>, victim: nat, pc: nat, address: nat, k: nat)
    requires TableOk(t) && victim < |t| && k < |t| && t[k].tag != pc
    requires Find(t, pc) < |t| ==> !t[Find(t, pc)].state.Invalid?
    requires k != victim || Find(t, pc) < |t|
    ensures TrainedTable(t, victim, pc, address)[k].(lru := 0) == t[k].(lru := 0)
  {
  }
}
