/** The skewed four-way table of loop entries, looked up at prediction and updated in place. */
module LoopTables {
  import opened Bits
  import opened LoopPredictors

  const ENTRIES: nat := 32   // 1 << LOGL

  function Tag(pc: nat): nat {
    var t := Low(Shr(pc, LOGL - 2), 2 * LOOPTAG);
    Low(Xor(t, Shr(t, LOOPTAG)), LOOPTAG)
  }

  lemma {:induction false} ShrShrinks(x: nat, k: nat)
    ensures Shr(x, k) <= x
  {
    if k > 0 {
      ShrShrinks(x / 2, k - 1);
    }
  }

  lemma XorOfFours(x: nat, y: nat)
    ensures Xor(4 * x, 4 * y) == 4 * Xor(x, y)
  {
  }

  lemma SkewedInTable(li: nat, lib: nat, w: nat)
    requires li < Pow2(LOGL - 2) && lib < Pow2(LOGL - 2) && w < 4
    ensures Xor(4 * li, 4 * Shr(lib, w)) + w < ENTRIES && (Xor(4 * li, 4 * Shr(lib, w)) + w) % 4 == w
  {
    hide Xor;
    hide Shr;
    ShrShrinks(lib, w);
    XorOfFours(li, Shr(lib, w));
    XorBelow(li, Shr(lib, w), LOGL - 2);
    assert Pow2(LOGL - 2) == 8;
  }

  function Skewed(li: nat, lib: nat, w: nat): (i: nat)
    requires li < Pow2(LOGL - 2) && lib < Pow2(LOGL - 2) && w < 4
    ensures i < ENTRIES && i % 4 == w
  {
    SkewedInTable(li, lib, w);
    hide Xor;
    hide Shr;
    Xor(4 * li, 4 * Shr(lib, w)) + w
  }

  /** The position of a branch in way `w`: (LI ^ ((LIB >> w) << 2)) + w. */
  function Position(pc: nat, w: nat): (i: nat)
    requires w < 4
    ensures i < ENTRIES && i % 4 == w
  {
    Skewed(Low(Xor(pc, Shr(pc, 2)), LOGL - 2), Low(Shr(pc, LOGL - 2), LOGL - 2), w)
  }

  /** The first way whose entry carries the branch's tag, or 4. */
  function HitWay(t: seq<LEntry>, pc: nat, w: nat): (h: nat)
    requires |t| == ENTRIES && w <= 4
    ensures w <= h <= 4
    ensures h < 4 ==> t[Position(pc, h)].tag == Tag(pc)
    ensures forall k :: w <= k < h ==> t[Position(pc, k)].tag != Tag(pc)
    decreases 4 - w
  {
    if w == 4 || t[Position(pc, w)].tag == Tag(pc) then w else HitWay(t, pc, w + 1)
  }

  function TableStepped(t: seq<LEntry>, pc: nat, taken: bool, older: bool): (t': seq<LEntry>)
    requires |t| == ENTRIES
    ensures |t'| == ENTRIES
  {
    var h := HitWay(t, pc, 0);
    if h == 4 then t else t[Position(pc, h) := Stepped(t[Position(pc, h)], taken, older)]
  }

  lemma StepKeepsTag(e: LEntry, taken: bool, older: bool)
    ensures Stepped(e, taken, older).tag == e.tag
  {
  }

  lemma {:induction false} SameTagsSameWay(t: seq<LEntry>, t': seq<LEntry>, pc: nat, w: nat)
    requires |t| == |t'| == ENTRIES && w <= 4 && forall i :: 0 <= i < ENTRIES ==> t'[i].tag == t[i].tag
    ensures HitWay(t', pc, w) == HitWay(t, pc, w)
    decreases 4 - w
  {
  }

  /** An update never moves or hides the entry it was made to: the next lookup of any branch hits the same way. */
  lemma SteppingKeepsHits(t: seq<LEntry>, pc: nat, taken: bool, older: bool, other: nat)
    requires |t| == ENTRIES
    ensures HitWay(TableStepped(t, pc, taken, older), other, 0) == HitWay(t, other, 0)
  {
    var t' := TableStepped(t, pc, taken, older);
    forall i | 0 <= i < ENTRIES
      ensures t'[i].tag == t[i].tag
    {
      StepKeepsTag(t[i], taken, older);
    }
    SameTagsSameWay(t, t', other, 0);
  }

  // ---------------------------------------------------------------- a loop among other branches

  /** An update of the table for a branch, after its lookup; the last four settle what the table leaves to chance. */
  datatype Call = Call(pc: nat, taken: bool, alloc: bool, older: bool, tryWay: nat, lucky: bool)

  /** A hit steps its entry; a miss may age one way, or replace it when it is old enough. */
  function TableAfter(t: seq<LEntry>, c: Call): (t': seq<LEntry>)
    requires |t| == ENTRIES && c.tryWay < 4
    ensures |t'| == ENTRIES
  {
    var index := Position(c.pc, c.tryWay);
    if HitWay(t, c.pc, 0) < 4 then TableStepped(t, c.pc, c.taken, c.older)
    else if !c.alloc || !c.lucky then t
    else if t[index].age > 0 then t[index := t[index].(age := t[index].age - 1)]
    else t[index := LEntry(0, 0, 0, Tag(c.pc), 7, !c.taken)]
  }

  /** The call neither hits nor replaces way `w` of `pc`, nor puts the same tag into a way looked at before it. */
  predicate Apart(t: seq<LEntry>, c: Call, pc: nat, w: nat)
    requires |t| == ENTRIES && c.tryWay < 4 && w < 4
  {
    var h := HitWay(t, c.pc, 0);
    if h < 4 then Position(c.pc, h) != Position(pc, w)
    else
      && Position(c.pc, c.tryWay) != Position(pc, w)
      && (Tag(c.pc) == Tag(pc) ==> forall k :: 0 <= k < w ==> Position(c.pc, c.tryWay) != Position(pc, k))
  }

  lemma {:induction false} HitWayIs(t: seq<LEntry>, pc: nat, v: nat, w: nat)
    requires |t| == ENTRIES && v <= w < 4 && t[Position(pc, w)].tag == Tag(pc)
    requires forall k :: v <= k < w ==> t[Position(pc, k)].tag != Tag(pc)
    ensures HitWay(t, pc, v) == w
    decreases w - v
  {
    hide Position;
    if v < w {
      HitWayIs(t, pc, v + 1, w);
    }
  }

  lemma ApartKeeps(t: seq<LEntry>, c: Call, pc: nat, w: nat)
    requires |t| == ENTRIES && c.tryWay < 4 && w < 4 && HitWay(t, pc, 0) == w && Apart(t, c, pc, w)
    ensures HitWay(TableAfter(t, c), pc, 0) == w && TableAfter(t, c)[Position(pc, w)] == t[Position(pc, w)]
  {
    hide Position;
    hide Stepped;
    if HitWay(t, c.pc, 0) < 4 {
      SteppingKeepsHits(t, c.pc, c.taken, c.older, pc);
    } else {
      HitWayIs(TableAfter(t, c), pc, 0, w);
    }
  }

  function TableRun(t: seq<LEntry>, calls: seq<Call>): (t': seq<LEntry>)
    requires |t| == ENTRIES && forall k :: 0 <= k < |calls| ==> calls[k].tryWay < 4
    ensures |t'| == ENTRIES
  {
    if calls == [] then t else TableAfter(TableRun(t, calls[..|calls| - 1]), calls[|calls| - 1])
  }

  /** How far the loop has got: complete traversals, and iterations of the next one. */
  datatype Progress = Progress(q: nat, r: nat)

  function ProgressOf(calls: seq<Call>, pc: nat, n: nat): (p: Progress)
    requires n > 0
    ensures p.r < n
  {
    if calls == [] then Progress(0, 0)
    else
      var p := ProgressOf(calls[..|calls| - 1], pc, n);
      if calls[|calls| - 1].pc != pc then p
      else if p.r + 1 == n then Progress(p.q + 1, 0) else Progress(p.q, p.r + 1)
  }

  /** The loop's own calls report its true outcomes, and every other call leaves its entry apart. */
  ghost predicate LoopRun(t: seq<LEntry>, calls: seq<Call>, pc: nat, w: nat, n: nat, body: bool,
                          older: (nat, nat) -> bool)
    requires |t| == ENTRIES && w < 4 && n > 0
  {
    calls == [] || (
      var before, c := calls[..|calls| - 1], calls[|calls| - 1];
      var p := ProgressOf(before, pc, n);
      && LoopRun(t, before, pc, w, n, body, older)
      && (forall k :: 0 <= k < |calls| ==> calls[k].tryWay < 4)
      && (if c.pc == pc then c.taken == Outcome(n, p.r, body) && c.older == older(p.q, p.r)
          else Apart(TableRun(t, before), c, pc, w)))
  }

  lemma OwnStep(t: seq<LEntry>, c: Call, w: nat)
    requires |t| == ENTRIES && c.tryWay < 4 && w < 4 && HitWay(t, c.pc, 0) == w
    ensures HitWay(TableAfter(t, c), c.pc, 0) == w
    ensures TableAfter(t, c)[Position(c.pc, w)] == Stepped(t[Position(c.pc, w)], c.taken, c.older)
  {
    hide Position;
    SteppingKeepsHits(t, c.pc, c.taken, c.older, c.pc);
  }

  lemma DrivenNext(e: LEntry, n: nat, body: bool, older: (nat, nat) -> bool, p: Progress)
    requires p.r < n
    ensures var next := if p.r + 1 == n then Progress(p.q + 1, 0) else Progress(p.q, p.r + 1);
            Driven(e, n, body, older, next.q, next.r)
            == Stepped(Driven(e, n, body, older, p.q, p.r), Outcome(n, p.r, body), older(p.q, p.r))
  {
    hide Stepped;
  }

  /** Among other branches that leave it apart, a loop's entry is where its own updates alone would have it. */
  lemma {:induction false} DrivenAmongOthers(t: seq<LEntry>, calls: seq<Call>, pc: nat, w: nat, n: nat, body: bool,
                                             older: (nat, nat) -> bool)
    requires |t| == ENTRIES && w < 4 && n > 0 && HitWay(t, pc, 0) == w && LoopRun(t, calls, pc, w, n, body, older)
    ensures forall k :: 0 <= k < |calls| ==> calls[k].tryWay < 4
    ensures var t', p := TableRun(t, calls), ProgressOf(calls, pc, n);
            && HitWay(t', pc, 0) == w
            && t'[Position(pc, w)] == Driven(t[Position(pc, w)], n, body, older, p.q, p.r)
  {
    hide Position;
    hide Stepped;
    hide Outcome;
    hide Apart;
    if calls != [] {
      var before, c := calls[..|calls| - 1], calls[|calls| - 1];
      DrivenAmongOthers(t, before, pc, w, n, body, older);
      var t1 := TableRun(t, before);
      var p := ProgressOf(before, pc, n);
      if c.pc == pc {
        OwnStep(t1, c, w);
        DrivenNext(t[Position(pc, w)], n, body, older, p);
      } else {
        ApartKeeps(t1, c, pc, w);
      }
      hide Driven;
      hide HitWay;
      hide TableAfter;
    }
  }

  /** So a loop of 3 to 1023 iterations is learned in the table as well. */
  lemma LearnedInTable(t: seq<LEntry>, calls: seq<Call>, pc: nat, w: nat, n: nat, body: bool, older: (nat, nat) -> bool)
    requires |t| == ENTRIES && w < 4 && 3 <= n < ITERATIONS
    requires HitWay(t, pc, 0) == w && JustAllocated(t[Position(pc, w)], body)
             && LoopRun(t, calls, pc, w, n, body, older)
    requires ProgressOf(calls, pc, n).q >= 16
    ensures forall k :: 0 <= k < |calls| ==> calls[k].tryWay < 4
    ensures var t' := TableRun(t, calls);
            HitWay(t', pc, 0) == w && Right(t'[Position(pc, w)], n, ProgressOf(calls, pc, n).r, body)
  {
    var p := ProgressOf(calls, pc, n);
    DrivenAmongOthers(t, calls, pc, w, n, body, older);
    LoopLearned(t[Position(pc, w)], n, body, older, p.q, p.r);
  }

  // ---------------------------------------------------------------- where a loop's entry comes from

  lemma PositionsApart(pc: nat, v: nat, w: nat)
    requires v < 4 && w < 4 && v != w
    ensures Position(pc, v) != Position(pc, w)
  {
    assert Position(pc, v) % 4 == v && Position(pc, w) % 4 == w;
    hide Position;
  }

  /**
    A miss that may allocate changes one entry: an old one ages by one step, and one that has aged to zero is
    replaced by a fresh entry of the branch, whose body goes against the outcome that was missed.
  */
  lemma MissAllocates(t: seq<LEntry>, c: Call)
    requires |t| == ENTRIES && c.tryWay < 4 && HitWay(t, c.pc, 0) == 4 && c.alloc && c.lucky
    ensures var after, i := TableAfter(t, c), Position(c.pc, c.tryWay);
            && (forall k :: 0 <= k < ENTRIES && k != i ==> after[k] == t[k])
            && (t[i].age > 0 ==> after[i] == t[i].(age := t[i].age - 1) && HitWay(after, c.pc, 0) == 4)
            && (t[i].age == 0 ==> JustAllocated(after[i], !c.taken) && after[i].age == 7
                                  && HitWay(after, c.pc, 0) == c.tryWay)
  {
    hide Position;
    var after, i := TableAfter(t, c), Position(c.pc, c.tryWay);
    forall k | 0 <= k < 4 && k != c.tryWay
      ensures Position(c.pc, k) != i
    {
      PositionsApart(c.pc, k, c.tryWay);
    }
    hide Tag;
    if t[i].age == 0 {
      HitWayIs(after, c.pc, 0, c.tryWay);
    } else {
      forall j | 0 <= j < ENTRIES
        ensures after[j].tag == t[j].tag
      {
      }
      SameTagsSameWay(t, after, c.pc, 0);
    }
  }

  /**
    A loop whose exit was missed while a way of it was free is learned: from its sixteenth traversal after that
    the entry is trusted and right at every iteration.
  */
  lemma MissedLoopIsLearned(t: seq<LEntry>, exit: Call, calls: seq<Call>, n: nat, older: (nat, nat) -> bool)
    requires |t| == ENTRIES && exit.tryWay < 4 && 3 <= n < ITERATIONS
    requires HitWay(t, exit.pc, 0) == 4 && exit.alloc && exit.lucky && t[Position(exit.pc, exit.tryWay)].age == 0
    requires LoopRun(TableAfter(t, exit), calls, exit.pc, exit.tryWay, n, !exit.taken, older)
    requires ProgressOf(calls, exit.pc, n).q >= 16
    ensures forall k :: 0 <= k < |calls| ==> calls[k].tryWay < 4
    ensures var t' := TableRun(TableAfter(t, exit), calls);
            && HitWay(t', exit.pc, 0) == exit.tryWay
            && Right(t'[Position(exit.pc, exit.tryWay)], n, ProgressOf(calls, exit.pc, n).r, !exit.taken)
  {
    MissAllocates(t, exit);
    hide TableAfter;
    hide Position;
    hide JustAllocated;
    hide LoopRun;
    LearnedInTable(TableAfter(t, exit), calls, exit.pc, exit.tryWay, n, !exit.taken, older);
  }

  /** The tag folds twenty bits of the address above its lowest three. */
  lemma TagBits(pc: nat, j: nat)
    ensures BitSet(Tag(pc), j) <==> j < LOOPTAG && BitSet(pc, j + 3) != BitSet(pc, j + 13)
  {
    var x := Low(Shr(pc, LOGL - 2), 2 * LOOPTAG);
    LowBit(Xor(x, Shr(x, LOOPTAG)), LOOPTAG, j);
    XorBit(x, Shr(x, LOOPTAG), j);
    ShrBit(x, LOOPTAG, j);
    LowBit(Shr(pc, LOGL - 2), 2 * LOOPTAG, j);
    LowBit(Shr(pc, LOGL - 2), 2 * LOOPTAG, LOOPTAG + j);
    ShrBit(pc, LOGL - 2, j);
    ShrBit(pc, LOGL - 2, LOOPTAG + j);
    hide Low;
    hide Shr;
    hide Xor;
    hide BitSet;
  }

  /** The position within a way takes three bits of the address, skewed by the way with three bits above them. */
  lemma PositionBits(pc: nat, w: nat, j: nat)
    requires w < 4
    ensures BitSet(Position(pc, w) / 4, j)
            <==> j < 3 && ((BitSet(pc, j) != BitSet(pc, j + 2)) != (w + j < 3 && BitSet(pc, 3 + w + j)))
  {
    var x := Xor(pc, Shr(pc, 2));
    var li, lib := Low(x, LOGL - 2), Low(Shr(pc, LOGL - 2), LOGL - 2);
    XorOfFours(li, Shr(lib, w));
    assert Position(pc, w) / 4 == Xor(li, Shr(lib, w));
    hide Position;
    XorBit(li, Shr(lib, w), j);
    LowBit(x, LOGL - 2, j);
    XorBit(pc, Shr(pc, 2), j);
    ShrBit(pc, 2, j);
    ShrBit(lib, w, j);
    LowBit(Shr(pc, LOGL - 2), LOGL - 2, w + j);
    ShrBit(pc, LOGL - 2, w + j);
    hide Low;
    hide Shr;
    hide Xor;
    hide BitSet;
  }

  // ---------------------------------------------------------------- the table in place

  class LoopTable {
    const ltable: array<LEntry>
    // set by GetLoop for its branch
    var lhit: nat         // the hitting way, 4 for none
    var lvalid: bool
    var predloop: bool

    constructor ()
      ensures ltable.Length == ENTRIES && fresh(ltable)
    {
      ltable := new LEntry[ENTRIES](i => LEntry(0, 0, 0, 0, 0, false));
      lhit, lvalid, predloop := 4, false, false;
    }

    /** What the last lookup found still describes the table. */
    ghost predicate LookedUp(pc: nat)
      reads this, ltable
    {
      && ltable.Length == ENTRIES
      && lhit == HitWay(ltable[..], pc, 0)
      && lvalid == (lhit < 4 && ltable[Position(pc, lhit)].Trusted())
      && predloop == (lhit < 4 && ltable[Position(pc, lhit)].Predicts())
    }

    method GetLoop(pc: nat) returns (taken: bool)
      requires ltable.Length == ENTRIES
      modifies this
      ensures LookedUp(pc) && taken == predloop
    {
      hide Position;
      ghost var t := ltable[..];
      var i := 0;
      while i < 4
        invariant i <= 4
        invariant HitWay(t, pc, 0) == HitWay(t, pc, i)
      {
        var index := Position(pc, i);
        if ltable[index].tag == Tag(pc) {
          lhit := i;
          lvalid := ltable[index].Trusted();
          if ltable[index].currentIter + 1 == ltable[index].nbIter {
            predloop := !ltable[index].dir;
          } else {
            predloop := ltable[index].dir;
          }
          return predloop;
        }
        i := i + 1;
      }
      lhit, lvalid, predloop := 4, false, false;
      return false;
    }

    /** The field assignments of `loopupdate` on the entry at `index`, in their order. */
    method UpdateEntry(index: nat, taken: bool, older: bool)
      requires ltable.Length == ENTRIES && index < ENTRIES
      requires lvalid == ltable[index].Trusted() && predloop == ltable[index].Predicts()
      modifies ltable
      ensures ltable[..] == old(ltable[..])[index := Stepped(old(ltable[index]), taken, older)]
    {
      hide LEntry.Trusted;
      hide LEntry.Predicts;
      if lvalid {
        if taken != predloop {
          ltable[index] := ltable[index].(nbIter := 0, age := 0, confid := 0, currentIter := 0);
          return;
        } else if older {
          if ltable[index].age < CONFLOOP {
            ltable[index] := ltable[index].(age := ltable[index].age + 1);
          }
        }
      }
      ltable[index] := ltable[index].(currentIter := (ltable[index].currentIter + 1) % ITERATIONS);
      if ltable[index].currentIter > ltable[index].nbIter {
        ltable[index] := ltable[index].(confid := 0, nbIter := 0);
      }
      if taken != ltable[index].dir {
        if ltable[index].currentIter == ltable[index].nbIter {
          if ltable[index].confid < CONFLOOP {
            ltable[index] := ltable[index].(confid := ltable[index].confid + 1);
          }
          if ltable[index].nbIter < 3 {
            ltable[index] := ltable[index].(dir := taken, nbIter := 0, age := 0, confid := 0);
          }
        } else if ltable[index].nbIter == 0 {
          ltable[index] := ltable[index].(confid := 0, nbIter := ltable[index].currentIter);
        } else {
          ltable[index] := ltable[index].(nbIter := 0, confid := 0);
        }
        ltable[index] := ltable[index].(currentIter := 0);
      }
    }

    /**
      `older` is the source's test for ageing a trusted entry, `tryWay` its random way and `lucky` the
      random gate of an allocation.
    */
    method LoopUpdate(pc: nat, taken: bool, alloc: bool, older: bool, tryWay: nat, lucky: bool)
      requires LookedUp(pc) && tryWay < 4
      modifies ltable
      ensures ltable[..] == TableAfter(old(ltable[..]), Call(pc, taken, alloc, older, tryWay, lucky))
    {
      hide Position;
      if lhit < 4 {
        var index := Position(pc, lhit);
        ghost var t := ltable[..];
        UpdateEntry(index, taken, older);
        assert ltable[..] == t[index := Stepped(t[index], taken, older)];
      } else if alloc && lucky {
        var index := Position(pc, tryWay);
        ghost var t := ltable[..];
        if ltable[index].age == 0 {
          ltable[index] := LEntry(0, 0, 0, Tag(pc), 7, !taken);
        } else {
          ltable[index] := ltable[index].(age := ltable[index].age - 1);
        }
        assert ltable[..] == t[index := ltable[index]];
      }
    }
  }
}
