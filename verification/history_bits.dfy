/**
  What one branch leaves in the history, bit by bit: the direction bits in the ring, which carry the outcome,
  and the path bits.
*/
module HistoryBits {
  import opened Bits
  import opened MicroOps
  import opened PipelineRuns
  import opened Pipelines
  import opened TageHistories

  // ---------------------------------------------------------------- the hashes of a branch

  lemma BitsOfOne(k: nat)
    ensures BitSet(1, k) <==> k == 0
  {
    if k > 0 {
      ZeroBits(k - 1);
    }
  }

  /** Bit `i` of what the ring records; only the lowest carries the outcome. */
  predicate DirectionBit(b: Branch, i: nat) {
    ((BitSet(b.pc, i) != BitSet(b.pc, i + 2)) != (i == 0 && b.taken))
    != (b.brtype == 3 && b.taken && BitSet(b.nextPc, i + 2))
  }

  lemma DirectionBits(b: Branch, i: nat)
    ensures BitSet(Directions(b), i) <==> DirectionBit(b, i)
  {
    var x := Xor(b.pc, Shr(b.pc, 2));
    var t := if b.taken then 1 else 0;
    ShrBit(b.pc, 2, i);
    ShrBit(b.nextPc, 2, i);
    XorBit(b.pc, Shr(b.pc, 2), i);
    XorBit(x, t, i);
    XorBit(Xor(x, t), Shr(b.nextPc, 2), i);
    BitsOfOne(i);
    ZeroBits(i);
    hide Xor;
    hide Shr;
  }

  /** Bit `i` of what the path history takes up. */
  predicate PathBit(b: Branch, i: nat) {
    ((BitSet(b.pc, i) != BitSet(b.pc, i + 2)) != BitSet(b.pc, i + 4))
    != (b.brtype == 3 && b.taken && BitSet(b.nextPc, i + 2) != BitSet(b.nextPc, i + 4))
  }

  lemma PathBits(b: Branch, i: nat)
    ensures BitSet(Path(b), i) <==> PathBit(b, i)
  {
    var x := Xor(b.pc, Shr(b.pc, 2));
    var p := Xor(x, Shr(b.pc, 4));
    ShrBit(b.pc, 2, i);
    ShrBit(b.pc, 4, i);
    ShrBit(b.nextPc, 2, i);
    ShrBit(b.nextPc, 4, i);
    XorBit(b.pc, Shr(b.pc, 2), i);
    XorBit(x, Shr(b.pc, 4), i);
    XorBit(p, Shr(b.nextPc, 2), i);
    XorBit(Xor(p, Shr(b.nextPc, 2)), Shr(b.nextPc, 4), i);
    hide Xor;
    hide Shr;
  }

  // ---------------------------------------------------------------- what the rounds push

  /** The `k`-th newest direction bit of a history. */
  predicate Newest(h: Hist, k: nat)
    requires h.Ok()
  {
    RingBit(h.ring, h.pt, k)
  }

  lemma PushBits(h: Hist, dir: bool, pathBits: nat)
    requires h.Ok()
    ensures var r := Pushed(h, dir, pathBits);
            && (Newest(r, 0) <==> dir)
            && (forall k :: 1 <= k < HISTBUFFERLENGTH ==> (Newest(r, k) <==> Newest(h, k - 1)))
            && forall j: nat :: BitSet(r.phist, j) <==> (j > 0 && BitSet(h.phist, j - 1)) != BitSet(pathBits, j)
  {
    var r := Pushed(h, dir, pathBits);
    hide AllUpdated;
    forall k | 1 <= k < HISTBUFFERLENGTH
      ensures Newest(r, k) <==> Newest(h, k - 1)
    {
      assert (r.pt + k) % HISTBUFFERLENGTH == (h.pt + (k - 1)) % HISTBUFFERLENGTH;
    }
    forall j: nat
      ensures BitSet(r.phist, j) <==> (j > 0 && BitSet(h.phist, j - 1)) != BitSet(pathBits, j)
    {
      XorBit(2 * h.phist, pathBits, j);
      DoubleBit(h.phist, j);
    }
  }

  /** The rounds push the bits from the lowest on, so that the last one is the newest. */
  lemma {:induction false} RoundBit(h: Hist, directions: nat, path: nat, rounds: nat, k: nat)
    requires h.Ok() && rounds < HISTBUFFERLENGTH && k < HISTBUFFERLENGTH
    ensures Newest(PushedRounds(h, directions, path, rounds), k) <==>
            if k < rounds then BitSet(directions, rounds - 1 - k) else Newest(h, k - rounds)
    decreases rounds
  {
    hide Pushed;
    hide Newest;
    hide Hist.Ok;
    if rounds > 0 {
      var p := Pushed(h, directions % 2 == 1, Low(path, 7));
      assert PushedRounds(h, directions, path, rounds) == PushedRounds(p, directions / 2, path / 2, rounds - 1);
      PushBits(h, directions % 2 == 1, Low(path, 7));
      RoundBit(p, directions / 2, path / 2, rounds - 1, k);
      hide PushedRounds;
      hide Low;
      if k >= rounds {
        assert Newest(p, k - (rounds - 1)) <==> Newest(h, k - rounds);
      }
    }
  }

  /** One round's part of the path history: seven bits of the path. */
  predicate SevenBits(path: nat, t: nat, j: int) {
    0 <= j < 7 && BitSet(path, t + j)
  }

  lemma PathAfterTwo(h: Hist, directions: nat, path: nat, j: nat)
    requires h.Ok()
    ensures BitSet(PushedRounds(h, directions, path, 2).phist, j)
            <==> ((j >= 2 && BitSet(h.phist, j - 2)) != SevenBits(path, 0, j - 1)) != SevenBits(path, 1, j)
  {
    hide Hist.Ok;
    var a := Pushed(h, directions % 2 == 1, Low(path, 7));
    PushBits(h, directions % 2 == 1, Low(path, 7));
    PushBits(a, directions / 2 % 2 == 1, Low(path / 2, 7));
    assert PushedRounds(h, directions, path, 2) == Pushed(a, directions / 2 % 2 == 1, Low(path / 2, 7)) by {
      hide Pushed;
    }
    hide Pushed;
    hide PushedRounds;
    LowBit(path / 2, 7, j);
    if j > 0 {
      LowBit(path, 7, j - 1);
    }
    assert BitSet(path / 2, j) == BitSet(path, j + 1);
    hide Low;
    hide BitSet;
  }

  lemma PathAfterThree(h: Hist, directions: nat, path: nat, j: nat)
    requires h.Ok()
    ensures BitSet(PushedRounds(h, directions, path, 3).phist, j)
            <==> (((j >= 3 && BitSet(h.phist, j - 3)) != SevenBits(path, 0, j - 2)) != SevenBits(path, 1, j - 1))
                 != SevenBits(path, 2, j)
  {
    hide Hist.Ok;
    var a := Pushed(h, directions % 2 == 1, Low(path, 7));
    PushBits(h, directions % 2 == 1, Low(path, 7));
    PathAfterTwo(a, directions / 2, path / 2, j);
    assert PushedRounds(h, directions, path, 3) == PushedRounds(a, directions / 2, path / 2, 2);
    hide Pushed;
    hide PushedRounds;
    if j > 1 {
      LowBit(path, 7, j - 2);
    }
    assert BitSet(path, j + 2) == BitSet(path / 2, j + 1);
    assert BitSet(path, j + 1) == BitSet(path / 2, j);
    assert j > 0 ==> BitSet(path, j) == BitSet(path / 2, j - 1);
    hide Low;
    hide BitSet;
  }

  // ---------------------------------------------------------------- one branch

  lemma AfterBranchKeepsRing(h: Hist, b: Branch, k: nat)
    requires h.Ok() && k < HISTBUFFERLENGTH
    ensures Newest(AfterBranch(h, b), k) == Newest(PushedRounds(h, Directions(b), Path(b), Rounds(b)), k)
  {
    hide PushedRounds;
    hide Low;
  }

  lemma AfterBranchPath(h: Hist, b: Branch, j: nat)
    requires h.Ok()
    ensures BitSet(AfterBranch(h, b).phist, j)
            <==> j < PHISTWIDTH && BitSet(PushedRounds(h, Directions(b), Path(b), Rounds(b)).phist, j)
  {
    LowBit(PushedRounds(h, Directions(b), Path(b), Rounds(b)).phist, PHISTWIDTH, j);
    hide PushedRounds;
    hide Low;
    hide BitSet;
  }

  lemma RingAfterBranch(h: Hist, b: Branch, k: nat)
    requires h.Ok() && b.brtype <= 2 && k < HISTBUFFERLENGTH
    ensures var rounds := if b.brtype == 2 then 3 else 2;
            Newest(AfterBranch(h, b), k) <==>
            if k < rounds then DirectionBit(b, rounds - 1 - k) else Newest(h, k - rounds)
  {
    hide Newest;
    hide BitSet;
    hide DirectionBit;
    hide PushedRounds;
    hide AfterBranch;
    hide Directions;
    hide Path;
    hide Hist.Ok;
    var rounds := if b.brtype == 2 then 3 else 2;
    assert Rounds(b) == rounds;
    hide Rounds;
    AfterBranchKeepsRing(h, b, k);
    RoundBit(h, Directions(b), Path(b), rounds, k);
    if k < rounds {
      DirectionBits(b, rounds - 1 - k);
    }
  }

  /** Bit `j` of the path history after a branch that shifts it by two. */
  predicate ByTwo(h: Hist, b: Branch, j: nat) {
    && j < PHISTWIDTH
    && ((j >= 2 && BitSet(h.phist, j - 2)) != (1 <= j <= 7 && PathBit(b, j - 1))) != (j < 7 && PathBit(b, j + 1))
  }

  /** And after one that shifts it by three. */
  predicate ByThree(h: Hist, b: Branch, j: nat) {
    && j < PHISTWIDTH
    && (((j >= 3 && BitSet(h.phist, j - 3)) != (2 <= j <= 8 && PathBit(b, j - 2))) != (1 <= j <= 7 && PathBit(b, j)))
       != (j < 7 && PathBit(b, j + 2))
  }

  lemma PathAfterDirect(h: Hist, b: Branch, j: nat)
    requires h.Ok() && b.brtype <= 1
    ensures BitSet(AfterBranch(h, b).phist, j) <==> ByTwo(h, b, j)
  {
    hide BitSet;
    hide PathBit;
    hide AfterBranch;
    hide PushedRounds;
    hide Directions;
    hide Path;
    AfterBranchPath(h, b, j);
    PathAfterTwo(h, Directions(b), Path(b), j);
    PathBits(b, j + 1);
    if j > 0 {
      PathBits(b, j - 1);
    }
  }

  lemma PathAfterIndirect(h: Hist, b: Branch, j: nat)
    requires h.Ok() && b.brtype == 2
    ensures BitSet(AfterBranch(h, b).phist, j) <==> ByThree(h, b, j)
  {
    hide BitSet;
    hide PathBit;
    hide AfterBranch;
    hide PushedRounds;
    hide Directions;
    hide Path;
    AfterBranchPath(h, b, j);
    PathAfterThree(h, Directions(b), Path(b), j);
    PathBits(b, j);
    PathBits(b, j + 2);
    if j > 1 {
      PathBits(b, j - 2);
    }
  }

  lemma LowDirections(b: Branch)
    requires b.brtype <= 2
    ensures DirectionBit(b, 0) <==> (BitSet(b.pc, 0) != BitSet(b.pc, 2)) != b.taken
    ensures DirectionBit(b, 1) <==> BitSet(b.pc, 1) != BitSet(b.pc, 3)
    ensures DirectionBit(b, 2) <==> BitSet(b.pc, 2) != BitSet(b.pc, 4)
  {
    hide BitSet;
  }

  /**
    A direct branch, conditional or not, records two direction bits, of which the older carries the outcome, and
    shifts the path history by two.
  */
  lemma DirectBranchRecords(h: Hist, b: Branch)
    requires h.Ok() && b.brtype <= 1
    ensures var after := AfterBranch(h, b);
            && (Newest(after, 1) <==> (BitSet(b.pc, 0) != BitSet(b.pc, 2)) != b.taken)
            && (Newest(after, 0) <==> BitSet(b.pc, 1) != BitSet(b.pc, 3))
            && (forall k :: 2 <= k < HISTBUFFERLENGTH ==> (Newest(after, k) <==> Newest(h, k - 2)))
            && forall j: nat :: BitSet(after.phist, j) <==> ByTwo(h, b, j)
  {
    hide Newest;
    hide BitSet;
    hide PathBit;
    hide AfterBranch;
    hide DirectionBit;
    hide ByTwo;
    forall k | 0 <= k < HISTBUFFERLENGTH
      ensures Newest(AfterBranch(h, b), k) <==> if k < 2 then DirectionBit(b, 1 - k) else Newest(h, k - 2)
    {
      RingAfterBranch(h, b, k);
    }
    LowDirections(b);
    forall j: nat
      ensures BitSet(AfterBranch(h, b).phist, j) <==> ByTwo(h, b, j)
    {
      PathAfterDirect(h, b, j);
    }
  }

  /** An indirect branch records three direction bits, the oldest with the outcome, and shifts the path by three. */
  lemma IndirectBranchRecords(h: Hist, b: Branch)
    requires h.Ok() && b.brtype == 2
    ensures var after := AfterBranch(h, b);
            && (Newest(after, 2) <==> (BitSet(b.pc, 0) != BitSet(b.pc, 2)) != b.taken)
            && (Newest(after, 1) <==> BitSet(b.pc, 1) != BitSet(b.pc, 3))
            && (Newest(after, 0) <==> BitSet(b.pc, 2) != BitSet(b.pc, 4))
            && (forall k :: 3 <= k < HISTBUFFERLENGTH ==> (Newest(after, k) <==> Newest(h, k - 3)))
            && forall j: nat :: BitSet(after.phist, j) <==> ByThree(h, b, j)
  {
    hide Newest;
    hide BitSet;
    hide PathBit;
    hide AfterBranch;
    hide DirectionBit;
    hide ByThree;
    forall k | 0 <= k < HISTBUFFERLENGTH
      ensures Newest(AfterBranch(h, b), k) <==> if k < 3 then DirectionBit(b, 2 - k) else Newest(h, k - 3)
    {
      RingAfterBranch(h, b, k);
    }
    LowDirections(b);
    forall j: nat
      ensures BitSet(AfterBranch(h, b).phist, j) <==> ByThree(h, b, j)
    {
      PathAfterIndirect(h, b, j);
    }
  }

  /** Histories that differ in the outcome of the last branch alone differ in exactly one direction bit. */
  lemma OutcomeIsRecorded(h: Hist, b: Branch)
    requires h.Ok() && b.brtype <= 2
    ensures var one, other := AfterBranch(h, b), AfterBranch(h, b.(taken := !b.taken));
            var at := if b.brtype == 2 then 2 else 1;
            && one != other
            && forall k :: 0 <= k < HISTBUFFERLENGTH ==> ((Newest(one, k) <==> Newest(other, k)) <==> k != at)
  {
    hide AfterBranch;
    hide Newest;
    hide PathBit;
    hide BitSet;
    if b.brtype == 2 {
      IndirectBranchRecords(h, b);
      IndirectBranchRecords(h, b.(taken := !b.taken));
    } else {
      DirectBranchRecords(h, b);
      DirectBranchRecords(h, b.(taken := !b.taken));
    }
  }

  // ---------------------------------------------------------------- the branches of a program

  /** What the history learns of a branch: its kind, and for a conditional one whether it left the straight line. */
  lemma BranchOfMicroOp(u: MicroOp)
    ensures BranchOf(u).pc == u.pc && BranchOf(u).nextPc == u.nextPc
    ensures BranchOf(u).brtype == (if u.cls == CondBranch then 1
                                   else if u.cls == UncondIndirectBranch || u.cls == CallIndirect || u.cls == Return
                                   then 2 else 0)
    ensures BranchOf(u).taken <==> u.cls != CondBranch || u.nextPc != u.pc + 4
  {
  }

  /** In every run the outcome of the youngest branch is in the history that the next one is predicted with. */
  lemma YoungestOutcome(h: LiveHist, ops: seq<Op>)
    requires ops != [] && ops[|ops| - 1].uop.cls == CondBranch
    ensures var u, before, after := ops[|ops| - 1].uop, HistoryOf(h, ops[..|ops| - 1]), HistoryOf(h, ops);
            && (Newest(after, 1) <==> (BitSet(u.pc, 0) != BitSet(u.pc, 2)) != (u.nextPc != u.pc + 4))
            && (Newest(after, 0) <==> BitSet(u.pc, 1) != BitSet(u.pc, 3))
            && forall k :: 2 <= k < HISTBUFFERLENGTH ==> (Newest(after, k) <==> Newest(before, k - 2))
  {
    var u := ops[|ops| - 1].uop;
    BranchOfMicroOp(u);
    DirectBranchRecords(HistoryOf(h, ops[..|ops| - 1]), BranchOf(u));
    hide AfterBranch;
    hide Newest;
    hide BitSet;
  }

  /** What is no branch leaves the history alone. */
  lemma OthersUnrecorded(h: LiveHist, ops: seq<Op>)
    requires ops != [] && ops[|ops| - 1].uop.cls in {Alu, Load, Store, Fp, SlowAlu, Undef}
    ensures HistoryOf(h, ops) == HistoryOf(h, ops[..|ops| - 1])
  {
    hide AfterBranch;
  }
}
