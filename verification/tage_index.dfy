/**
  How TAGE turns a branch address and a history into table positions: the hashes, the skipped banks, and
  the interleaving of the banks that share one physical table.
*/
module TageIndexing {
  import opened Bits
  import opened TageHistories

  const NHIST: nat := 36
  const NBANKLOW: nat := 10
  const NBANKHIGH: nat := 20
  const BORN: nat := 13
  const BORNINFASSOC: nat := 9
  const BORNSUPASSOC: nat := 23
  const LOGG: nat := 10
  const BANK_ENTRIES: nat := 1024    // 1 << LOGG
  const LOGB: nat := 13
  const TBITS: nat := 8

  /** NOSKIP: the banks that are really looked up. */
  predicate NoSkip(i: nat) {
    && 1 <= i <= NHIST
    && ((i - 1) % 2 == 1 || BORNINFASSOC <= i < BORNSUPASSOC)
    && i != 4 && i != NHIST - 2 && i != 8 && i != NHIST - 6
  }

  function Value(w: seq<bool>): nat {
    if w == [] then 0 else (if w[0] then 1 else 0) + 2 * Value(w[1..])
  }

  /** The path-history hash. */
  function F(a: nat, size: nat, bank: nat): nat {
    var a := Low(a, size);
    var a1, a2 := Low(a, LOGG), Shr(a, LOGG);
    if bank < LOGG then
      var x := Bits.Xor(a1, Low(Shl(a2, bank), LOGG) + Shr(a2, LOGG - bank));
      Low(Shl(x, bank), LOGG) + Shr(x, LOGG - bank)
    else Bits.Xor(a1, a2)
  }

  function TagWidth(bank: nat): nat {
    if bank >= BORN then TBITS + 4 else TBITS
  }

  /** `gindex`: PC, folded history and path history, cut to a bank's size. `lengths` are the history lengths m. */
  function BankIndex(pc: nat, bank: nat, h: Hist, lengths: seq<nat>): (r: nat)
    requires h.Ok() && bank < |h.chI| && bank < |lengths|
    ensures r < Pow2(LOGG)
  {
    var pc32 := Low(pc, 32);
    var size := if lengths[bank] > PHISTWIDTH then PHISTWIDTH else lengths[bank];
    var distance := if bank < LOGG then LOGG - bank else bank - LOGG;
    var hash := Bits.Xor(Bits.Xor(pc32, Shr(pc32, distance + 1)), Value(h.chI[bank].comp));
    Low(Bits.Xor(hash, F(h.phist, size, bank)), LOGG)
  }

  /** `gtag` */
  function BankTag(pc: nat, bank: nat, h: Hist): (r: nat)
    requires h.Ok() && bank < |h.chT0|
    ensures r < Pow2(TagWidth(bank))
  {
    Low(Bits.Xor(Bits.Xor(Low(pc, 32), Value(h.chT0[bank].comp)), 2 * Value(h.chT1[bank].comp)), TagWidth(bank))
  }

  /** Banks come in pairs (1,2), (3,4), ... that share a tag; this is the odd one of a pair. */
  function PairHead(bank: nat): nat
    requires bank >= 1
  {
    if bank % 2 == 1 then bank else bank - 1
  }

  function Tag(pc: nat, bank: nat, h: Hist): nat
    requires h.Ok() && 1 <= bank <= NHIST < |h.chI|
  {
    BankTag(pc, PairHead(bank), h)
  }

  /** The position inside a bank; the second bank of a pair is displaced by the tag. */
  function Offset(pc: nat, bank: nat, h: Hist, lengths: seq<nat>): (r: nat)
    requires h.Ok() && 1 <= bank <= NHIST < |h.chI| && |lengths| == |h.chI|
    ensures r < Pow2(LOGG)
  {
    var first := BankIndex(pc, PairHead(bank), h, lengths);
    if bank % 2 == 1 then first
    else
      var second := Bits.Xor(first, Low(Tag(pc, bank, h), LOGG));
      XorBelow(first, Low(Tag(pc, bank, h), LOGG), LOGG);
      second
  }

  /** How many banks from `lo` up to but not including `i` are not skipped. */
  function Rank(lo: nat, i: nat): (r: nat)
    requires lo <= i
    ensures r <= i - lo
  {
    if i == lo then 0 else Rank(lo, i - 1) + (if NoSkip(i - 1) then 1 else 0)
  }

  function GroupStart(bank: nat): nat {
    if bank >= BORN then BORN else 1
  }

  function GroupBanks(bank: nat): nat {
    if bank >= BORN then NBANKHIGH else NBANKLOW
  }

  /** The physical bank given to the first bank of a group. */
  function FirstBank(pc: nat, start: nat, h: Hist, lengths: seq<nat>): (t: nat)
    requires start < |lengths|
    ensures t < GroupBanks(start)
  {
    Bits.Xor(pc, Low(h.phist, lengths[start])) % GroupBanks(start)
  }

  /** Counting round: `r` steps on from `start`. */
  function Turn(start: nat, r: nat, banks: nat): (t: nat)
    requires start < banks
    ensures t < banks
  {
    if r == 0 then start
    else
      var t := Turn(start, r - 1, banks) + 1;
      if t == banks then 0 else t
  }

  function PhysicalBank(pc: nat, bank: nat, h: Hist, lengths: seq<nat>): (t: nat)
    requires 1 <= bank <= NHIST < |lengths|
    ensures t < GroupBanks(bank)
  {
    Turn(FirstBank(pc, GroupStart(bank), h, lengths), Rank(GroupStart(bank), bank), GroupBanks(bank))
  }

  /** GI: the position of a bank's entry in the physical table of its group. */
  function Position(pc: nat, bank: nat, h: Hist, lengths: seq<nat>): nat
    requires h.Ok() && 1 <= bank <= NHIST < |h.chI| && |lengths| == |h.chI|
  {
    Offset(pc, bank, h, lengths) + (if NoSkip(bank) then PhysicalBank(pc, bank, h, lengths) * BANK_ENTRIES else 0)
  }

  // ---------------------------------------------------------------- disjointness

  lemma {:induction false} TurnWithinRound(start: nat, r: nat, banks: nat)
    requires start < banks && r <= banks
    ensures Turn(start, r, banks) == if start + r < banks then start + r else start + r - banks
  {
    if r > 0 {
      TurnWithinRound(start, r - 1, banks);
    }
  }

  lemma {:induction false} TurnRepeats(start: nat, r: nat, banks: nat)
    requires start < banks
    ensures Turn(start, r + banks, banks) == Turn(start, r, banks)
  {
    if r == 0 {
      TurnWithinRound(start, banks, banks);
    } else {
      TurnRepeats(start, r - 1, banks);
    }
  }

  /** Counting round meets a bank twice exactly when there are more steps than banks. */
  lemma TurnsDistinctIff(count: nat, banks: nat, start: nat)
    requires start < banks
    ensures (forall r, s :: 0 <= r < s < count ==> Turn(start, r, banks) != Turn(start, s, banks)) <==> count <= banks
  {
    if count <= banks {
      forall r, s | 0 <= r < s < count
        ensures Turn(start, r, banks) != Turn(start, s, banks)
      {
        TurnWithinRound(start, r, banks);
        TurnWithinRound(start, s, banks);
      }
    } else {
      TurnRepeats(start, count - banks - 1, banks);
    }
  }

  lemma {:induction false} RankGrows(lo: nat, i: nat, j: nat)
    requires lo <= i < j && NoSkip(i)
    ensures Rank(lo, i) < Rank(lo, j)
    decreases j
  {
    if i + 1 < j {
      RankGrows(lo, i, j - 1);
    }
  }

  /** Fifteen banks share the twenty of the high table, and six the ten of the low table. */
  lemma RankBounds(bank: nat)
    requires NoSkip(bank)
    ensures Rank(GroupStart(bank), bank) < GroupBanks(bank)
  {
  }

  /** The looked-up banks of a group always lie in pairwise distinct physical banks. */
  lemma PhysicalBanksDistinct(pc: nat, h: Hist, lengths: seq<nat>, i: nat, j: nat)
    requires NHIST < |lengths| && NoSkip(i) && NoSkip(j) && i < j && GroupStart(i) == GroupStart(j)
    ensures PhysicalBank(pc, i, h, lengths) != PhysicalBank(pc, j, h, lengths)
  {
    var lo, banks := GroupStart(i), GroupBanks(i);
    assert lo <= i && GroupBanks(j) == banks == GroupBanks(lo);
    hide NoSkip;
    hide FirstBank;
    hide Rank;
    hide Turn;
    RankGrows(lo, i, j);
    RankBounds(j);
    var first := FirstBank(pc, lo, h, lengths);
    TurnsDistinctIff(banks, banks, first);
    assert Turn(first, Rank(lo, i), banks) != Turn(first, Rank(lo, j), banks);
  }

  lemma BankSize()
    ensures Pow2(LOGG) == BANK_ENTRIES
  {
  }

  /** Two looked-up banks never name the same physical entry, and every position is inside its table. */
  lemma EntriesDisjoint(pc: nat, h: Hist, lengths: seq<nat>, i: nat, j: nat)
    requires h.Ok() && NHIST < |h.chI| && |lengths| == |h.chI|
    requires NoSkip(i) && NoSkip(j) && i < j
    ensures GroupStart(i) == GroupStart(j) ==> Position(pc, i, h, lengths) != Position(pc, j, h, lengths)
    ensures Position(pc, i, h, lengths) < GroupBanks(i) * BANK_ENTRIES
    ensures Position(pc, j, h, lengths) < GroupBanks(j) * BANK_ENTRIES
  {
    hide Offset;
    hide PhysicalBank;
    BankSize();
    if GroupStart(i) == GroupStart(j) {
      PhysicalBanksDistinct(pc, h, lengths, i, j);
    }
  }

  // ---------------------------------------------------------------- computing the positions

  lemma PairPositions(pc: nat, i: nat, h: Hist, lengths: seq<nat>)
    requires h.Ok() && 1 <= i < NHIST < |h.chI| && |lengths| == |h.chI| && i % 2 == 1
    ensures Offset(pc, i, h, lengths) == BankIndex(pc, i, h, lengths)
    ensures Offset(pc, i + 1, h, lengths) == Bits.Xor(BankIndex(pc, i, h, lengths), Low(BankTag(pc, i, h), LOGG))
    ensures Tag(pc, i, h) == Tag(pc, i + 1, h) == BankTag(pc, i, h)
  {
    hide BankIndex;
    hide BankTag;
    hide Low;
    hide Bits.Xor;
    hide RegistersOk;
    assert PairHead(i) == i && PairHead(i + 1) == i;
  }

  lemma TurnStarts(lo: nat, first: nat, banks: nat)
    requires first < banks
    ensures Turn(first, Rank(lo, lo), banks) == first
  {
  }

  lemma NextTurn(start: nat, r: nat, banks: nat)
    requires start < banks && (banks == NBANKLOW || banks == NBANKHIGH)
    ensures Turn(start, r + 1, banks) == (Turn(start, r, banks) + 1) % banks
  {
  }

  lemma InterleaveStep(pc: nat, h: Hist, lengths: seq<nat>, lo: nat, i: nat, first: nat, banks: nat)
    requires h.Ok() && NHIST < |h.chI| && |lengths| == |h.chI|
    requires 1 <= lo <= i <= NHIST && GroupStart(i) == lo && GroupBanks(i) == banks
             && (banks == NBANKLOW || banks == NBANKHIGH)
    requires first == FirstBank(pc, lo, h, lengths) && first < banks
    ensures var t := Turn(first, Rank(lo, i), banks);
            && Position(pc, i, h, lengths) == Offset(pc, i, h, lengths) + (if NoSkip(i) then t * BANK_ENTRIES else 0)
            && Turn(first, Rank(lo, i + 1), banks) == if NoSkip(i) then (t + 1) % banks else t
  {
    hide Offset;
    hide NoSkip;
    hide FirstBank;
    hide Turn;
    hide RegistersOk;
    NextTurn(first, Rank(lo, i), banks);
  }

  /** Gives each bank of one group its physical bank, counting round from a hashed start. */
  method Interleave(pc: nat, h: Hist, lengths: seq<nat>, lo: nat, hi: nat, gi: array<nat>)
    requires h.Ok() && NHIST < |h.chI| && |lengths| == |h.chI| && gi.Length == NHIST + 1
    requires (lo == 1 && hi == BORN) || (lo == BORN && hi == NHIST + 1)
    requires forall i :: lo <= i < hi ==> gi[i] == Offset(pc, i, h, lengths)
    modifies gi
    ensures forall i :: lo <= i < hi ==> gi[i] == Position(pc, i, h, lengths)
    ensures forall i :: 0 <= i < gi.Length && !(lo <= i < hi) ==> gi[i] == old(gi[i])
  {
    hide Offset;
    hide NoSkip;
    hide FirstBank;
    hide Turn;
    hide Rank;
    hide Position;
    var banks := if lo == BORN then NBANKHIGH else NBANKLOW;
    ghost var first := FirstBank(pc, lo, h, lengths);
    var t := FirstBank(pc, lo, h, lengths);
    var i := lo;
    TurnStarts(lo, first, banks);
    while i < hi
      invariant lo <= i <= hi
      invariant t == Turn(first, Rank(lo, i), banks)
      invariant forall k :: lo <= k < i ==> gi[k] == Position(pc, k, h, lengths)
      invariant forall k :: i <= k < hi ==> gi[k] == Offset(pc, k, h, lengths)
      invariant forall k :: 0 <= k < gi.Length && !(lo <= k < hi) ==> gi[k] == old(gi[k])
    {
      InterleaveStep(pc, h, lengths, lo, i, first, banks);
      if NoSkip(i) {
        gi[i] := gi[i] + t * BANK_ENTRIES;
        t := t + 1;
        t := t % banks;
      }
      i := i + 1;
    }
  }

  /** The three loops that `Tagepred` runs before it looks anything up. */
  method ComputePositions(pc: nat, h: Hist, lengths: seq<nat>) returns (gi: array<nat>, gtag: array<nat>)
    requires h.Ok() && NHIST < |h.chI| && |lengths| == |h.chI|
    ensures fresh(gi) && fresh(gtag) && gi.Length == gtag.Length == NHIST + 1
    ensures gi[0] == gtag[0] == 0
    ensures forall i :: 1 <= i <= NHIST ==> gi[i] == Position(pc, i, h, lengths) && gtag[i] == Tag(pc, i, h)
  {
    hide Offset;
    hide Tag;
    hide BankIndex;
    hide BankTag;
    hide Position;
    hide Low;
    hide Bits.Xor;
    hide RegistersOk;
    gi, gtag := new nat[NHIST + 1](i => 0), new nat[NHIST + 1](i => 0);
    var i := 1;
    while i <= NHIST
      invariant i % 2 == 1 && 1 <= i <= NHIST + 1
      invariant gi[0] == gtag[0] == 0
      invariant forall k :: 1 <= k < i ==> gi[k] == Offset(pc, k, h, lengths) && gtag[k] == Tag(pc, k, h)
    {
      PairPositions(pc, i, h, lengths);
      gi[i] := BankIndex(pc, i, h, lengths);
      gtag[i] := BankTag(pc, i, h);
      gtag[i + 1] := gtag[i];
      gi[i + 1] := Bits.Xor(gi[i], Low(gtag[i], LOGG));
      i := i + 2;
    }
    Interleave(pc, h, lengths, BORN, NHIST + 1, gi);
    Interleave(pc, h, lengths, 1, BORN, gi);
  }
}
