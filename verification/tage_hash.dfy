/**
  How TAGE's tags and positions depend on the branch and on the folded history, bit by bit: histories that
  fold differently are looked up under different tags.
*/
module TageHashes {
  import opened Bits
  import opened FoldedHistories
  import opened TageHistories
  import opened TageIndexing

  lemma {:induction false} ValueBit(w: seq<bool>, j: nat)
    ensures BitSet(Value(w), j) <==> j < |w| && w[j]
  {
    if w == [] {
      ZeroBits(j);
    } else {
      assert Value(w) % 2 == (if w[0] then 1 else 0) && Value(w) / 2 == Value(w[1..]);
      if j > 0 {
        ValueBit(w[1..], j - 1);
      }
    }
  }

  /** The banks that are looked up: 21 of the 36. */
  lemma LookedUpBanks(i: nat)
    ensures NoSkip(i) <==> i in {2, 6} || 9 <= i <= 22 || i in {24, 26, 28, 32, 36}
  {
  }

  predicate RegisterBit(f: Folded, j: nat) {
    j < |f.comp| && f.comp[j]
  }

  /** A bit of a bank's tag: the address, one folded register, and the other shifted by one. */
  lemma TagBits(pc: nat, bank: nat, h: Hist, j: nat)
    requires h.Ok() && bank < |h.chT0|
    ensures BitSet(BankTag(pc, bank, h), j)
            <==> j < TagWidth(bank)
                 && (BitSet(pc, j) != RegisterBit(h.chT0[bank], j)) != (j > 0 && RegisterBit(h.chT1[bank], j - 1))
  {
    var a, b := Value(h.chT0[bank].comp), Value(h.chT1[bank].comp);
    LowBit(Xor(Xor(Low(pc, 32), a), 2 * b), TagWidth(bank), j);
    XorBit(Xor(Low(pc, 32), a), 2 * b, j);
    XorBit(Low(pc, 32), a, j);
    LowBit(pc, 32, j);
    ValueBit(h.chT0[bank].comp, j);
    DoubleBit(b, j);
    if j > 0 {
      ValueBit(h.chT1[bank].comp, j - 1);
    }
    hide Low;
    hide Xor;
    hide BitSet;
    hide Value;
    hide RegistersOk;
  }

  /** Two banks of a pair share the tag of the odd one. */
  lemma PairsShareTags(pc: nat, bank: nat, h: Hist)
    requires h.Ok() && 1 <= bank < NHIST < |h.chI| && bank % 2 == 1
    ensures Tag(pc, bank, h) == Tag(pc, bank + 1, h) == BankTag(pc, bank, h)
  {
  }

  /** Histories that a bank's first tag register tells apart, and its second does not, get different tags. */
  lemma TagsSeparate(pc: nat, bank: nat, h: Hist, g: Hist, j: nat)
    requires h.Ok() && g.Ok() && bank < |h.chT0| && bank < |g.chT0| && j < TagWidth(bank)
    requires h.chT1[bank] == g.chT1[bank] && RegisterBit(h.chT0[bank], j) != RegisterBit(g.chT0[bank], j)
    ensures BankTag(pc, bank, h) != BankTag(pc, bank, g)
  {
    TagBits(pc, bank, h, j);
    TagBits(pc, bank, g, j);
    hide BankTag;
    hide BitSet;
  }

  /** How far the address is shifted against itself in a bank's index. */
  function Distance(bank: nat): nat {
    1 + (if bank < 10 then 10 - bank else bank - 10)
  }

  lemma AddressBit(pc: nat, d: nat, j: nat)
    requires j < 32
    ensures BitSet(Xor(Low(pc, 32), Shr(Low(pc, 32), d)), j) <==> BitSet(pc, j) != (d + j < 32 && BitSet(pc, d + j))
  {
    hide Low;
    hide Xor;
    hide Shr;
    hide BitSet;
    XorBit(Low(pc, 32), Shr(Low(pc, 32), d), j);
    ShrBit(Low(pc, 32), d, j);
    LowBit(pc, 32, j);
    LowBit(pc, 32, d + j);
  }

  lemma ThreeXors(x: nat, c: nat, path: nat, j: nat)
    ensures BitSet(Low(Xor(Xor(x, c), path), LOGG), j)
            <==> j < LOGG && (BitSet(x, j) != BitSet(c, j)) != BitSet(path, j)
  {
    hide Low;
    hide Xor;
    hide BitSet;
    LowBit(Xor(Xor(x, c), path), LOGG, j);
    XorBit(Xor(x, c), path, j);
    XorBit(x, c, j);
  }

  /** A bit of a bank's index: the address twice, the folded register, and the path hash. */
  lemma IndexBits(pc: nat, bank: nat, h: Hist, lengths: seq<nat>, j: nat)
    requires h.Ok() && bank < |h.chI| && bank < |lengths|
    ensures var path := F(h.phist, if lengths[bank] < 27 then lengths[bank] else 27, bank);
            BitSet(BankIndex(pc, bank, h, lengths), j)
            <==> j < LOGG && ((BitSet(pc, j) != (Distance(bank) + j < 32 && BitSet(pc, Distance(bank) + j)))
                              != RegisterBit(h.chI[bank], j)) != BitSet(path, j)
  {
    hide F;
    hide Low;
    hide Xor;
    hide Shr;
    hide BitSet;
    hide Value;
    hide Hist.Ok;
    var x := Xor(Low(pc, 32), Shr(Low(pc, 32), Distance(bank)));
    var path := F(h.phist, if lengths[bank] < 27 then lengths[bank] else 27, bank);
    ThreeXors(x, Value(h.chI[bank].comp), path, j);
    ValueBit(h.chI[bank].comp, j);
    if j < 32 {
      AddressBit(pc, Distance(bank), j);
    }
  }

  /** Histories that a bank's index register tells apart, with the same path, are looked up at different places. */
  lemma IndexesSeparate(pc: nat, bank: nat, h: Hist, g: Hist, lengths: seq<nat>, j: nat)
    requires h.Ok() && g.Ok() && bank < |h.chI| && bank < |g.chI| && bank < |lengths| && j < LOGG
    requires h.phist == g.phist && RegisterBit(h.chI[bank], j) != RegisterBit(g.chI[bank], j)
    ensures BankIndex(pc, bank, h, lengths) != BankIndex(pc, bank, g, lengths)
  {
    IndexBits(pc, bank, h, lengths, j);
    IndexBits(pc, bank, g, lengths, j);
    hide BankIndex;
    hide BitSet;
    hide F;
  }
}
