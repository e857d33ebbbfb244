/** Unsigned machine words as naturals: the bit operations the simulator's index arithmetic uses. */
module Bits {

  function Pow2(k: nat): (p: nat)
    ensures p > 0
  {
    if k == 0 then 1 else 2 * Pow2(k - 1)
  }

  ghost predicate IsPow2(x: nat) {
    exists k: nat :: x == Pow2(k)
  }

  function And(x: nat, y: nat): (r: nat)
    ensures r <= x && r <= y
  {
    if x == 0 || y == 0 then 0 else 2 * And(x / 2, y / 2) + (if x % 2 == 1 && y % 2 == 1 then 1 else 0)
  }

  function Xor(x: nat, y: nat): (r: nat)
    decreases x + y
  {
    if x == 0 then y
    else if y == 0 then x
    else 2 * Xor(x / 2, y / 2) + (if x % 2 == y % 2 then 0 else 1)
  }

  function Shl(x: nat, k: nat): nat {
    if k == 0 then x else 2 * Shl(x, k - 1)
  }

  function Shr(x: nat, k: nat): nat {
    if k == 0 then x else Shr(x / 2, k - 1)
  }

  /** The low `k` bits: `x & ((1 << k) - 1)`. */
  function Low(x: nat, k: nat): (r: nat)
    ensures r < Pow2(k)
  {
    And(x, Pow2(k) - 1)
  }

  predicate BitSet(x: nat, k: nat) {
    if k == 0 then x % 2 == 1 else BitSet(x / 2, k - 1)
  }

  ghost predicate OnesBelow(x: nat, k: nat) {
    forall i: nat :: i < k ==> BitSet(x, i)
  }

  lemma Doubled(a: nat, b: nat)
    ensures 2 * (a * b) == (2 * a) * b
  {
  }

  lemma {:induction false} Pow2Add(j: nat, k: nat)
    ensures Pow2(j + k) == Pow2(j) * Pow2(k)
  {
    if j > 0 {
      Pow2Add(j - 1, k);
      Doubled(Pow2(j - 1), Pow2(k));
    }
  }

  lemma {:induction false} Pow2Grows(j: nat, k: nat)
    requires j <= k
    ensures Pow2(j) <= Pow2(k)
    ensures j < k ==> 2 * Pow2(j) <= Pow2(k)
    decreases k
  {
    if j < k {
      Pow2Grows(j, k - 1);
    }
  }

  /** Some power of two reaches any bound. */
  lemma {:induction false} Pow2Unbounded(n: nat)
    ensures n < Pow2(n)
  {
    if n > 0 {
      Pow2Unbounded(n - 1);
    }
  }

  /** One more low bit. */
  lemma LowStep(x: nat, k: nat)
    requires k > 0
    ensures Low(x, k) == 2 * Low(x / 2, k - 1) + x % 2
  {
  }

  lemma MulAtLeast(d: int, m: nat)
    requires d >= 1
    ensures d * m >= m
  {
  }

  lemma QuotientUnique(m: nat, q: int, r: nat, q': int, r': nat)
    requires r < m && r' < m && q * m + r == q' * m + r'
    ensures q == q' && r == r'
  {
    var d := q - q';
    assert d * m == r' - r by {
      assert q * m == d * m + q' * m;
    }
    if d >= 1 {
      MulAtLeast(d, m);
    } else if d <= -1 {
      MulAtLeast(-d, m);
    } else {
      assert d == 0;
    }
  }

  lemma ModIs(x: nat, m: nat, q: nat, r: nat)
    requires r < m && x == q * m + r
    ensures x % m == r && x / m == q
  {
    QuotientUnique(m, q, r, x / m, x % m);
  }

  lemma HalfMod(x: nat, p: nat)
    requires p > 0
    ensures x % (2 * p) == 2 * ((x / 2) % p) + x % 2 && x / (2 * p) == (x / 2) / p
  {
    var q, r := (x / 2) / p, (x / 2) % p;
    assert x / 2 == q * p + r;
    assert x == q * (2 * p) + (2 * r + x % 2);
    ModIs(x, 2 * p, q, 2 * r + x % 2);
  }

  /** Masking with 2^k - 1 is the remainder modulo 2^k. */
  lemma {:induction false} LowIsMod(x: nat, k: nat)
    ensures Low(x, k) == x % Pow2(k)
  {
    hide Low;
    if k > 0 {
      LowStep(x, k);
      LowIsMod(x / 2, k - 1);
      HalfMod(x, Pow2(k - 1));
    }
  }

  /** Shifting right by k is dividing by 2^k. */
  lemma {:induction false} ShrIsDiv(x: nat, k: nat)
    ensures Shr(x, k) == x / Pow2(k)
  {
    if k > 0 {
      ShrIsDiv(x / 2, k - 1);
      HalfMod(x, Pow2(k - 1));
    }
  }

  lemma {:induction false} LowNext(x: nat, k: nat)
    ensures Low(x + 1, k) == if Low(x, k) + 1 == Pow2(k) then 0 else Low(x, k) + 1
  {
    hide Low;
    if k > 0 {
      LowStep(x, k);
      LowStep(x + 1, k);
      LowNext(x / 2, k - 1);
    }
  }

  /** Counting up wraps at 2^k. */
  lemma {:induction false} LowPlus(x: nat, i: nat, k: nat)
    requires i <= Pow2(k)
    ensures Low(x + i, k) == if Low(x, k) + i < Pow2(k) then Low(x, k) + i else Low(x, k) + i - Pow2(k)
  {
    hide Low;
    if i > 0 {
      LowPlus(x, i - 1, k);
      LowNext(x + i - 1, k);
    }
  }

  /** A short word is its own residue. */
  lemma {:induction false} LowOfSmall(x: nat, k: nat)
    requires x < Pow2(k)
    ensures Low(x, k) == x
  {
    hide Low;
    if k > 0 {
      LowStep(x, k);
      LowOfSmall(x / 2, k - 1);
    }
  }

  lemma {:induction false} LowZeroBelow(x: nat, j: nat, k: nat)
    requires j <= k && Low(x, k) == 0
    ensures Low(x, j) == 0
  {
    hide Low;
    if j > 0 {
      LowStep(x, j);
      LowStep(x, k);
      LowZeroBelow(x / 2, j - 1, k - 1);
    }
  }

  /** Where bit `k` sits inside the residue modulo 2^(k+1). */
  lemma {:induction false} BitSetIffLow(x: nat, k: nat)
    ensures BitSet(x, k) <==> Low(x, k + 1) >= Pow2(k)
  {
    hide Low;
    LowStep(x, k + 1);
    if k > 0 {
      BitSetIffLow(x / 2, k - 1);
    }
  }

  /** Two words that share bit `k` have a conjunction of at least 2^k. */
  lemma {:induction false} AndKeepsBit(x: nat, y: nat, k: nat)
    requires BitSet(x, k) && BitSet(y, k)
    ensures And(x, y) >= Pow2(k)
  {
    if k > 0 {
      AndKeepsBit(x / 2, y / 2, k - 1);
    }
  }

  /** A bit the mask does not have is invisible. */
  lemma {:induction false} AndIgnoresBit(x: nat, mask: nat, k: nat)
    requires !BitSet(x, k) && !BitSet(mask, k)
    ensures And(x + Pow2(k), mask) == And(x, mask)
  {
    if k > 0 {
      assert (x + Pow2(k)) / 2 == x / 2 + Pow2(k - 1);
      AndIgnoresBit(x / 2, mask / 2, k - 1);
    }
  }

  /** A mask that is not 2^j - 1 has a hole below its top bit. */
  lemma {:induction false} MaskHole(m: nat) returns (full: bool, k: nat)
    ensures full ==> m == Pow2(k) - 1
    ensures !full ==> !BitSet(m, k) && Pow2(k + 1) <= m
    ensures !full ==> OnesBelow(m, k)
  {
    if m == 0 {
      full, k := true, 0;
    } else if m % 2 == 0 {
      full, k := false, 0;
    } else {
      var j;
      full, j := MaskHole(m / 2);
      k := j + 1;
      if !full {
        assert OnesBelow(m / 2, j);
        forall i: nat | i < k
          ensures BitSet(m, i)
        {
        }
      }
    }
  }

  lemma {:induction false} XorBelow(x: nat, y: nat, k: nat)
    requires x < Pow2(k) && y < Pow2(k)
    ensures Xor(x, y) < Pow2(k)
  {
    if k > 0 && x != 0 && y != 0 {
      XorBelow(x / 2, y / 2, k - 1);
    }
  }

  lemma AndStep(x: nat, y: nat)
    ensures And(x, y) == 2 * And(x / 2, y / 2) + (if x % 2 == 1 && y % 2 == 1 then 1 else 0)
  {
  }

  /** A mask below 2^k sees only the low k bits. */
  lemma {:induction false} AndSeesLow(x: nat, mask: nat, k: nat)
    requires mask < Pow2(k)
    ensures And(x, mask) == And(Low(x, k), mask)
  {
    hide Low;
    if k > 0 {
      LowStep(x, k);
      AndSeesLow(x / 2, mask / 2, k - 1);
      AndStep(x, mask);
      AndStep(Low(x, k), mask);
      hide And;
    }
  }

  /** The lowest hole of a mask that is not 2^j - 1. */
  lemma {:induction false} LowestHole(m: nat, n: nat, k: nat)
    requires m < n && !BitSet(m, k) && !BitSet(n, k) && OnesBelow(m, k)
    ensures m + Pow2(k) < n
  {
    if k > 0 {
      assert BitSet(m, 0);
      forall i: nat | i < k - 1
        ensures BitSet(m / 2, i)
      {
        assert BitSet(m, i + 1);
      }
      LowestHole(m / 2, n / 2, k - 1);
    }
  }

  /** A single bit passes a mask exactly when the mask has it. */
  lemma {:induction false} OneBit(mask: nat, j: nat)
    ensures And(Pow2(j), mask) == if BitSet(mask, j) then Pow2(j) else 0
  {
    if j > 0 {
      OneBit(mask / 2, j - 1);
    }
  }

  /** A full mask passes every bit it has. */
  lemma {:induction false} FullMask(x: nat, k: nat)
    requires x < Pow2(k)
    ensures And(x, Pow2(k) - 1) == x
  {
    if k > 0 {
      var ones := Pow2(k) - 1;
      assert ones % 2 == 1 && ones / 2 == Pow2(k - 1) - 1;
      AndStep(x, ones);
      hide And;
      FullMask(x / 2, k - 1);
    }
  }

  // ---------------------------------------------------------------- bit by bit

  lemma {:induction false} ZeroBits(k: nat)
    ensures !BitSet(0, k)
  {
    if k > 0 {
      ZeroBits(k - 1);
    }
  }

  lemma {:induction false} XorBit(x: nat, y: nat, k: nat)
    ensures BitSet(Xor(x, y), k) <==> BitSet(x, k) != BitSet(y, k)
    decreases k
  {
    ZeroBits(k);
    if k > 0 && x != 0 && y != 0 {
      assert Xor(x, y) / 2 == Xor(x / 2, y / 2);
      XorBit(x / 2, y / 2, k - 1);
    }
  }

  lemma {:induction false} ShrBit(x: nat, n: nat, k: nat)
    ensures BitSet(Shr(x, n), k) == BitSet(x, n + k)
    decreases n
  {
    if n > 0 {
      ShrBit(x / 2, n - 1, k);
    }
  }

  lemma {:induction false} LowBit(x: nat, n: nat, k: nat)
    ensures BitSet(Low(x, n), k) <==> k < n && BitSet(x, k)
    decreases k
  {
    ZeroBits(k);
    if n > 0 {
      LowStep(x, n);
      if k > 0 {
        LowBit(x / 2, n - 1, k - 1);
      }
    }
  }

  /** Shifting left by one. */
  lemma DoubleBit(x: nat, k: nat)
    ensures BitSet(2 * x, k) <==> k > 0 && BitSet(x, k - 1)
  {
    assert 2 * x / 2 == x;
  }
}
