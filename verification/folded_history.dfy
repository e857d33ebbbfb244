/**
  Folded branch histories: a cyclic shift register that is updated with one new and one old bit, and the
  fold of the whole history window that it stands for.
*/
module FoldedHistories {
  import Bits

  const UNSIGNED_BITS: nat := 32

  /** An `unsigned int`, least significant bit first. */
  type Word = w: seq<bool> | |w| == UNSIGNED_BITS witness seq(UNSIGNED_BITS, i => false)

  function Zero(): Word {
    seq(UNSIGNED_BITS, i => false)
  }

  /** The word holding `b` shifted left by `k`. */
  function BitAt(b: bool, k: nat): Word {
    seq(UNSIGNED_BITS, i => b && i == k)
  }

  function XorWords(a: Word, b: Word): Word {
    seq(UNSIGNED_BITS, i requires 0 <= i < UNSIGNED_BITS => a[i] != b[i])
  }

  function ShiftLeft(a: Word, k: nat): Word {
    seq(UNSIGNED_BITS, i requires 0 <= i < UNSIGNED_BITS => i >= k && a[i - k])
  }

  function ShiftRight(a: Word, k: nat): Word {
    seq(UNSIGNED_BITS, i requires 0 <= i < UNSIGNED_BITS => i + k < UNSIGNED_BITS && a[i + k])
  }

  function LowBits(a: Word, k: nat): Word {
    seq(UNSIGNED_BITS, i requires 0 <= i < UNSIGNED_BITS => i < k && a[i])
  }

  /** One register: `original` history bits folded into `compressed` bits. */
  datatype Folded = Folded(comp: Word, compressed: nat, original: nat) {
    ghost predicate Ok() {
      0 < compressed < UNSIGNED_BITS
    }

    function OutPoint(): nat
      requires compressed > 0
    {
      original % compressed
    }

    /** `folded_history::update`: shift in the newest bit, cancel the one that leaves, fold the carry. */
    function Updated(newest: bool, leaving: bool): Folded
      requires compressed > 0
    {
      var shifted := XorWords(ShiftLeft(comp, 1), BitAt(newest, 0));
      var cancelled := XorWords(shifted, BitAt(leaving, OutPoint()));
      var folded := XorWords(cancelled, ShiftRight(cancelled, compressed));
      this.(comp := LowBits(folded, compressed))
    }
  }

  /** Branch directions, most recent first; before the first branch the history is all zeros. */
  type History = seq<bool>

  function Bit(h: History, k: nat): bool {
    k < |h| && h[k]
  }

  /** The exclusive or, over the `n` most recent bits, of bit k shifted left by k mod `compressed`. */
  function Fold(h: History, n: nat, compressed: nat): Word
    requires compressed > 0
  {
    if n == 0 then Zero()
    else XorWords(Fold(h, n - 1, compressed), BitAt(Bit(h, n - 1), (n - 1) % compressed))
  }

  /** Bit j of a fold: the parity of the history bits that land on it. */
  function Parity(h: History, n: nat, compressed: nat, j: nat): bool
    requires compressed > 0
  {
    n > 0 && (Parity(h, n - 1, compressed, j) != (Bit(h, n - 1) && (n - 1) % compressed == j))
  }

  lemma {:induction false} FoldIsParity(h: History, n: nat, compressed: nat, j: nat)
    requires compressed > 0 && j < UNSIGNED_BITS
    ensures Fold(h, n, compressed)[j] == Parity(h, n, compressed, j)
    ensures j >= compressed ==> !Parity(h, n, compressed, j)
  {
    if n > 0 {
      FoldIsParity(h, n - 1, compressed, j);
    }
  }

  function Previous(j: nat, compressed: nat): nat
    requires j < compressed
  {
    if j == 0 then compressed - 1 else j - 1
  }

  lemma Residue(x: nat, m: nat, q: nat, r: nat)
    requires r < m && x == q * m + r
    ensures x % m == r
  {
    Bits.ModIs(x, m, q, r);
  }

  lemma NextResidue(k: nat, compressed: nat, j: nat)
    requires j < compressed
    ensures (k + 1) % compressed == j <==> k % compressed == Previous(j, compressed)
  {
    var q, r := k / compressed, k % compressed;
    if r + 1 < compressed {
      Residue(k + 1, compressed, q, r + 1);
    } else {
      assert k + 1 == (q + 1) * compressed + 0;
      Residue(k + 1, compressed, q + 1, 0);
    }
  }

  /** A new branch moves every contribution one position up, cyclically. */
  lemma {:induction false} ParityShifts(h: History, b: bool, n: nat, compressed: nat, j: nat)
    requires j < compressed
    ensures Parity([b] + h, n + 1, compressed, j)
            == (Parity(h, n, compressed, Previous(j, compressed)) != (b && j == 0))
  {
    if n == 0 {
      assert Parity([b] + h, 0, compressed, j) == false;
    } else {
      ParityShifts(h, b, n - 1, compressed, j);
      NextResidue(n - 1, compressed, j);
      assert Bit([b] + h, n) == Bit(h, n - 1);
    }
  }

  ghost predicate Folds(f: Folded, h: History) {
    f.Ok() && f.comp == Fold(h, f.original, f.compressed)
  }

  lemma {:induction false} FoldIsShort(h: History, n: nat, compressed: nat)
    requires compressed > 0
    ensures forall k :: compressed <= k < UNSIGNED_BITS ==> !Fold(h, n, compressed)[k]
  {
    if n > 0 {
      FoldIsShort(h, n - 1, compressed);
    }
  }

  lemma UpdatedBit(f: Folded, newest: bool, leaving: bool, j: nat)
    requires f.Ok() && j < f.compressed
    requires forall k :: f.compressed <= k < UNSIGNED_BITS ==> !f.comp[k]
    ensures f.Updated(newest, leaving).comp[j]
              == ((f.comp[Previous(j, f.compressed)] != (newest && j == 0)) != (leaving && f.OutPoint() == j))
  {
  }

  lemma UpdatedIsShort(f: Folded, newest: bool, leaving: bool, j: nat)
    requires f.Ok() && f.compressed <= j < UNSIGNED_BITS
    ensures !f.Updated(newest, leaving).comp[j]
  {
  }

  lemma UpdateFoldsBit(f: Folded, h: History, newest: bool, j: nat)
    requires Folds(f, h) && j < UNSIGNED_BITS
    ensures f.Updated(newest, Bit([newest] + h, f.original)).comp[j] == Fold([newest] + h, f.original, f.compressed)[j]
  {
    hide Folded.Updated;
    hide Fold;
    var h', n, c := [newest] + h, f.original, f.compressed;
    FoldIsParity(h', n, c, j);
    if j < c {
      FoldIsShort(h, n, c);
      FoldIsParity(h, n, c, Previous(j, c));
      ParityShifts(h, newest, n, c, j);
      UpdatedBit(f, newest, Bit(h', n), j);
    } else {
      UpdatedIsShort(f, newest, Bit(h', n), j);
    }
  }

  /** The incremental register stays the fold of the window it would be recomputed from. */
  lemma UpdateFolds(f: Folded, h: History, newest: bool)
    requires Folds(f, h)
    ensures Folds(f.Updated(newest, Bit([newest] + h, f.original)), [newest] + h)
  {
    var after := f.Updated(newest, Bit([newest] + h, f.original));
    forall j | 0 <= j < UNSIGNED_BITS
      ensures after.comp[j] == Fold([newest] + h, f.original, f.compressed)[j]
    {
      UpdateFoldsBit(f, h, newest, j);
    }
  }
}
