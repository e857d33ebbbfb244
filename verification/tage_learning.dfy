/**
  What a TAGE update teaches, without reference to how it is computed: which entries an allocation pass
  takes, how the counters of the hitting and the alternate entry move, and that a repeated outcome is learned.
*/
module TageLearning {
  import opened Common
  import opened TageIndexing
  import opened TageRows

  // ---------------------------------------------------------------- which entries a pass takes

  /** A looked-up bank in a pair from `pair` on whose entry may be re-tagged. */
  ghost predicate FreeFrom(row: Row, i: nat, pair: int) {
    1 <= i <= NHIST && NoSkip(i) && Pair(i) >= pair && row[i].u == 0 && -2 <= row[i].ctr <= 1
  }

  /** The entry is one step closer to a weak one, and otherwise the same. */
  predicate Weaker(before: GEntry, after: GEntry) {
    && after.tag == before.tag && after.u == before.u
    && (before.ctr >= 0 ==> after.ctr == before.ctr - 1 && after.ctr >= 0)
    && (before.ctr < 0 ==> after.ctr == before.ctr + 1 && after.ctr < 0)
  }

  /** How many looked-up banks from `i` on hold a useful entry. */
  function UsefulFrom(row: Row, i: nat): nat
    decreases NHIST + 1 - i
  {
    if i > NHIST then 0 else (if NoSkip(i) && row[i].u > 0 then 1 else 0) + UsefulFrom(row, i + 1)
  }

  lemma PairBanks(I: nat)
    requires I < NHIST
    ensures Pair(I + 1) == Pair(Partner(I)) == I / 2
    ensures {I + 1, Partner(I)} == {2 * (I / 2) + 1, 2 * (I / 2) + 2} && 2 * (I / 2) + 2 <= NHIST
    ensures forall i: nat :: Pair(i) == I / 2 <==> i == I + 1 || i == Partner(I)
  {
  }

  /** What trying one bank makes of its entry. */
  lemma TriedScan(p: Pass, i: nat, gtag: TagRow, dir: bool)
    requires 1 <= i <= NHIST
    ensures var q := Tried(p, i, gtag, dir);
            var free := FreeFrom(p.row, i, Pair(i));
            && q.left == p.left && q.taken == (if free then p.taken + [i] else p.taken)
            && (!free && NoSkip(i) && p.row[i].u == 0 ==> Weaker(p.row[i], q.row[i]))
            && (!NoSkip(i) || p.row[i].u > 0 ==> q.row[i] == p.row[i])
            && (!free ==> q.penalty == p.penalty + (if NoSkip(i) && p.row[i].u > 0 then 1 else 0))
            && forall k :: 0 <= k <= NHIST && k != i ==> q.row[k] == p.row[k]
  {
    hide NoSkip;
    hide Pair;
  }

  /** What trying one pair makes of a row in which it has not been touched. */
  lemma PairScan(p: Pass, I: nat, gtag: TagRow, dir: bool)
    requires I < NHIST
    ensures var q := PairTried(p, I, gtag, dir);
            var x, y := I + 1, Partner(I);
            && q.left == p.left && p.taken <= q.taken && |q.taken| <= |p.taken| + 1
            && (|q.taken| > |p.taken| <==> FreeFrom(p.row, x, I / 2) || FreeFrom(p.row, y, I / 2))
            && (|q.taken| > |p.taken| ==> q.taken[|p.taken|] in {x, y} && FreeFrom(p.row, q.taken[|p.taken|], I / 2))
            && (|q.taken| == |p.taken| ==>
                  && (forall i :: i in {x, y} && NoSkip(i) && p.row[i].u == 0 ==> Weaker(p.row[i], q.row[i]))
                  && (forall i :: i in {x, y} && (!NoSkip(i) || p.row[i].u > 0) ==> q.row[i] == p.row[i])
                  && q.penalty == p.penalty + (if NoSkip(x) && p.row[x].u > 0 then 1 else 0)
                                  + (if NoSkip(y) && p.row[y].u > 0 then 1 else 0))
            && forall i :: 0 <= i <= NHIST && i != x && i != y ==> q.row[i] == p.row[i]
  {
    PairBanks(I);
    hide Tried;
    hide NoSkip;
    hide Weaker;
    hide Partner;
    hide Pair;
    TriedScan(p, I + 1, gtag, dir);
    TriedScan(Tried(p, I + 1, gtag, dir), Partner(I), gtag, dir);
  }

  /** The lowest pair from `pair` on that holds a free entry is the pair of `x`. */
  ghost predicate FirstFree(row: Row, x: nat, pair: int) {
    FreeFrom(row, x, pair) && forall i: nat :: FreeFrom(row, i, pair) ==> Pair(i) >= Pair(x)
  }

  ghost predicate AnyFree(row: Row, pair: int) {
    exists i: nat :: FreeFrom(row, i, pair)
  }

  /** What the loop takes from `pair` on: a free entry of the lowest pair that has one, and then maybe another. */
  ghost predicate Takes(orig: Row, p: Pass, r: Pass, pair: int) {
    && p.taken <= r.taken
    && (|r.taken| > |p.taken| <==> AnyFree(orig, pair))
    && (|r.taken| > |p.taken| ==>
          var x := r.taken[|p.taken|];
          && FirstFree(orig, x, pair)
          && (p.left > 0 ==> (|r.taken| > |p.taken| + 1 <==> AnyFree(orig, Pair(x) + 2)))
          && (|r.taken| > |p.taken| + 1 ==> FirstFree(orig, r.taken[|p.taken| + 1], Pair(x) + 2)))
  }

  lemma NextPair(orig: Row, I: nat, pair: int)
    requires I < NHIST && I / 2 == pair
    requires !FreeFrom(orig, I + 1, pair) && !FreeFrom(orig, Partner(I), pair)
    ensures forall i: nat :: FreeFrom(orig, i, pair) <==> FreeFrom(orig, i, pair + 1)
  {
    PairBanks(I);
    hide NoSkip;
    hide Partner;
  }

  lemma TakesLater(orig: Row, p: Pass, q: Pass, r: Pass, pair: int)
    requires forall i: nat :: FreeFrom(orig, i, pair) <==> FreeFrom(orig, i, pair + 1)
    requires q.taken == p.taken && q.left == p.left && Takes(orig, q, r, pair + 1)
    ensures Takes(orig, p, r, pair)
  {
    assert forall x: nat :: FirstFree(orig, x, pair + 1) ==> FirstFree(orig, x, pair) by {
      hide FreeFrom;
    }
    assert AnyFree(orig, pair) ==> AnyFree(orig, pair + 1) by {
      hide FreeFrom;
      if AnyFree(orig, pair) {
        var i: nat :| FreeFrom(orig, i, pair);
        assert FreeFrom(orig, i, pair + 1);
      }
    }
    assert AnyFree(orig, pair + 1) ==> AnyFree(orig, pair) by {
      hide FreeFrom;
      if AnyFree(orig, pair + 1) {
        var i: nat :| FreeFrom(orig, i, pair + 1);
        assert FreeFrom(orig, i, pair);
      }
    }
    hide FreeFrom;
    hide FirstFree;
    hide AnyFree;
  }

  lemma TakesHere(orig: Row, p: Pass, q: Pass, r: Pass, pair: int)
    requires p.taken <= q.taken && |q.taken| == |p.taken| + 1 && q.left == p.left
    requires FreeFrom(orig, q.taken[|p.taken|], pair) && Pair(q.taken[|p.taken|]) == pair
    requires if p.left == 0 then r == q else Takes(orig, q.(left := p.left - 1), r, pair + 2)
    ensures Takes(orig, p, r, pair)
  {
    var x := q.taken[|p.taken|];
    assert FirstFree(orig, x, pair) && AnyFree(orig, pair);
    hide FreeFrom;
    hide AnyFree;
    if p.left > 0 {
      assert r.taken[|p.taken|] == x;
    }
  }

  lemma NothingFreeBeyond(orig: Row, I: nat)
    requires I >= NHIST
    ensures !AnyFree(orig, I / 2)
  {
  }

  lemma SameFree(orig: Row, row: Row, I: nat)
    requires I < NHIST && UntouchedFrom(orig, row, I / 2)
    ensures FreeFrom(row, I + 1, I / 2) <==> FreeFrom(orig, I + 1, I / 2)
    ensures FreeFrom(row, Partner(I), I / 2) <==> FreeFrom(orig, Partner(I), I / 2)
    ensures row[I + 1] == orig[I + 1] && row[Partner(I)] == orig[Partner(I)]
  {
    PairBanks(I);
  }

  lemma FreeThere(orig: Row, row: Row, I: nat, x: nat)
    requires I < NHIST && UntouchedFrom(orig, row, I / 2) && x in {I + 1, Partner(I)} && FreeFrom(row, x, I / 2)
    ensures FreeFrom(orig, x, I / 2) && Pair(x) == I / 2
  {
    PairBanks(I);
    hide NoSkip;
  }

  lemma {:induction false} AllocateTakes(orig: Row, p: Pass, I: nat, gtag: TagRow, dir: bool)
    requires UntouchedFrom(orig, p.row, I / 2)
    ensures Takes(orig, p, Allocate(p, I, gtag, dir), I / 2)
    decreases NHIST - I
  {
    hide PairTried;
    hide UntouchedFrom;
    hide NoSkip;
    if I >= NHIST {
      NothingFreeBeyond(orig, I);
    } else {
      var q, r := PairTried(p, I, gtag, dir), Allocate(p, I, gtag, dir);
      PairScan(p, I, gtag, dir);
      SameFree(orig, p.row, I);
      PairUntouched(orig, p, I, gtag, dir);
      PairBanks(I);
      hide Takes;
      hide FreeFrom;
      hide Weaker;
      hide Partner;
      hide Pair;
      if |q.taken| == |p.taken| {
        NextPair(orig, I, I / 2);
        AllocateTakes(orig, q, I + 2, gtag, dir);
        TakesLater(orig, p, q, r, I / 2);
      } else {
        if p.left > 0 {
          UntouchedFurther(orig, q.row, I / 2 + 1, I / 2 + 2);
          AllocateTakes(orig, q.(left := p.left - 1), I + 4, gtag, dir);
        }
        FreeThere(orig, p.row, I, q.taken[|p.taken|]);
        TakesHere(orig, p, q, r, I / 2);
      }
    }
  }

  lemma Untouched(row: Row, pair: int)
    ensures UntouchedFrom(row, row, pair)
  {
  }

  lemma TakesFromNothing(row: Row, p: Pass, r: Pass, pair: int)
    requires p.taken == [] && p.left > 0 && Takes(row, p, r, pair)
    ensures r.taken != [] <==> AnyFree(row, pair)
    ensures r.taken != [] ==> FirstFree(row, r.taken[0], pair)
    ensures |r.taken| > 1 <==> r.taken != [] && AnyFree(row, Pair(r.taken[0]) + 2)
    ensures |r.taken| > 1 ==> FirstFree(row, r.taken[1], Pair(r.taken[0]) + 2)
  {
    hide FirstFree;
    hide AnyFree;
    hide Pair;
  }

  lemma StartPair(hitBank: nat, a: nat, r: nat)
    requires hitBank <= NHIST && 1 <= a <= 2 && r <= 1
    ensures StartOf(hitBank, a, r) / 2 == Pair(hitBank) + a
  {
  }

  /**
    A pass looks at the pairs from one or two above the hitting bank's. It re-tags an entry exactly when one is
    free there, and a second exactly when one is free at least two pairs further; each is of the lowest such pair.
  */
  lemma {:induction false} PassTakesFirstFree(row: Row, hitBank: nat, a: nat, r: nat, gtag: TagRow, dir: bool)
    requires hitBank <= NHIST && 1 <= a <= 2 && r <= 1
    ensures var taken, pair := AllocationPass(row, hitBank, a, r, gtag, dir).taken, StartOf(hitBank, a, r) / 2;
            && pair == Pair(hitBank) + a
            && (taken != [] <==> AnyFree(row, pair))
            && (taken != [] ==> FirstFree(row, taken[0], pair))
            && (|taken| > 1 <==> taken != [] && AnyFree(row, Pair(taken[0]) + 2))
            && (|taken| > 1 ==> FirstFree(row, taken[1], Pair(taken[0]) + 2))
  {
    hide Allocate;
    hide Takes;
    hide FirstFree;
    hide AnyFree;
    hide UntouchedFrom;
    var start, p := StartOf(hitBank, a, r), Pass(row, NNN, 0, []);
    assert UntouchedFrom(row, p.row, start / 2) by {
      Untouched(row, start / 2);
    }
    AllocateTakes(row, p, start, gtag, dir);
    TakesFromNothing(row, p, Allocate(p, start, gtag, dir), start / 2);
    StartPair(hitBank, a, r);
  }

  /** What a pass does to the entries that it passes over from `pair` on, up to `upto`. */
  ghost predicate PassedOver(orig: Row, after: Row, pair: int, upto: int) {
    forall i :: 1 <= i <= NHIST && pair <= Pair(i) < upto ==>
      if NoSkip(i) && orig[i].u == 0 then Weaker(orig[i], after[i]) else after[i] == orig[i]
  }

  lemma {:induction false} AllocateKeepsBelow(p: Pass, I: nat, gtag: TagRow, dir: bool)
    ensures var r := Allocate(p, I, gtag, dir); forall i :: 0 <= i <= NHIST && Pair(i) < I / 2 ==> r.row[i] == p.row[i]
    decreases NHIST - I
  {
    hide PairTried;
    if I < NHIST {
      var q := PairTried(p, I, gtag, dir);
      PairScan(p, I, gtag, dir);
      PairBanks(I);
      hide FreeFrom;
      hide Weaker;
      if |q.taken| == |p.taken| {
        AllocateKeepsBelow(q, I + 2, gtag, dir);
      } else if p.left > 0 {
        AllocateKeepsBelow(q.(left := p.left - 1), I + 4, gtag, dir);
      }
    }
  }

  /** Banks up to the hitting one are left alone by a pass. */
  lemma PassKeepsLower(row: Row, hitBank: nat, a: nat, r: nat, gtag: TagRow, dir: bool, i: nat)
    requires i <= hitBank <= NHIST && 1 <= a <= 2 && r <= 1
    ensures AllocationPass(row, hitBank, a, r, gtag, dir).row[i] == row[i]
  {
    AllocateKeepsBelow(Pass(row, NNN, 0, []), StartOf(hitBank, a, r), gtag, dir);
  }

  lemma TwoUseful(orig: Row, I: nat)
    requires I < NHIST
    ensures UsefulFrom(orig, 2 * (I / 2) + 1)
            == (if NoSkip(I + 1) && orig[I + 1].u > 0 then 1 else 0)
               + (if NoSkip(Partner(I)) && orig[Partner(I)].u > 0 then 1 else 0) + UsefulFrom(orig, 2 * (I / 2) + 3)
  {
    hide NoSkip;
    PairBanks(I);
  }

  lemma {:induction false} TakenGrows(p: Pass, I: nat, gtag: TagRow, dir: bool)
    ensures p.taken <= Allocate(p, I, gtag, dir).taken
    decreases NHIST - I
  {
    hide PairTried;
    if I < NHIST {
      var q := PairTried(p, I, gtag, dir);
      PairScan(p, I, gtag, dir);
      if |q.taken| == |p.taken| {
        TakenGrows(q, I + 2, gtag, dir);
      } else if p.left > 0 {
        TakenGrows(q.(left := p.left - 1), I + 4, gtag, dir);
      }
    }
  }

  lemma PassedOverPair(orig: Row, q: Row, after: Row, I: nat, upto: int)
    requires I < NHIST && PassedOver(orig, after, I / 2 + 1, upto)
    requires forall i :: i in {I + 1, Partner(I)} ==> after[i] == q[i]
    requires forall i :: i in {I + 1, Partner(I)} ==>
               if NoSkip(i) && orig[i].u == 0 then Weaker(orig[i], q[i]) else q[i] == orig[i]
    ensures PassedOver(orig, after, I / 2, upto)
  {
    PairBanks(I);
    hide NoSkip;
    hide Weaker;
    hide Partner;
  }

  /** Where the loop stops passing over entries: at the first pair of which it takes one. */
  function Upto(p: Pass, r: Pass): int {
    if |r.taken| > |p.taken| then Pair(r.taken[|p.taken|]) else NHIST
  }

  lemma TakesFirst(p: Pass, I: nat, gtag: TagRow, dir: bool)
    requires I < NHIST && |PairTried(p, I, gtag, dir).taken| > |p.taken|
    ensures Upto(p, Allocate(p, I, gtag, dir)) == I / 2
    ensures |Allocate(p, I, gtag, dir).taken| > |p.taken|
  {
    hide PairTried;
    hide NoSkip;
    var q := PairTried(p, I, gtag, dir);
    PairScan(p, I, gtag, dir);
    PairBanks(I);
    hide FreeFrom;
    hide Partner;
    hide Pair;
    if p.left > 0 {
      TakenGrows(q.(left := p.left - 1), I + 4, gtag, dir);
    }
  }

  lemma FruitlessPair(orig: Row, p: Pass, I: nat, gtag: TagRow, dir: bool)
    requires I < NHIST && UntouchedFrom(orig, p.row, I / 2) && |PairTried(p, I, gtag, dir).taken| == |p.taken|
    ensures var q := PairTried(p, I, gtag, dir);
            && q.taken == p.taken && q.left == p.left && UntouchedFrom(orig, q.row, I / 2 + 1)
            && q.penalty + UsefulFrom(orig, 2 * (I / 2) + 3) == p.penalty + UsefulFrom(orig, 2 * (I / 2) + 1)
            && forall i :: i in {I + 1, Partner(I)} ==>
                 if NoSkip(i) && orig[i].u == 0 then Weaker(orig[i], q.row[i]) else q.row[i] == orig[i]
  {
    hide PairTried;
    hide NoSkip;
    hide Weaker;
    hide UsefulFrom;
    PairScan(p, I, gtag, dir);
    SameFree(orig, p.row, I);
    TwoUseful(orig, I);
    PairUntouched(orig, p, I, gtag, dir);
    hide UntouchedFrom;
    hide FreeFrom;
    hide Partner;
  }

  lemma NoneUseful(row: Row, i: nat)
    requires i > NHIST
    ensures UsefulFrom(row, i) == 0
  {
  }

  lemma NotShorter(p: Pass, I: nat, gtag: TagRow, dir: bool)
    requires I < NHIST
    ensures |PairTried(p, I, gtag, dir).taken| >= |p.taken|
  {
    PairScan(p, I, gtag, dir);
  }

  lemma {:induction false} AllocatePassesOver(orig: Row, p: Pass, I: nat, gtag: TagRow, dir: bool)
    requires UntouchedFrom(orig, p.row, I / 2)
    ensures var r := Allocate(p, I, gtag, dir);
            && PassedOver(orig, r.row, I / 2, Upto(p, r))
            && (|r.taken| == |p.taken| ==> r.penalty == p.penalty + UsefulFrom(orig, 2 * (I / 2) + 1))
    decreases NHIST - I
  {
    hide PairTried;
    hide NoSkip;
    hide Weaker;
    hide UsefulFrom;
    hide UntouchedFrom;
    if I >= NHIST {
      NoneUseful(orig, 2 * (I / 2) + 1);
    } else if |PairTried(p, I, gtag, dir).taken| > |p.taken| {
      TakesFirst(p, I, gtag, dir);
    } else {
      var q, r := PairTried(p, I, gtag, dir), Allocate(p, I, gtag, dir);
      TakenGrows(p, I, gtag, dir);
      NotShorter(p, I, gtag, dir);
      FruitlessPair(orig, p, I, gtag, dir);
      PairBanks(I);
      assert (I + 2) / 2 == I / 2 + 1;
      AllocatePassesOver(orig, q, I + 2, gtag, dir);
      AllocateKeepsBelow(q, I + 2, gtag, dir);
      hide PassedOver;
      hide Partner;
      hide Pair;
      PassedOverPair(orig, q.row, r.row, I, Upto(p, r));
    }
  }

  /**
    Up to the first pair of which it takes an entry, or to the last pair when it takes none, a pass weakens every
    entry that is not useful and leaves the useful ones alone. When it takes none it counts the useful ones as
    its penalty.
  */
  lemma {:induction false} PassWeakens(row: Row, hitBank: nat, a: nat, r: nat, gtag: TagRow, dir: bool)
    requires hitBank <= NHIST && 1 <= a <= 2 && r <= 1
    ensures var pass, pair := AllocationPass(row, hitBank, a, r, gtag, dir), StartOf(hitBank, a, r) / 2;
            && PassedOver(row, pass.row, pair, if pass.taken == [] then NHIST else Pair(pass.taken[0]))
            && (pass.taken == [] ==> pass.penalty == UsefulFrom(row, 2 * pair + 1))
  {
    AllocatePassesOver(row, Pass(row, NNN, 0, []), StartOf(hitBank, a, r), gtag, dir);
  }

  // ---------------------------------------------------------------- how counters move

  /** One step of a three-bit counter towards an outcome. */
  function Towards(c: Counter, dir: bool): Counter {
    if dir then Min(c + 1, 3) else Max(c - 1, -4)
  }

  /** A hit whose counter says the wrong direction as weakly as it can. */
  predicate WeakAndWrong(c: Counter, dir: bool) {
    c == if dir then -1 else 0
  }

  /** The useful counter of the hitting entry after an outcome; `u` is what ageing has left of it. */
  function UsefulAfter(hit: GEntry, u: Useful, alt: Option<GEntry>, altTaken: bool, dir: bool, increment: nat): Useful
    requires increment <= 126
  {
    if (hit.ctr >= 0) != dir then (if Towards(hit.ctr, dir) in {-1, 0} then 0 else u)
    else if altTaken != dir then (if u == 0 then 1 + increment else u)
    else if u == 1 && alt.Some? && alt.value.ctr in {-4, 3} then 0
    else u
  }

  /**
    What an update teaches the entries that a branch addressed: the hitting entry moves towards the outcome, the
    alternate does so in protection of a weak and wrong hit, and no other counter moves.
  */
  ghost predicate Taught(row: Row, p: Prediction, dir: bool, reset: bool, increment: nat, after: Row)
    requires p.Ok() && increment <= 126
  {
    && (p.hitBank > 0 ==>
          var hit, u := row[p.hitBank], if reset then row[p.hitBank].u / 2 else row[p.hitBank].u;
          var alt := if p.altBank > 0 then Some(row[p.altBank]) else None;
          after[p.hitBank]
          == GEntry(Towards(hit.ctr, dir), hit.tag, UsefulAfter(hit, u, alt, p.altTaken, dir, increment)))
    && (p.altBank > 0 ==>
          var alt := row[p.altBank];
          after[p.altBank] == GEntry(if WeakAndWrong(row[p.hitBank].ctr, dir) then Towards(alt.ctr, dir) else alt.ctr,
                                     alt.tag, if reset then alt.u / 2 else alt.u))
  }

  lemma SettledTeaches(row: Row, p: Prediction, dir: bool, reset: bool, increment: nat)
    requires p.Ok() && increment <= 126 && p.Reads(row)
    ensures Taught(row, p, dir, reset, increment, Settled(row, p, dir, reset, increment))
    ensures forall i :: 1 <= i <= NHIST && i != p.hitBank && i != p.altBank ==>
              Settled(row, p, dir, reset, increment)[i]
              == row[i].(u := if reset then row[i].u / 2 else row[i].u)
  {
    hide NoSkip;
  }

  /** The base counter trains without a hit, and in protection of a weak and wrong hit that has no alternate. */
  lemma BaseMovesIff(row: Row, p: Prediction, dir: bool)
    requires p.Ok() && p.Reads(row)
    ensures BaseMoves(row, p, dir) <==> p.altBank == 0 && (p.hitBank > 0 ==> WeakAndWrong(row[p.hitBank].ctr, dir))
  {
  }
}
