/**
  What a TAGE lookup and update do to the entries one branch addresses. Those entries form a row: the
  looked-up banks of one address and history lie in distinct physical entries, so row[i] can be changed
  without touching row[j].
*/
module TageRows {
  import opened Common
  import opened TageIndexing

  const NNN: nat := 1

  type Counter = c: int | -4 <= c <= 3
  type Useful = u: int | 0 <= u <= 127

  datatype GEntry = GEntry(ctr: Counter, tag: nat, u: Useful) {
    /** |2 ctr + 1|: 1, 3, 5 or 7. */
    function Strength(): nat {
      Abs(2 * ctr + 1)
    }

    predicate Predicts() {
      ctr >= 0
    }
  }

  type Row = r: seq<GEntry> | |r| == NHIST + 1 witness seq(NHIST + 1, i => GEntry(0, 0, 0))
  type TagRow = t: seq<nat> | |t| == NHIST + 1 witness seq(NHIST + 1, i => 0)

  // ---------------------------------------------------------------- lookup

  predicate Matches(row: Row, gtag: TagRow, i: nat)
    requires i <= NHIST
  {
    NoSkip(i) && row[i].tag == gtag[i]
  }

  /** The highest matching bank up to `top`, or 0. */
  function HighestMatch(row: Row, gtag: TagRow, top: nat): (b: nat)
    requires top <= NHIST
    ensures b <= top
    ensures b > 0 ==> Matches(row, gtag, b)
    ensures forall i :: b < i <= top ==> !Matches(row, gtag, i)
  {
    if top == 0 || Matches(row, gtag, top) then top else HighestMatch(row, gtag, top - 1)
  }

  // ---------------------------------------------------------------- allocation

  /** The progress of one allocation pass: `left` is T, and `taken` lists the banks re-tagged so far. */
  datatype Pass = Pass(row: Row, left: nat, penalty: nat, taken: seq<nat>)

  predicate Free(e: GEntry) {
    e.u == 0 && e.Strength() <= 3
  }

  function Allocated(e: GEntry, tag: nat, dir: bool): GEntry {
    GEntry(if dir then 0 else -1, tag, e.u)
  }

  function Decayed(e: GEntry): GEntry
    requires e.Strength() > 3
  {
    e.(ctr := if e.ctr > 0 then e.ctr - 1 else e.ctr + 1)
  }

  /** One candidate: re-tagged when free, weakened when strong but not useful, counted when useful. */
  function Tried(p: Pass, i: nat, gtag: TagRow, dir: bool): Pass
    requires i <= NHIST
  {
    if !NoSkip(i) then p
    else if Free(p.row[i]) then p.(row := p.row[i := Allocated(p.row[i], gtag[i], dir)], taken := p.taken + [i])
    else if p.row[i].u == 0 then p.(row := p.row[i := Decayed(p.row[i])])
    else p.(penalty := p.penalty + 1)
  }

  /** The bank tried second: the other one of the pair. */
  function Partner(I: nat): nat {
    (if I % 2 == 0 then I + 1 else I - 1) + 1
  }

  /** Both banks of a pair, the second only when the first was not re-tagged. */
  function PairTried(p: Pass, I: nat, gtag: TagRow, dir: bool): Pass
    requires I < NHIST
  {
    var first := Tried(p, I + 1, gtag, dir);
    if |first.taken| > |p.taken| then first else Tried(first, Partner(I), gtag, dir)
  }

  /** The allocation loop from `I` on; after re-tagging a bank it skips the next pair. */
  function Allocate(p: Pass, I: nat, gtag: TagRow, dir: bool): Pass
    decreases NHIST - I
  {
    if I >= NHIST then p
    else
      var q := PairTried(p, I, gtag, dir);
      if |q.taken| == |p.taken| then Allocate(q, I + 2, gtag, dir)
      else if p.left == 0 then q
      else Allocate(q.(left := p.left - 1), I + 4, gtag, dir)
  }

  function Pair(i: nat): int {
    (i - 1) / 2
  }

  /** How a pass changes a row: free entries are re-tagged, and the rest keep tag, usefulness and direction. */
  ghost predicate Retagged(before: Row, after: Row, gtag: TagRow, dir: bool, taken: seq<nat>) {
    forall i :: 0 <= i <= NHIST ==>
      if i in taken then Free(before[i]) && NoSkip(i) && after[i] == Allocated(before[i], gtag[i], dir)
      else after[i].tag == before[i].tag && after[i].u == before[i].u
           && after[i].Predicts() == before[i].Predicts() && after[i].Strength() <= before[i].Strength()
  }

  /** The re-tagged banks come in ascending pairs from `from` up, at least two apart and below `upto`. */
  ghost predicate Spaced(taken: seq<nat>, from: int, upto: int) {
    && (forall k :: 0 <= k < |taken| ==> 1 <= taken[k] <= NHIST && from <= Pair(taken[k]) <= upto - 2)
    && forall k, l :: 0 <= k < l < |taken| ==> Pair(taken[k]) + 2 <= Pair(taken[l])
  }

  ghost predicate UntouchedFrom(before: Row, after: Row, pair: int) {
    forall i :: 1 <= i <= NHIST && Pair(i) >= pair ==> after[i] == before[i]
  }

  lemma TriedEffect(orig: Row, p: Pass, i: nat, gtag: TagRow, dir: bool)
    requires 1 <= i <= NHIST && p.row[i] == orig[i] && i !in p.taken
    requires Retagged(orig, p.row, gtag, dir, p.taken)
    ensures var q := Tried(p, i, gtag, dir);
            && q.left == p.left && (q.taken == p.taken || q.taken == p.taken + [i])
            && Retagged(orig, q.row, gtag, dir, q.taken)
            && forall k :: 0 <= k <= NHIST && k != i ==> q.row[k] == p.row[k]
  {
  }

  lemma SpacedAppend(taken: seq<nat>, from: int, i: nat)
    requires Spaced(taken, from, Pair(i)) && 1 <= i <= NHIST && from <= Pair(i)
    ensures i !in taken && Spaced(taken + [i], from, Pair(i) + 2)
  {
  }

  lemma PartnerIsInPair(orig: Row, row: Row, I: nat)
    requires I < NHIST && UntouchedFrom(orig, row, I / 2)
    ensures Pair(I + 1) == Pair(Partner(I)) == I / 2 && Partner(I) != I + 1 && 1 <= Partner(I) <= NHIST
    ensures row[I + 1] == orig[I + 1] && row[Partner(I)] == orig[Partner(I)]
  {
  }

  lemma PairUntouched(orig: Row, p: Pass, I: nat, gtag: TagRow, dir: bool)
    requires I < NHIST && UntouchedFrom(orig, p.row, I / 2)
    ensures UntouchedFrom(orig, PairTried(p, I, gtag, dir).row, I / 2 + 1)
  {
    hide NoSkip;
    hide Free;
    hide Allocated;
  }

  lemma OneTry(orig: Row, p: Pass, i: nat, from: int, gtag: TagRow, dir: bool)
    requires 1 <= i <= NHIST && from <= Pair(i) && p.row[i] == orig[i]
    requires Retagged(orig, p.row, gtag, dir, p.taken) && Spaced(p.taken, from, Pair(i))
    ensures var q := Tried(p, i, gtag, dir);
            && Retagged(orig, q.row, gtag, dir, q.taken) && q.left == p.left
            && (q.taken == p.taken || (|q.taken| == |p.taken| + 1 && Spaced(q.taken, from, Pair(i) + 2)))
            && forall k :: 0 <= k <= NHIST && k != i ==> q.row[k] == p.row[k]
  {
    hide Tried;
    hide Retagged;
    hide Spaced;
    hide Pair;
    SpacedAppend(p.taken, from, i);
    TriedEffect(orig, p, i, gtag, dir);
  }

  lemma SpacedUpto(taken: seq<nat>, from: int, upto: int, further: int)
    requires Spaced(taken, from, upto) && upto <= further
    ensures Spaced(taken, from, further)
  {
  }

  lemma BothTried(orig: Row, p: Pass, i: nat, j: nat, from: int, gtag: TagRow, dir: bool)
    requires 1 <= i <= NHIST && 1 <= j <= NHIST && i != j && from <= Pair(i) == Pair(j)
    requires p.row[i] == orig[i] && p.row[j] == orig[j]
    requires Retagged(orig, p.row, gtag, dir, p.taken) && Spaced(p.taken, from, Pair(i))
    ensures var first := Tried(p, i, gtag, dir);
            var q := if |first.taken| > |p.taken| then first else Tried(first, j, gtag, dir);
            && Retagged(orig, q.row, gtag, dir, q.taken) && q.left == p.left
            && |p.taken| <= |q.taken| <= |p.taken| + 1
            && Spaced(q.taken, from, if |q.taken| > |p.taken| then Pair(i) + 2 else Pair(i) + 1)
  {
    hide Tried;
    hide Retagged;
    hide Spaced;
    hide Pair;
    SpacedUpto(p.taken, from, Pair(i), Pair(i) + 1);
    OneTry(orig, p, i, from, gtag, dir);
    var first := Tried(p, i, gtag, dir);
    if |first.taken| == |p.taken| {
      OneTry(orig, first, j, from, gtag, dir);
    }
  }

  lemma PairEffect(orig: Row, p: Pass, I: nat, from: int, gtag: TagRow, dir: bool)
    requires I < NHIST && from <= I / 2
    requires Retagged(orig, p.row, gtag, dir, p.taken) && UntouchedFrom(orig, p.row, I / 2)
    requires Spaced(p.taken, from, I / 2)
    ensures var q := PairTried(p, I, gtag, dir);
            && Retagged(orig, q.row, gtag, dir, q.taken) && UntouchedFrom(orig, q.row, I / 2 + 1)
            && q.left == p.left
            && |p.taken| <= |q.taken| <= |p.taken| + 1
            && Spaced(q.taken, from, if |q.taken| > |p.taken| then I / 2 + 2 else I / 2 + 1)
  {
    hide Retagged;
    hide Spaced;
    hide Tried;
    PairUntouched(orig, p, I, gtag, dir);
    PartnerIsInPair(orig, p.row, I);
    hide UntouchedFrom;
    BothTried(orig, p, I + 1, Partner(I), from, gtag, dir);
  }

  lemma UntouchedFurther(before: Row, after: Row, pair: int, further: int)
    requires UntouchedFrom(before, after, pair) && pair <= further
    ensures UntouchedFrom(before, after, further)
  {
  }

  /**
    A pass re-tags at most one bank more than `left`, only free entries, in pairs from the starting pair
    upwards and at least two apart; every other entry keeps its tag, usefulness and direction.
  */
  lemma {:induction false} AllocateEffect(orig: Row, p: Pass, I: nat, from: int, gtag: TagRow, dir: bool)
    requires Retagged(orig, p.row, gtag, dir, p.taken) && UntouchedFrom(orig, p.row, I / 2)
    requires Spaced(p.taken, from, I / 2) && from <= I / 2 <= NHIST
    ensures var r := Allocate(p, I, gtag, dir);
            && Retagged(orig, r.row, gtag, dir, r.taken)
            && Spaced(r.taken, from, NHIST + 2)
            && |r.taken| <= |p.taken| + p.left + 1
    decreases NHIST - I
  {
    hide PairTried;
    hide Retagged;
    hide Spaced;
    hide UntouchedFrom;
    if I >= NHIST {
      SpacedUpto(p.taken, from, I / 2, NHIST + 2);
    } else {
      var q := PairTried(p, I, gtag, dir);
      PairEffect(orig, p, I, from, gtag, dir);
      if |q.taken| == |p.taken| {
        AllocateEffect(orig, q, I + 2, from, gtag, dir);
      } else if p.left == 0 {
        SpacedUpto(q.taken, from, I / 2 + 2, NHIST + 2);
      } else {
        UntouchedFurther(orig, q.row, I / 2 + 1, I / 2 + 2);
        AllocateEffect(orig, q.(left := p.left - 1), I + 4, from, gtag, dir);
      }
    }
  }

  /** DEP: the first candidate, one or two pairs above the hitting bank's, and which of the pair goes first. */
  function StartOf(hitBank: nat, a: nat, r: nat): (dep: nat)
    requires 1 <= a <= 2 && r <= 1
    ensures Pair(hitBank) < dep / 2
  {
    var x := hitBank - 1 + 2 * a;
    x - x % 2 + r
  }

  function AllocationPass(row: Row, hitBank: nat, a: nat, r: nat, gtag: TagRow, dir: bool): Pass
    requires 1 <= a <= 2 && r <= 1
  {
    Allocate(Pass(row, NNN, 0, []), StartOf(hitBank, a, r), gtag, dir)
  }

  /** One allocation pass of an update. */
  lemma AllocationPassEffect(row: Row, hitBank: nat, a: nat, r: nat, gtag: TagRow, dir: bool)
    requires hitBank <= NHIST && 1 <= a <= 2 && r <= 1
    ensures var p := AllocationPass(row, hitBank, a, r, gtag, dir);
            && |p.taken| <= 2
            && Spaced(p.taken, Pair(hitBank) + 1, NHIST + 2)
            && Retagged(row, p.row, gtag, dir, p.taken)
  {
    var start := StartOf(hitBank, a, r);
    assert Retagged(row, row, gtag, dir, []);
    AllocateEffect(row, Pass(row, NNN, 0, []), start, Pair(hitBank) + 1, gtag, dir);
  }

  // ---------------------------------------------------------------- the rest of an update

  /** What prediction left behind for the update: the two banks and their predictions. */
  datatype Prediction = Prediction(hitBank: nat, altBank: nat, longestMatch: bool, altTaken: bool) {
    /** Without a hit both predictions come from the base predictor. */
    predicate Ok() {
      && hitBank <= NHIST && altBank <= NHIST
      && (hitBank > 0 ==> NoSkip(hitBank))
      && (altBank > 0 ==> NoSkip(altBank) && altBank < hitBank)
      && (hitBank == 0 ==> altBank == 0 && longestMatch == altTaken)
    }

    /** The longest match says what its entry in `row` says. */
    predicate Reads(row: Row)
      requires Ok()
    {
      hitBank > 0 ==> longestMatch == row[hitBank].Predicts()
    }
  }

  function Aged(e: GEntry): GEntry {
    e.(u := e.u / 2)
  }

  /** Ageing halves the useful counters of the tables; entry 0 stands for no table. */
  function Halved(row: Row): Row {
    seq(NHIST + 1, i requires 0 <= i <= NHIST => if i == 0 then row[0] else Aged(row[i]))
  }

  function Counted(e: GEntry, dir: bool): GEntry {
    e.(ctr := CtrUpdate(e.ctr, dir, 4))
  }

  /** The base predictor trains without a hit, or in place of a missing alternate of a weak and wrong hit. */
  predicate BaseMoves(row: Row, p: Prediction, dir: bool)
    requires p.Ok()
  {
    p.altBank == 0 && (p.hitBank == 0 || (row[p.hitBank].Strength() == 1 && p.longestMatch != dir))
  }

  /** The protective update of the alternate entry, made before the hit entry's own counter moves. */
  function AltUpdated(row: Row, p: Prediction, dir: bool): Row
    requires p.Ok()
  {
    if p.hitBank > 0 && row[p.hitBank].Strength() == 1 && p.longestMatch != dir && p.altBank > 0
    then row[p.altBank := Counted(row[p.altBank], dir)] else row
  }

  function HitUpdated(row: Row, p: Prediction, dir: bool): Row
    requires p.Ok()
  {
    if p.hitBank == 0 then row
    else
      var counted := Counted(row[p.hitBank], dir);
      var hit := if counted.Strength() == 1 then counted.(u := 0) else counted;
      var redundant := p.altTaken == dir && p.altBank > 0 && row[p.altBank].Strength() == 7
                       && hit.u == 1 && p.longestMatch == dir;
      row[p.hitBank := if redundant then hit.(u := 0) else hit]
  }

  function UsefulUpdated(row: Row, p: Prediction, dir: bool, increment: nat): Row
    requires p.Ok() && increment <= 126
  {
    if p.longestMatch != p.altTaken && p.longestMatch == dir && row[p.hitBank].u < 1
    then row[p.hitBank := row[p.hitBank].(u := row[p.hitBank].u + 1 + increment)] else row
  }

  /** What an update does to the row after any allocation; `reset` says the useful bits were halved. */
  function Settled(row: Row, p: Prediction, dir: bool, reset: bool, increment: nat): Row
    requires p.Ok() && increment <= 126
  {
    UsefulUpdated(HitUpdated(AltUpdated(if reset then Halved(row) else row, p, dir), p, dir), p, dir, increment)
  }

  lemma SettledKeepsTags(row: Row, p: Prediction, dir: bool, reset: bool, increment: nat, i: nat)
    requires p.Ok() && increment <= 126 && i <= NHIST
    ensures Settled(row, p, dir, reset, increment)[i].tag == row[i].tag
    ensures i != p.hitBank && i != p.altBank ==> Settled(row, p, dir, reset, increment)[i].ctr == row[i].ctr
  {
  }

  /** Rows that agree everywhere but on entry 0. */
  ghost predicate SameBanks(row: Row, other: Row) {
    forall i :: 1 <= i <= NHIST ==> other[i] == row[i]
  }

  /** Lookup depends only on which banks match. */
  lemma {:induction false} SameMatches(row: Row, other: Row, gtag: TagRow, top: nat)
    requires top <= NHIST
    requires forall i :: 1 <= i <= NHIST ==> (Matches(other, gtag, i) <==> Matches(row, gtag, i))
    ensures HighestMatch(other, gtag, top) == HighestMatch(row, gtag, top)
  {
    hide Matches;
    if top > 0 {
      SameMatches(row, other, gtag, top - 1);
    }
  }

  lemma TryIgnoresZero(p: Pass, q: Pass, i: nat, gtag: TagRow, dir: bool)
    requires SameBanks(p.row, q.row) && q.(row := p.row) == p && 1 <= i <= NHIST
    ensures var p', q' := Tried(p, i, gtag, dir), Tried(q, i, gtag, dir);
            SameBanks(p'.row, q'.row) && q'.(row := p'.row) == p' && p'.row[0] == p.row[0]
  {
    hide NoSkip;
  }

  lemma {:induction false} AllocateIgnoresZero(p: Pass, q: Pass, I: nat, gtag: TagRow, dir: bool)
    requires SameBanks(p.row, q.row) && q.(row := p.row) == p
    ensures var p', q' := Allocate(p, I, gtag, dir), Allocate(q, I, gtag, dir);
            SameBanks(p'.row, q'.row) && q'.(row := p'.row) == p' && p'.row[0] == p.row[0]
    decreases NHIST - I
  {
    hide Tried;
    hide SameBanks;
    if I < NHIST {
      TryIgnoresZero(p, q, I + 1, gtag, dir);
      TryIgnoresZero(Tried(p, I + 1, gtag, dir), Tried(q, I + 1, gtag, dir), Partner(I), gtag, dir);
      var p', q' := PairTried(p, I, gtag, dir), PairTried(q, I, gtag, dir);
      AllocateIgnoresZero(p', q', I + 2, gtag, dir);
      if p.left > 0 {
        AllocateIgnoresZero(p'.(left := p.left - 1), q'.(left := q.left - 1), I + 4, gtag, dir);
      }
    }
  }

  lemma SettleIgnoresZero(row: Row, other: Row, p: Prediction, dir: bool, reset: bool, increment: nat)
    requires SameBanks(row, other) && p.Ok() && increment <= 126
    ensures SameBanks(Settled(row, p, dir, reset, increment), Settled(other, p, dir, reset, increment))
    ensures Settled(row, p, dir, reset, increment)[0] == row[0]
  {
    hide Counted;
    hide NoSkip;
  }

  /** Entry 0 stands for no bank at all: lookup, allocation and the rest of an update neither read nor write it. */
  lemma BankZeroUnused(row: Row, other: Row, gtag: TagRow, p: Prediction, a: nat, r: nat, dir: bool, reset: bool,
                       increment: nat)
    requires SameBanks(row, other) && p.Ok() && 1 <= a <= 2 && r <= 1 && increment <= 126
    ensures forall top :: 0 <= top <= NHIST ==> HighestMatch(other, gtag, top) == HighestMatch(row, gtag, top)
    ensures var pass := AllocationPass(row, p.hitBank, a, r, gtag, dir);
            var pass' := AllocationPass(other, p.hitBank, a, r, gtag, dir);
            && pass'.taken == pass.taken && pass'.penalty == pass.penalty
            && SameBanks(pass.row, pass'.row) && pass.row[0] == row[0]
    ensures SameBanks(Settled(row, p, dir, reset, increment), Settled(other, p, dir, reset, increment))
    ensures Settled(row, p, dir, reset, increment)[0] == row[0]
  {
    forall top | 0 <= top <= NHIST
      ensures HighestMatch(other, gtag, top) == HighestMatch(row, gtag, top)
    {
      SameMatches(row, other, gtag, top);
    }
    AllocateIgnoresZero(Pass(row, NNN, 0, []), Pass(other, NNN, 0, []), StartOf(p.hitBank, a, r), gtag, dir);
    SettleIgnoresZero(row, other, p, dir, reset, increment);
  }

  lemma HighestMatchIs(row: Row, gtag: TagRow, b: nat)
    requires b <= NHIST && Matches(row, gtag, b)
    requires forall i :: b < i <= NHIST ==> !Matches(row, gtag, i)
    ensures HighestMatch(row, gtag, NHIST) == b
  {
  }

  /** Without an allocation the next lookup hits the same bank. */
  lemma SettledKeepsLookup(row: Row, p: Prediction, gtag: TagRow, dir: bool, reset: bool, increment: nat)
    requires p.Ok() && increment <= 126 && p.hitBank == HighestMatch(row, gtag, NHIST)
    ensures HighestMatch(Settled(row, p, dir, reset, increment), gtag, NHIST) == p.hitBank
  {
    hide Settled;
    hide NoSkip;
    var after := Settled(row, p, dir, reset, increment);
    forall i | 1 <= i <= NHIST
      ensures Matches(after, gtag, i) <==> Matches(row, gtag, i)
    {
      SettledKeepsTags(row, p, dir, reset, increment, i);
    }
    SameMatches(row, after, gtag, NHIST);
  }

  lemma NothingMatchesAbove(row: Row, pass: Pass, hitBank: nat, gtag: TagRow, dir: bool, top: nat)
    requires hitBank <= NHIST && hitBank == HighestMatch(row, gtag, NHIST)
    requires Retagged(row, pass.row, gtag, dir, pass.taken) && Spaced(pass.taken, Pair(hitBank) + 1, NHIST + 2)
    requires top == if pass.taken == [] then hitBank else pass.taken[|pass.taken| - 1]
    ensures top >= hitBank && top <= NHIST
    ensures forall i :: top < i <= NHIST ==> !Matches(pass.row, gtag, i)
  {
    forall i | top < i <= NHIST
      ensures !Matches(pass.row, gtag, i)
    {
      var last := |pass.taken| - 1;
      forall k | 0 <= k < |pass.taken|
        ensures pass.taken[k] <= top
      {
        assert k < last ==> Pair(pass.taken[k]) + 2 <= Pair(pass.taken[last]);
      }
      assert last >= 0 ==> Pair(hitBank) < Pair(pass.taken[last]);
      assert pass.row[i].tag == row[i].tag && !Matches(row, gtag, i);
    }
    if pass.taken != [] {
      assert Pair(hitBank) < Pair(pass.taken[|pass.taken| - 1]);
    }
  }

  lemma TopMatches(row: Row, pass: Pass, hitBank: nat, gtag: TagRow, dir: bool, top: nat)
    requires 0 < top && hitBank <= NHIST && hitBank == HighestMatch(row, gtag, NHIST)
    requires Retagged(row, pass.row, gtag, dir, pass.taken) && Spaced(pass.taken, Pair(hitBank) + 1, NHIST + 2)
    requires top == if pass.taken == [] then hitBank else pass.taken[|pass.taken| - 1]
    ensures top <= NHIST && Matches(pass.row, gtag, top)
    ensures pass.taken != [] ==> top > hitBank && pass.row[top].Predicts() == dir
  {
  }

  /**
    If an update re-tags any bank, the next lookup of the same branch and history hits the highest of
    them, and its longest-match prediction is the resolved direction.
  */
  lemma AllocateThenLookup(row: Row, p: Prediction, a: nat, r: nat, gtag: TagRow, dir: bool, reset: bool,
                           increment: nat)
    requires 1 <= a <= 2 && r <= 1 && increment <= 126
    requires p.Ok() && p.hitBank == HighestMatch(row, gtag, NHIST)
    ensures var pass := AllocationPass(row, p.hitBank, a, r, gtag, dir);
            var after := Settled(pass.row, p, dir, reset, increment);
            && (pass.taken != [] ==>
                  var top := pass.taken[|pass.taken| - 1];
                  && HighestMatch(after, gtag, NHIST) == top
                  && top > p.hitBank && after[top].Predicts() == dir)
            && (pass.taken == [] ==> HighestMatch(after, gtag, NHIST) == p.hitBank)
  {
    hide Settled;
    hide AllocationPass;
    var pass := AllocationPass(row, p.hitBank, a, r, gtag, dir);
    var after := Settled(pass.row, p, dir, reset, increment);
    AllocationPassEffect(row, p.hitBank, a, r, gtag, dir);
    forall i | 1 <= i <= NHIST
      ensures after[i].tag == pass.row[i].tag
      ensures i != p.hitBank && i != p.altBank ==> after[i].ctr == pass.row[i].ctr
    {
      SettledKeepsTags(pass.row, p, dir, reset, increment, i);
    }
    var top := if pass.taken == [] then p.hitBank else pass.taken[|pass.taken| - 1];
    NothingMatchesAbove(row, pass, p.hitBank, gtag, dir, top);
    forall i | top < i <= NHIST
      ensures !Matches(after, gtag, i)
    {
      assert !Matches(pass.row, gtag, i);
    }
    if top > 0 {
      TopMatches(row, pass, p.hitBank, gtag, dir, top);
      HighestMatchIs(after, gtag, top);
    }
  }
}
