/**
  TAGE as it runs: two physical tables shared by all banks, the base predictor, and the state that a
  prediction leaves for its update. The ensures clauses say what happens to the row of the branch.
*/
module Tage {
  import opened Bits
  import opened Common
  import opened TageHistories
  import opened TageIndexing
  import opened TageLearning
  import opened TageRows

  const BORNTICK: int := 1024
  const SIZEUSEALT: nat := 16

  /** The random choices of one update. */
  datatype Coins = Coins(allocateAnyway: bool, further: bool, second: bool) {
    function Step(): (a: nat)
      ensures 1 <= a <= 2
    {
      if further then 2 else 1
    }

    function Side(): (r: nat)
      ensures r <= 1
    {
      if second then 1 else 0
    }
  }

  type Bit = b: int | 0 <= b <= 1

  type TwoBit = c: int | 0 <= c <= 3

  /** A choice counter, of five bits. */
  type Choice = c: int | -16 <= c < 16

  function BaseStepped(counter: TwoBit, dir: bool): TwoBit {
    if dir then (if counter < 3 then counter + 1 else counter) else (if counter > 0 then counter - 1 else counter)
  }

  /** Every looked-up bank has its own entry in the table of its group. */
  ghost predicate OwnEntries(gi: seq<nat>) {
    && |gi| == NHIST + 1
    && (forall i :: 1 <= i <= NHIST && NoSkip(i) ==> gi[i] < GroupBanks(i) * BANK_ENTRIES)
    && forall i, j :: 1 <= i < j <= NHIST && NoSkip(i) && NoSkip(j) && GroupStart(i) == GroupStart(j) ==> gi[i] != gi[j]
  }

  ghost function RowAt(low: seq<GEntry>, high: seq<GEntry>, gi: seq<nat>): Row
    requires OwnEntries(gi) && |low| == NBANKLOW * BANK_ENTRIES && |high| == NBANKHIGH * BANK_ENTRIES
  {
    seq(NHIST + 1, i requires 0 <= i <= NHIST =>
      if !NoSkip(i) then GEntry(0, 0, 0) else if i < BORN then low[gi[i]] else high[gi[i]])
  }

  /** Some looked-up bank of the low or the high group sits at position `k`. */
  ghost predicate Addresses(gi: seq<nat>, k: int, upper: bool)
    requires |gi| == NHIST + 1
  {
    exists i :: 1 <= i <= NHIST && NoSkip(i) && (i >= BORN) == upper && gi[i] == k
  }

  /** The entries that no looked-up bank addresses are as they were, but for ageing. */
  ghost predicate Spares(gi: seq<nat>, upper: bool, before: seq<GEntry>, after: seq<GEntry>, aged: bool)
    requires |gi| == NHIST + 1
  {
    && |after| == |before|
    && forall k :: 0 <= k < |before| && !Addresses(gi, k, upper) ==>
       after[k] == if aged then Aged(before[k]) else before[k]
  }

  ghost predicate OthersKept(gi: seq<nat>, low: seq<GEntry>, high: seq<GEntry>, low': seq<GEntry>, high': seq<GEntry>,
                             aged: bool)
    requires |gi| == NHIST + 1
  {
    Spares(gi, false, low, low', aged) && Spares(gi, true, high, high', aged)
  }

  lemma KeptThrough(gi: seq<nat>, low: seq<GEntry>, high: seq<GEntry>, l: seq<GEntry>, h: seq<GEntry>,
                    low': seq<GEntry>, high': seq<GEntry>, first: bool, second: bool)
    requires |gi| == NHIST + 1 && !(first && second)
    requires OthersKept(gi, low, high, l, h, first) && OthersKept(gi, l, h, low', high', second)
    ensures OthersKept(gi, low, high, low', high', first || second)
  {
    hide Addresses;
  }

  lemma NothingWritten(gi: seq<nat>, low: seq<GEntry>, high: seq<GEntry>)
    requires |gi| == NHIST + 1
    ensures OthersKept(gi, low, high, low, high, false)
  {
    hide Addresses;
  }

  lemma PositionInTable(pc: nat, h: Hist, lengths: seq<nat>, i: nat)
    requires h.Ok() && NHIST < |h.chI| && |lengths| == |h.chI| && NoSkip(i)
    ensures Position(pc, i, h, lengths) < GroupBanks(i) * BANK_ENTRIES
  {
  }

  lemma PositionsOwnEntries(pc: nat, h: Hist, lengths: seq<nat>, gi: seq<nat>)
    requires h.Ok() && NHIST < |h.chI| && |lengths| == |h.chI| && |gi| == NHIST + 1
    requires forall i :: 1 <= i <= NHIST ==> gi[i] == Position(pc, i, h, lengths)
    ensures OwnEntries(gi)
  {
    hide NoSkip;
    hide Position;
    hide GroupStart;
    hide GroupBanks;
    hide RegistersOk;
    forall i | 1 <= i <= NHIST && NoSkip(i)
      ensures gi[i] < GroupBanks(i) * BANK_ENTRIES
    {
      PositionInTable(pc, h, lengths, i);
    }
    forall i, j | 1 <= i < j <= NHIST && NoSkip(i) && NoSkip(j) && GroupStart(i) == GroupStart(j)
      ensures gi[i] != gi[j]
    {
      EntriesDisjoint(pc, h, lengths, i, j);
    }
  }

  lemma WriteIsRowUpdate(low: seq<GEntry>, high: seq<GEntry>, gi: seq<nat>, i: nat, e: GEntry)
    requires OwnEntries(gi) && |low| == NBANKLOW * BANK_ENTRIES && |high| == NBANKHIGH * BANK_ENTRIES
    requires NoSkip(i)
    ensures i < BORN ==> RowAt(low[gi[i] := e], high, gi) == RowAt(low, high, gi)[i := e]
    ensures i >= BORN ==> RowAt(low, high[gi[i] := e], gi) == RowAt(low, high, gi)[i := e]
  {
  }

  lemma WriteSparesOthers(low: seq<GEntry>, high: seq<GEntry>, gi: seq<nat>, i: nat, e: GEntry)
    requires OwnEntries(gi) && |low| == NBANKLOW * BANK_ENTRIES && |high| == NBANKHIGH * BANK_ENTRIES
    requires NoSkip(i)
    ensures i < BORN ==> OthersKept(gi, low, high, low[gi[i] := e], high, false)
    ensures i >= BORN ==> OthersKept(gi, low, high, low, high[gi[i] := e], false)
  {
    assert 1 <= i <= NHIST;
    hide NoSkip;
    assert Addresses(gi, gi[i], i >= BORN);
    hide Addresses;
  }

  lemma AgeingHalves(low: seq<GEntry>, high: seq<GEntry>, low': seq<GEntry>, high': seq<GEntry>, gi: seq<nat>)
    requires OwnEntries(gi) && |low| == |low'| == NBANKLOW * BANK_ENTRIES
             && |high| == |high'| == NBANKHIGH * BANK_ENTRIES
    requires forall k :: 0 <= k < |low| ==> low'[k] == Aged(low[k])
    requires forall k :: 0 <= k < |high| ==> high'[k] == Aged(high[k])
    ensures RowAt(low', high', gi) == Halved(RowAt(low, high, gi)) && OthersKept(gi, low, high, low', high', true)
  {
    assert !NoSkip(0) && Aged(GEntry(0, 0, 0)) == GEntry(0, 0, 0);
    hide NoSkip;
    hide Addresses;
    hide Aged;
    forall i | 0 <= i <= NHIST
      ensures RowAt(low', high', gi)[i] == Halved(RowAt(low, high, gi))[i]
    {
    }
  }

  /** The value of a base counter, its hysteresis bit shared by four entries. */
  function BaseAt(pred: seq<Bit>, hyst: seq<Bit>, bi: nat): TwoBit
    requires bi < |pred| && bi / 4 < |hyst|
  {
    2 * (pred[bi] as int) + hyst[bi / 4]
  }

  /** INDUSEALT */
  function ChoiceIndex(hitBank: nat, altConf: bool): (i: nat)
    requires hitBank > 0
    ensures i < SIZEUSEALT
  {
    ((hitBank - 1) / 8 * 2 + (if altConf then 1 else 0)) % (SIZEUSEALT - 1)
  }

  /**
    What a lookup finds: the longest and the alternate match, what each predicts, and the choice between them,
    which is the longest match unless that is weak and the alternate has been doing better.
  */
  ghost predicate FoundIn(row: Row, gtag: TagRow, base: TwoBit, useAlt: seq<Choice>, p: Prediction, altConf: bool,
                          tagePred: bool)
    requires |useAlt| == SIZEUSEALT
  {
    && p.Ok()
    && p.hitBank == HighestMatch(row, gtag, NHIST)
    && p.altBank == (if p.hitBank > 0 then HighestMatch(row, gtag, p.hitBank - 1) else 0)
    && p.longestMatch == (if p.hitBank > 0 then row[p.hitBank].Predicts() else base > 1)
    && p.altTaken == (if p.altBank > 0 then row[p.altBank].Predicts() else base > 1)
    && altConf == (if p.altBank > 0 then row[p.altBank].Strength() > 1 else base == 0 || base == 3)
    && tagePred == (if p.hitBank > 0
                       && (row[p.hitBank].Strength() > 1 || useAlt[ChoiceIndex(p.hitBank, altConf)] < 0)
                    then p.longestMatch else p.altTaken)
  }

  /** The longest match was allocated lately and has not proved itself. */
  predicate WeakHit(row: Row, p: Prediction)
    requires p.Ok()
  {
    p.hitBank > 0 && row[p.hitBank].Strength() <= 1
  }

  /** TAGE was wrong, could have looked further back, and the whole prediction was wrong or a coin says so. */
  predicate Allocates(row: Row, p: Prediction, tagePred: bool, dir: bool, predTaken: bool, anyway: bool)
    requires p.Ok()
  {
    && tagePred != dir && p.hitBank < NHIST
    && (predTaken != dir || anyway)
    && !(WeakHit(row, p) && p.longestMatch == dir)
  }

  /** A choice counter learns from a weak longest match that differs from the alternate. */
  predicate ChoiceTrains(row: Row, p: Prediction)
    requires p.Ok()
  {
    WeakHit(row, p) && p.longestMatch != p.altTaken
  }

  /** The choice counters after an update. */
  function ChoiceTrained(useAlt: seq<Choice>, row: Row, p: Prediction, altConf: bool, dir: bool): seq<Choice>
    requires p.Ok() && |useAlt| == SIZEUSEALT
  {
    if ChoiceTrains(row, p) then
      var k := ChoiceIndex(p.hitBank, altConf);
      useAlt[k := CtrUpdate(useAlt[k], p.altTaken == dir, 16)]
    else useAlt
  }

  /** The tick counter follows an allocation, and resets the useful counters when it overflows. */
  ghost predicate Ticks(tick: int, pass: Pass, alloc: bool, reset: bool, tick': int) {
    var ticked := tick + pass.penalty - 2 * |pass.taken|;
    && (reset <==> alloc && ticked >= BORNTICK)
    && tick' == (if !alloc then tick else if reset || ticked < 0 then 0 else ticked)
  }

  /** The row after an update, with or without an allocation. */
  function Trained(row: Row, p: Prediction, gtag: TagRow, dir: bool, alloc: bool, reset: bool, coins: Coins,
                   increment: nat): Row
    requires p.Ok() && increment <= 126
  {
    var grown := if alloc then AllocationPass(row, p.hitBank, coins.Step(), coins.Side(), gtag, dir).row else row;
    Settled(grown, p, dir, reset, increment)
  }

  // ---------------------------------------------------------------- what is learned

  /** An allocation re-tags entries above the hitting one only, so the rest of the update teaches as ever. */
  lemma TrainedTeaches(row: Row, p: Prediction, gtag: TagRow, dir: bool, alloc: bool, reset: bool, coins: Coins,
                       increment: nat)
    requires p.Ok() && increment <= 126 && p.Reads(row)
    ensures Taught(row, p, dir, reset, increment, Trained(row, p, gtag, dir, alloc, reset, coins, increment))
  {
    hide AllocationPass;
    hide Settled;
    hide NoSkip;
    var grown := if alloc then AllocationPass(row, p.hitBank, coins.Step(), coins.Side(), gtag, dir).row else row;
    if alloc {
      PassKeepsLower(row, p.hitBank, coins.Step(), coins.Side(), gtag, dir, p.hitBank);
      PassKeepsLower(row, p.hitBank, coins.Step(), coins.Side(), gtag, dir, p.altBank);
    }
    SettledTeaches(grown, p, dir, reset, increment);
  }

  /** An update allocates exactly when both the prediction of TAGE and its longest match were wrong, and it may. */
  lemma AllocatesIff(row: Row, gtag: TagRow, base: TwoBit, useAlt: seq<Choice>, p: Prediction, altConf: bool,
                     tagePred: bool, dir: bool, predTaken: bool, anyway: bool)
    requires |useAlt| == SIZEUSEALT && FoundIn(row, gtag, base, useAlt, p, altConf, tagePred)
    ensures Allocates(row, p, tagePred, dir, predTaken, anyway)
            <==> tagePred != dir && p.longestMatch != dir && p.hitBank < NHIST && (predTaken != dir || anyway)
  {
    hide HighestMatch;
    hide NoSkip;
  }

  lemma FoundReads(row: Row, gtag: TagRow, base: TwoBit, useAlt: seq<Choice>, p: Prediction, altConf: bool,
                   tagePred: bool)
    requires |useAlt| == SIZEUSEALT && FoundIn(row, gtag, base, useAlt, p, altConf, tagePred)
    ensures p.Ok() && p.Reads(row)
  {
  }

  /** One update of a branch, as far as its row is concerned. */
  datatype Lesson = Lesson(p: Prediction, gtag: TagRow, alloc: bool, reset: bool, coins: Coins, increment: nat)

  /** Updates with outcome `dir` that all hit bank `b`, between which nothing else moves the counter of its entry. */
  ghost predicate Lessons(rows: seq<Row>, ls: seq<Lesson>, b: nat, dir: bool) {
    && |rows| == |ls| + 1 && 0 < b <= NHIST
    && forall k :: 0 <= k < |ls| ==>
         && ls[k].p.Ok() && ls[k].increment <= 126
         && ls[k].p.hitBank == b && ls[k].p.Reads(rows[k])
         && rows[k + 1][b].ctr == Trained(rows[k], ls[k].p, ls[k].gtag, dir, ls[k].alloc, ls[k].reset, ls[k].coins,
                                          ls[k].increment)[b].ctr
  }

  /**
    An entry that keeps being hit counts the outcomes up to its bound: after at most four equal ones it predicts
    them, and it goes on to while they stay equal.
  */
  lemma {:induction false} EntryLearns(rows: seq<Row>, ls: seq<Lesson>, b: nat, dir: bool, n: nat)
    requires Lessons(rows, ls, b, dir) && n <= |ls|
    ensures rows[n][b].ctr == if dir then Min(rows[0][b].ctr + n, 3) else Max(rows[0][b].ctr - n, -4)
    ensures n >= 4 || rows[0][b].Predicts() == dir ==> rows[n][b].Predicts() == dir
  {
    hide Trained;
    if n > 0 {
      EntryLearns(rows, ls, b, dir, n - 1);
      var l := ls[n - 1];
      TrainedTeaches(rows[n - 1], l.p, l.gtag, dir, l.alloc, l.reset, l.coins, l.increment);
    }
  }

  function BaseAfter(c: TwoBit, dir: bool, n: nat): TwoBit {
    if n == 0 then c else BaseStepped(BaseAfter(c, dir, n - 1), dir)
  }

  /** A base counter counts equal outcomes up to its bound, and predicts them from the second on. */
  lemma {:induction false} BaseLearns(c: TwoBit, dir: bool, n: nat)
    ensures BaseAfter(c, dir, n) == if dir then Min(c + n, 3) else Max(c - n, 0)
    ensures n >= 2 ==> (BaseAfter(c, dir, n) > 1 <==> dir)
  {
    if n > 0 {
      BaseLearns(c, dir, n - 1);
    }
  }

  /**
    Of the choice counters exactly the one that the prediction looked at learns, when a weak longest match and the
    alternate disagree: towards the alternate when that was right.
  */
  lemma ChoiceLearns(useAlt: seq<Choice>, row: Row, p: Prediction, altConf: bool, dir: bool, k: nat)
    requires p.Ok() && |useAlt| == SIZEUSEALT && k < SIZEUSEALT
    ensures var after := ChoiceTrained(useAlt, row, p, altConf, dir);
            if p.hitBank > 0 && row[p.hitBank].ctr in {-1, 0} && p.longestMatch != p.altTaken
               && k == ChoiceIndex(p.hitBank, altConf)
            then after[k] == (if p.altTaken == dir then Min((useAlt[k] as int) + 1, 15)
                              else Max((useAlt[k] as int) - 1, -16))
            else after[k] == useAlt[k]
  {
  }

  function ChoiceAfter(c: Choice, right: bool, n: nat): Choice {
    if n == 0 then c else CtrUpdate(ChoiceAfter(c, right, n - 1), right, 16)
  }

  lemma {:induction false} ChoiceCounts(c: Choice, right: bool, n: nat)
    ensures ChoiceAfter(c, right, n) == if right then Min((c as int) + n, 15) else Max((c as int) - n, -16)
  {
    if n > 0 {
      ChoiceCounts(c, right, n - 1);
    }
  }

  /**
    A weak longest match is believed or not as the choice counter has learned: after sixteen updates in which the
    alternate was right TAGE answers with the alternate, and after sixteen in which it was wrong with the longest
    match. A strong longest match is always believed.
  */
  lemma ChoiceFollowsExperience(c: Choice, right: bool, n: nat, row: Row, gtag: TagRow, base: TwoBit,
                                useAlt: seq<Choice>, p: Prediction, altConf: bool, tagePred: bool)
    requires |useAlt| == SIZEUSEALT && FoundIn(row, gtag, base, useAlt, p, altConf, tagePred) && p.hitBank > 0
    ensures row[p.hitBank].ctr !in {-1, 0} ==> tagePred == (row[p.hitBank].ctr >= 0)
    ensures row[p.hitBank].ctr in {-1, 0} && n >= 16
            && useAlt[ChoiceIndex(p.hitBank, altConf)] == ChoiceAfter(c, right, n)
            ==> tagePred == if right then p.altTaken else row[p.hitBank].ctr >= 0
  {
    ChoiceCounts(c, right, n);
    hide HighestMatch;
    hide NoSkip;
  }

  /** Positions and tags of a branch; index 0 stands for no bank. */
  ghost predicate LookedUpAt(pc: nat, h: Hist, lengths: seq<nat>, gi: seq<nat>, gtag: TagRow)
    requires h.Ok() && NHIST < |h.chI| && |lengths| == |h.chI|
  {
    && |gi| == NHIST + 1 && gi[0] == gtag[0] == 0
    && forall i :: 1 <= i <= NHIST ==> gi[i] == Position(pc, i, h, lengths) && gtag[i] == Tag(pc, i, h)
  }

  /** Looking twice with one history is looking at the same entries for the same tags. */
  lemma SameLook(pc: nat, h: Hist, lengths: seq<nat>, gi: seq<nat>, gtag: TagRow, gi': seq<nat>, gtag': TagRow)
    requires h.Ok() && NHIST < |h.chI| && |lengths| == |h.chI|
    requires LookedUpAt(pc, h, lengths, gi, gtag) && LookedUpAt(pc, h, lengths, gi', gtag')
    ensures gi' == gi && gtag' == gtag
  {
    hide Position;
    hide Tag;
  }

  /** The entries that the positions `gi` address. */
  ghost predicate RowIs(low: seq<GEntry>, high: seq<GEntry>, gi: seq<nat>, row: Row) {
    && OwnEntries(gi) && |low| == NBANKLOW * BANK_ENTRIES && |high| == NBANKHIGH * BANK_ENTRIES
    && row == RowAt(low, high, gi)
  }

  /** All that an update can change. */
  datatype Tables = Tables(low: seq<GEntry>, high: seq<GEntry>, basePred: seq<Bit>, baseHyst: seq<Bit>,
                           useAlt: seq<Choice>, tick: int) {
    predicate Ok() {
      && |low| == NBANKLOW * BANK_ENTRIES && |high| == NBANKHIGH * BANK_ENTRIES
      && |basePred| == 8192 && |baseHyst| == 2048 && |useAlt| == SIZEUSEALT
    }
  }

  /** The base counters of other branches are as they were. */
  ghost predicate BaseKept(t: Tables, bi: nat, t': Tables)
    requires t.Ok() && t'.Ok()
  {
    && (forall k :: 0 <= k < |t.basePred| && k != bi ==> t'.basePred[k] == t.basePred[k])
    && forall k :: 0 <= k < |t.baseHyst| && k != bi / 4 ==> t'.baseHyst[k] == t.baseHyst[k]
  }

  /** What a prediction found, and what its update decided. */
  datatype Answer = Answer(p: Prediction, altConf: bool, tagePred: bool, alloc: bool, reset: bool)

  /** What an update is given besides the branch: the recomputed direction, the load flag and the random choices. */
  datatype Circumstance = Circumstance(predTaken: bool, loadDependent: bool, coins: Coins)

  /**
    The tables before and after an update with outcome `dir` of the branch at the positions `gi` and `bi`: it is
    looked up, an entry is allocated exactly when TAGE and its longest match were both wrong and it may be, the
    entries and the base and choice counters learn, and everything else is kept but for ageing.
  */
  ghost predicate Learns(t: Tables, gi: seq<nat>, gtag: TagRow, bi: nat, a: Answer, dir: bool, increment: nat,
                         c: Circumstance, t': Tables)
  {
    && t.Ok() && t'.Ok() && OwnEntries(gi) && bi < 8192 && increment <= 126
    && var row, after := RowAt(t.low, t.high, gi), RowAt(t'.low, t'.high, gi);
    var base, base' := BaseAt(t.basePred, t.baseHyst, bi), BaseAt(t'.basePred, t'.baseHyst, bi);
    var useful := if c.loadDependent then increment else 0;
    && FoundIn(row, gtag, base, t.useAlt, a.p, a.altConf, a.tagePred)
    && (a.alloc <==> a.tagePred != dir && a.p.longestMatch != dir && a.p.hitBank < NHIST
                     && (c.predTaken != dir || c.coins.allocateAnyway))
    && Ticks(t.tick, AllocationPass(row, a.p.hitBank, c.coins.Step(), c.coins.Side(), gtag, dir), a.alloc, a.reset,
             t'.tick)
    && after == Trained(row, a.p, gtag, dir, a.alloc, a.reset, c.coins, useful)
    && Taught(row, a.p, dir, a.reset, useful, after)
    && base' == (if a.p.altBank > 0 || (a.p.hitBank > 0 && !WeakAndWrong(row[a.p.hitBank].ctr, dir)) then base
                 else if dir then Min(base + 1, 3) else Max(base - 1, 0))
    && t'.useAlt == ChoiceTrained(t.useAlt, row, a.p, a.altConf, dir)
    && OthersKept(gi, t.low, t.high, t'.low, t'.high, a.reset) && BaseKept(t, bi, t')
  }

  /** Neither an allocation nor ageing changes whether the base counter trains. */
  lemma BaseMovesAlike(row: Row, p: Prediction, coins: Coins, gtag: TagRow, dir: bool)
    requires p.Ok()
    ensures var grown := AllocationPass(row, p.hitBank, coins.Step(), coins.Side(), gtag, dir).row;
            && (BaseMoves(grown, p, dir) <==> BaseMoves(row, p, dir))
            && (BaseMoves(Halved(grown), p, dir) <==> BaseMoves(row, p, dir))
  {
    hide AllocationPass;
    hide NoSkip;
    PassKeepsLower(row, p.hitBank, coins.Step(), coins.Side(), gtag, dir, p.hitBank);
  }

  /** The parts of an update, each computed by its own step, are one lesson. */
  lemma PartsTeach(t: Tables, gi: seq<nat>, gtag: TagRow, bi: nat, a: Answer, dir: bool, increment: nat,
                   c: Circumstance, t': Tables)
    requires t.Ok() && t'.Ok() && OwnEntries(gi) && bi < 8192 && increment <= 126
    requires var row, base := RowAt(t.low, t.high, gi), BaseAt(t.basePred, t.baseHyst, bi);
             && FoundIn(row, gtag, base, t.useAlt, a.p, a.altConf, a.tagePred)
             && a.alloc == Allocates(row, a.p, a.tagePred, dir, c.predTaken, c.coins.allocateAnyway)
             && Ticks(t.tick, AllocationPass(row, a.p.hitBank, c.coins.Step(), c.coins.Side(), gtag, dir), a.alloc,
                      a.reset, t'.tick)
             && RowAt(t'.low, t'.high, gi)
                == Trained(row, a.p, gtag, dir, a.alloc, a.reset, c.coins, if c.loadDependent then increment else 0)
             && BaseAt(t'.basePred, t'.baseHyst, bi)
                == (if BaseMoves(row, a.p, dir) then BaseStepped(base, dir) else base)
             && t'.useAlt == ChoiceTrained(t.useAlt, row, a.p, a.altConf, dir)
    requires OthersKept(gi, t.low, t.high, t'.low, t'.high, a.reset) && BaseKept(t, bi, t')
    ensures Learns(t, gi, gtag, bi, a, dir, increment, c, t')
  {
    hide OwnEntries;
    hide RowAt;
    hide BaseAt;
    hide Ticks;
    hide Trained;
    hide Taught;
    hide OthersKept;
    hide BaseKept;
    hide ChoiceTrained;
    hide AllocationPass;
    hide NoSkip;
    var row, base := RowAt(t.low, t.high, gi), BaseAt(t.basePred, t.baseHyst, bi);
    var useful := if c.loadDependent then increment else 0;
    FoundReads(row, gtag, base, t.useAlt, a.p, a.altConf, a.tagePred);
    AllocatesIff(row, gtag, base, t.useAlt, a.p, a.altConf, a.tagePred, dir, c.predTaken, c.coins.allocateAnyway);
    hide FoundIn;
    hide Allocates;
    TrainedTeaches(row, a.p, gtag, dir, a.alloc, a.reset, c.coins, useful);
    BaseMovesIff(row, a.p, dir);
    hide BaseMoves;
  }

  class TagePredictor {
    const low: array<GEntry>       // gtable[1] up to gtable[BORN - 1]
    const high: array<GEntry>      // gtable[BORN] and above
    const basePred: array<Bit>     // bimodal prediction bits
    const baseHyst: array<Bit>     // their hysteresis bits, one for four entries
    const useAlt: array<Choice>
    var tick: int
    // set by Tagepred
    var gi: seq<nat>
    var gtag: TagRow
    var bi: nat
    var prediction: Prediction
    var tagePred: bool
    var altConf: bool

    ghost predicate Shape() {
      && low.Length == NBANKLOW * BANK_ENTRIES && high.Length == NBANKHIGH * BANK_ENTRIES
      && low != high && basePred != baseHyst
      && basePred.Length == 8192 && baseHyst.Length == 2048 && useAlt.Length == SIZEUSEALT
    }

    ghost predicate Addressed()
      reads `gi, `bi
    {
      Shape() && bi < basePred.Length && OwnEntries(gi)
    }

    function Entry(i: nat): GEntry
      requires Addressed() && NoSkip(i)
      reads `gi, `bi, low, high
    {
      if i < BORN then low[gi[i]] else high[gi[i]]
    }

    /** The tables as a value. */
    ghost function State(): (t: Tables)
      requires Shape()
      reads `tick, low, high, basePred, baseHyst, useAlt
      ensures t.Ok()
    {
      Tables(low[..], high[..], basePred[..], baseHyst[..], useAlt[..], tick)
    }

    /** The entries that the current branch addresses. */
    ghost function CurrentRow(): Row
      requires Addressed()
      reads `gi, `bi, low, high
    {
      RowAt(low[..], high[..], gi)
    }

    method SetEntry(i: nat, e: GEntry)
      requires Addressed() && NoSkip(i)
      modifies low, high
      ensures CurrentRow() == old(CurrentRow())[i := e]
      ensures OthersKept(gi, old(low[..]), old(high[..]), low[..], high[..], false)
    {
      ghost var l, h := low[..], high[..];
      WriteIsRowUpdate(l, h, gi, i, e);
      WriteSparesOthers(l, h, gi, i, e);
      assert 1 <= i <= NHIST;
      hide NoSkip;
      if i < BORN {
        low[gi[i]] := e;
        assert low[..] == l[gi[i] := e] && high[..] == h;
      } else {
        high[gi[i]] := e;
        assert high[..] == h[gi[i] := e] && low[..] == l;
      }
    }

    constructor ()
      ensures Shape() && fresh(low) && fresh(high) && fresh(basePred) && fresh(baseHyst) && fresh(useAlt)
    {
      low := new GEntry[NBANKLOW * BANK_ENTRIES](i => GEntry(0, 0, 0));
      high := new GEntry[NBANKHIGH * BANK_ENTRIES](i => GEntry(0, 0, 0));
      basePred, baseHyst, useAlt := new Bit[8192](i => 0), new Bit[2048](i => 1), new Choice[SIZEUSEALT](i => 0);
      tick, bi, gi, gtag := 0, 0, [], seq(NHIST + 1, i => 0);
      prediction, tagePred, altConf := Prediction(0, 0, false, false), false, false;
    }

    // -------------------------------------------------------------- lookup

    function BasePrediction(): bool
      requires Shape() && bi < basePred.Length
      reads this, basePred
    {
      basePred[bi] > 0
    }

    lemma RowHolds(i: nat)
      requires Addressed() && NoSkip(i)
      ensures i <= NHIST && CurrentRow()[i] == Entry(i)
    {
    }

    lemma HitHolds()
      requires Addressed() && prediction.Ok()
      ensures prediction.hitBank > 0 ==> CurrentRow()[prediction.hitBank] == Entry(prediction.hitBank)
    {
    }

    method LongestMatch(top: nat) returns (b: nat)
      requires Addressed() && top <= NHIST
      ensures b == HighestMatch(CurrentRow(), gtag, top)
    {
      hide NoSkip;
      ghost var row := CurrentRow();
      b := top;
      while b > 0
        invariant b <= top
        invariant HighestMatch(row, gtag, top) == HighestMatch(row, gtag, b)
      {
        if NoSkip(b) {
          RowHolds(b);
          if Entry(b).tag == gtag[b] {
            return;
          }
        }
        b := b - 1;
      }
    }

    /** The two-bit value of the branch's base counter, hysteresis shared by four entries. */
    function BaseCounter(): TwoBit
      requires Shape() && bi < basePred.Length
      reads `bi, basePred, baseHyst
    {
      BaseAt(basePred[..], baseHyst[..], bi)
    }

    function BaseConfident(): bool
      requires Shape() && bi < basePred.Length
      reads this, basePred, baseHyst
    {
      BaseCounter() == 0 || BaseCounter() == 3
    }

    method Address(pc: nat, h: Hist, lengths: seq<nat>)
      requires Shape() && h.Ok() && NHIST < |h.chI| && |lengths| == |h.chI|
      modifies this`gi, this`gtag, this`bi
      ensures Addressed()
      ensures LookedUpAt(pc, h, lengths, gi, gtag)
      ensures bi == Low(Bits.Xor(pc, Shr(pc, 2)), LOGB)
    {
      hide NoSkip;
      hide Position;
      hide Tag;
      hide Low;
      var positions, tags := ComputePositions(pc, h, lengths);
      gi, gtag := positions[..], tags[..];
      bi := Low(Bits.Xor(pc, Shr(pc, 2)), LOGB);
      assert Pow2(LOGB) == 8192 by {
        BankSize();
      }
      PositionsOwnEntries(pc, h, lengths, gi);
    }

    /** The longest and the alternate match, and what each predicts. */
    method FindMatches()
      requires Addressed()
      modifies this`prediction, this`altConf
      ensures Addressed() && prediction.Ok()
      ensures var row := CurrentRow();
              && prediction.hitBank == HighestMatch(row, gtag, NHIST)
              && prediction.altBank
                 == (if prediction.hitBank > 0 then HighestMatch(row, gtag, prediction.hitBank - 1) else 0)
              && prediction.longestMatch
                 == (if prediction.hitBank > 0 then row[prediction.hitBank].Predicts() else BasePrediction())
              && prediction.altTaken
                 == (if prediction.altBank > 0 then row[prediction.altBank].Predicts() else BasePrediction())
              && altConf == (if prediction.altBank > 0 then row[prediction.altBank].Strength() > 1 else BaseConfident())
    {
      hide NoSkip;
      hide GEntry.Predicts;
      hide GEntry.Strength;
      hide BaseAt;
      ghost var row := CurrentRow();
      var base := BasePrediction();
      altConf := BaseConfident();
      var hit := LongestMatch(NHIST);
      if hit == 0 {
        prediction := Prediction(0, 0, base, base);
        return;
      }
      assert Matches(row, gtag, hit);
      RowHolds(hit);
      var alt := LongestMatch(hit - 1);
      var altTaken := base;
      if alt > 0 {
        assert Matches(row, gtag, alt);
        RowHolds(alt);
        altTaken := Entry(alt).Predicts();
        altConf := Entry(alt).Strength() > 1;
      }
      prediction := Prediction(hit, alt, Entry(hit).Predicts(), altTaken);
    }

    /** USE_ALT_ON_NA: the longest match, unless it is weak and the alternate has been doing better. */
    method Choose()
      requires Addressed() && prediction.Ok()
      modifies this`tagePred
      ensures var row := CurrentRow();
              tagePred == (if prediction.hitBank > 0
                              && (row[prediction.hitBank].Strength() > 1
                                 || useAlt[ChoiceIndex(prediction.hitBank, altConf)] < 0)
                           then prediction.longestMatch else prediction.altTaken)
    {
      hide NoSkip;
      hide RowAt;
      tagePred := prediction.altTaken;
      if prediction.hitBank > 0 {
        RowHolds(prediction.hitBank);
        if useAlt[ChoiceIndex(prediction.hitBank, altConf)] < 0 || Entry(prediction.hitBank).Strength() > 1 {
          tagePred := prediction.longestMatch;
        }
      }
    }

    /** Computes the positions and tags of a branch and looks up its longest and alternate matches. */
    method Tagepred(pc: nat, h: Hist, lengths: seq<nat>)
      requires Shape() && h.Ok() && NHIST < |h.chI| && |lengths| == |h.chI|
      modifies this`gi, this`gtag, this`bi, this`prediction, this`tagePred, this`altConf
      ensures Addressed() && prediction.Ok()
      ensures LookedUpAt(pc, h, lengths, gi, gtag)
      ensures bi == Low(Bits.Xor(pc, Shr(pc, 2)), LOGB)
      ensures FoundIn(CurrentRow(), gtag, BaseCounter(), useAlt[..], prediction, altConf, tagePred)
    {
      hide NoSkip;
      hide HighestMatch;
      hide LookedUpAt;
      hide Low;
      hide Shr;
      hide Bits.Xor;
      hide RowAt;
      hide OwnEntries;
      hide RegistersOk;
      hide GEntry.Predicts;
      hide GEntry.Strength;
      Address(pc, h, lengths);
      FindMatches();
      Choose();
    }

    // -------------------------------------------------------------- update

    /** One candidate of the allocation loop. */
    method TryBank(i: nat, dir: bool, ghost p: Pass) returns (taken: bool, penalty: nat)
      requires Addressed() && i <= NHIST && p.row == CurrentRow()
      modifies low, high
      ensures var q := Tried(p, i, gtag, dir);
              CurrentRow() == q.row && taken == (|q.taken| > |p.taken|) && p.penalty + penalty == q.penalty
      ensures OthersKept(gi, old(low[..]), old(high[..]), low[..], high[..], false)
    {
      hide NoSkip;
      hide OthersKept;
      NothingWritten(gi, low[..], high[..]);
      taken, penalty := false, 0;
      if NoSkip(i) {
        RowHolds(i);
        var e := Entry(i);
        if e.u == 0 {
          if e.Strength() <= 3 {
            SetEntry(i, GEntry(if dir then 0 else -1, gtag[i], e.u));
            taken := true;
          } else {
            SetEntry(i, if e.ctr > 0 then e.(ctr := e.ctr - 1) else e.(ctr := e.ctr + 1));
          }
        } else {
          penalty := 1;
        }
      }
    }

    /** Both banks of a pair, as the loop body does. */
    method TryPair(I: nat, dir: bool, ghost p: Pass) returns (taken: bool, penalty: nat, ghost q: Pass)
      requires Addressed() && I < NHIST && p.row == CurrentRow()
      modifies low, high
      ensures q == PairTried(p, I, gtag, dir) && CurrentRow() == q.row
      ensures taken == (|q.taken| > |p.taken|) && p.penalty + penalty == q.penalty
      ensures |q.taken| == |p.taken| + (if taken then 1 else 0) && q.left == p.left
      ensures OthersKept(gi, old(low[..]), old(high[..]), low[..], high[..], false)
    {
      hide NoSkip;
      hide RowAt;
      hide OthersKept;
      ghost var l0, h0 := low[..], high[..];
      taken, penalty := TryBank(I + 1, dir, p);
      q := Tried(p, I + 1, gtag, dir);
      if !taken {
        var more;
        ghost var l, h := low[..], high[..];
        taken, more := TryBank(if I % 2 == 0 then I + 2 else I, dir, q);
        KeptThrough(gi, l0, h0, l, h, low[..], high[..], false, false);
        q := Tried(q, Partner(I), gtag, dir);
        penalty := penalty + more;
      }
    }

    /** The allocation loop: at most NNN + 1 re-tagged banks. */
    method AllocateEntries(dir: bool, a: nat, r: nat)
      requires Addressed() && prediction.Ok() && 1 <= a <= 2 && r <= 1
      modifies low, high, this`tick
      ensures var p := AllocationPass(old(CurrentRow()), prediction.hitBank, a, r, gtag, dir);
              CurrentRow() == p.row && tick == old(tick) + p.penalty - 2 * |p.taken|
      ensures OthersKept(gi, old(low[..]), old(high[..]), low[..], high[..], false)
    {
      hide PairTried;
      hide OthersKept;
      hide RowAt;
      ghost var l0, h0 := low[..], high[..];
      NothingWritten(gi, l0, h0);
      var T, penalty: int, na: int := NNN, 0, 0;
      var I := StartOf(prediction.hitBank, a, r);
      ghost var start, p0 := I, Pass(CurrentRow(), NNN, 0, []);
      ghost var p := p0;
      var going := true;
      while going && I < NHIST
        invariant tick == old(tick)
        invariant OthersKept(gi, l0, h0, low[..], high[..], false)
        invariant p.row == CurrentRow() && p.left == T && p.penalty == penalty && |p.taken| == na
        invariant Allocate(p0, start, gtag, dir) == if going then Allocate(p, I, gtag, dir) else p
        decreases going, NHIST - I
      {
        var taken, more;
        ghost var q;
        ghost var l, h := low[..], high[..];
        taken, more, q := TryPair(I, dir, p);
        KeptThrough(gi, l0, h0, l, h, low[..], high[..], false, false);
        penalty := penalty + more;
        if taken {
          na := na + 1;
          if T <= 0 {
            going := false;
          } else {
            I := I + 2;
            T := T - 1;
            q := q.(left := T);
          }
        }
        p := q;
        if going {
          I := I + 2;
        }
      }
      tick := tick + (penalty - 2 * na);
    }

    /** Halves every useful counter of one physical table. */
    method HalveUseful(table: array<GEntry>)
      modifies table
      ensures forall k :: 0 <= k < table.Length ==> table[k] == Aged(old(table[k]))
    {
      var j := 0;
      while j < table.Length
        invariant j <= table.Length
        invariant forall k :: 0 <= k < table.Length ==>
                    table[k] == if k < j then Aged(old(table[k])) else old(table[k])
      {
        table[j] := table[j].(u := table[j].u / 2);
        j := j + 1;
      }
    }

    /** The TICK counter stays in range and resets the useful counters when it overflows. */
    method AgeUseful() returns (reset: bool)
      requires Addressed()
      modifies low, high, this`tick
      ensures 0 <= tick < BORNTICK && tick == if reset || old(tick) < 0 then 0 else old(tick)
      ensures reset <==> old(tick) >= BORNTICK
      ensures CurrentRow() == if reset then Halved(old(CurrentRow())) else old(CurrentRow())
      ensures OthersKept(gi, old(low[..]), old(high[..]), low[..], high[..], reset)
    {
      hide NoSkip;
      hide RowAt;
      hide OthersKept;
      hide Aged;
      ghost var l, h := low[..], high[..];
      NothingWritten(gi, l, h);
      reset := false;
      if tick < 0 {
        tick := 0;
      }
      if tick >= BORNTICK {
        HalveUseful(low);
        HalveUseful(high);
        AgeingHalves(l, h, low[..], high[..], gi);
        tick := 0;
        reset := true;
      }
    }

    method BaseUpdate(dir: bool)
      requires Addressed()
      modifies basePred, baseHyst
      ensures BaseCounter() == BaseStepped(old(BaseCounter()), dir)
      ensures BaseKept(old(State()), bi, State())
    {
      var inter: int := BaseCounter();
      if dir {
        if inter < 3 {
          inter := inter + 1;
        }
      } else if inter > 0 {
        inter := inter - 1;
      }
      basePred[bi], baseHyst[bi / 4] := inter / 2, inter % 2;
    }

    method UpdateHit(dir: bool)
      requires Addressed() && prediction.Ok() && prediction.hitBank > 0
      modifies low, high
      ensures CurrentRow() == HitUpdated(old(CurrentRow()), prediction, dir)
      ensures OthersKept(gi, old(low[..]), old(high[..]), low[..], high[..], false)
    {
      hide OthersKept;
      hide NoSkip;
      var hit, alt := prediction.hitBank, prediction.altBank;
      RowHolds(hit);
      if alt > 0 {
        RowHolds(alt);
      }
      var e := Counted(Entry(hit), dir);
      if e.Strength() == 1 {
        e := e.(u := 0);
      }
      if prediction.altTaken == dir && alt > 0 && Entry(alt).Strength() == 7 && e.u == 1
          && prediction.longestMatch == dir {
        e := e.(u := 0);
      }
      SetEntry(hit, e);
    }

    /** The counters of the alternate and hitting entries. */
    method UpdateCounters(dir: bool)
      requires Addressed() && prediction.Ok()
      modifies low, high, basePred, baseHyst
      ensures CurrentRow() == HitUpdated(AltUpdated(old(CurrentRow()), prediction, dir), prediction, dir)
      ensures var row := old(CurrentRow());
              BaseCounter() == if BaseMoves(row, prediction, dir)
                               then BaseStepped(old(BaseCounter()), dir) else old(BaseCounter())
      ensures BaseKept(old(State()), bi, State())
      ensures OthersKept(gi, old(low[..]), old(high[..]), low[..], high[..], false)
    {
      hide NoSkip;
      hide OthersKept;
      ghost var l0, h0 := low[..], high[..];
      NothingWritten(gi, l0, h0);
      var hit, alt := prediction.hitBank, prediction.altBank;
      if hit == 0 {
        BaseUpdate(dir);
        return;
      }
      RowHolds(hit);
      if alt > 0 {
        RowHolds(alt);
      }
      if Entry(hit).Strength() == 1 && prediction.longestMatch != dir {
        if alt > 0 {
          SetEntry(alt, Counted(Entry(alt), dir));
        } else {
          BaseUpdate(dir);
        }
      }
      ghost var l, h := low[..], high[..];
      UpdateHit(dir);
      KeptThrough(gi, l0, h0, l, h, low[..], high[..], false, false);
    }

    method UpdateUseful(dir: bool, increment: nat)
      requires Addressed() && prediction.Ok() && increment <= 126
      modifies low, high
      ensures CurrentRow() == UsefulUpdated(old(CurrentRow()), prediction, dir, increment)
      ensures OthersKept(gi, old(low[..]), old(high[..]), low[..], high[..], false)
    {
      hide OthersKept;
      NothingWritten(gi, low[..], high[..]);
      hide NoSkip;
      if prediction.longestMatch != prediction.altTaken && prediction.longestMatch == dir {
        var e := Entry(prediction.hitBank);
        RowHolds(prediction.hitBank);
        if e.u < 1 {
          SetEntry(prediction.hitBank, e.(u := e.u + 1 + increment));
        }
      }
    }

    /** Whether to allocate, and the training of the choice between the two matches. */
    method DecideAllocation(dir: bool, predTaken: bool, coins: Coins) returns (alloc: bool)
      requires Addressed() && prediction.Ok()
      modifies useAlt
      ensures alloc == Allocates(CurrentRow(), prediction, tagePred, dir, predTaken, coins.allocateAnyway)
      ensures useAlt[..] == ChoiceTrained(old(useAlt[..]), CurrentRow(), prediction, altConf, dir)
    {
      HitHolds();
      alloc := tagePred != dir && prediction.hitBank < NHIST;
      if prediction.hitBank > 0 {
        var pseudoNewAlloc := Entry(prediction.hitBank).Strength() <= 1;
        if pseudoNewAlloc {
          if prediction.longestMatch == dir {
            alloc := false;
          }
          if prediction.longestMatch != prediction.altTaken {
            var k := ChoiceIndex(prediction.hitBank, altConf);
            useAlt[k] := CtrUpdate(useAlt[k], prediction.altTaken == dir, 16);
          }
        }
      }
      if predTaken == dir && !coins.allocateAnyway {
        alloc := false;
      }
    }

    /** The allocation, and the ageing it may bring. */
    method DecideAndAllocate(dir: bool, predTaken: bool, coins: Coins) returns (alloc: bool, ghost reset: bool)
      requires Addressed() && prediction.Ok()
      modifies low, high, useAlt, this`tick
      ensures alloc == Allocates(old(CurrentRow()), prediction, tagePred, dir, predTaken, coins.allocateAnyway)
      ensures var row := old(CurrentRow());
              var pass := AllocationPass(row, prediction.hitBank, coins.Step(), coins.Side(), gtag, dir);
              var grown := if alloc then pass.row else row;
              && Ticks(old(tick), pass, alloc, reset, tick)
              && CurrentRow() == if reset then Halved(grown) else grown
      ensures OthersKept(gi, old(low[..]), old(high[..]), low[..], high[..], reset)
      ensures useAlt[..] == ChoiceTrained(old(useAlt[..]), old(CurrentRow()), prediction, altConf, dir)
    {
      hide NoSkip;
      hide AllocationPass;
      hide OthersKept;
      hide RowAt;
      ghost var l0, h0 := low[..], high[..];
      NothingWritten(gi, l0, h0);
      HitHolds();
      reset := false;
      alloc := DecideAllocation(dir, predTaken, coins);
      if alloc {
        AllocateEntries(dir, coins.Step(), coins.Side());
        ghost var l, h := low[..], high[..];
        reset := AgeUseful();
        KeptThrough(gi, l0, h0, l, h, low[..], high[..], false, reset);
      }
    }

    /** The TAGE part of `update`. */
    method Update(dir: bool, predTaken: bool, loadDependent: bool, uIncrement: nat, coins: Coins)
      returns (alloc: bool, ghost reset: bool)
      requires Addressed() && prediction.Ok() && uIncrement <= 126
      modifies low, high, basePred, baseHyst, useAlt, this`tick
      ensures Addressed()
      ensures alloc == Allocates(old(CurrentRow()), prediction, tagePred, dir, predTaken, coins.allocateAnyway)
      ensures var row := old(CurrentRow());
              && Ticks(old(tick), AllocationPass(row, prediction.hitBank, coins.Step(), coins.Side(), gtag, dir), alloc,
                       reset, tick)
              && CurrentRow() == Trained(row, prediction, gtag, dir, alloc, reset, coins,
                                         if loadDependent then uIncrement else 0)
              && BaseCounter() == (if BaseMoves(row, prediction, dir)
                                   then BaseStepped(old(BaseCounter()), dir) else old(BaseCounter()))
      ensures OthersKept(gi, old(low[..]), old(high[..]), low[..], high[..], reset)
              && BaseKept(old(State()), bi, State())
      ensures useAlt[..] == ChoiceTrained(old(useAlt[..]), old(CurrentRow()), prediction, altConf, dir)
    {
      hide NoSkip;
      hide AllocationPass;
      hide OthersKept;
      hide RowAt;
      hide BaseMoves;
      hide BaseStepped;
      hide BaseAt;
      ghost var l0, h0 := low[..], high[..];
      BaseMovesAlike(CurrentRow(), prediction, coins, gtag, dir);
      alloc, reset := DecideAndAllocate(dir, predTaken, coins);
      ghost var l, h := low[..], high[..];
      UpdateCounters(dir);
      ghost var l', h' := low[..], high[..];
      KeptThrough(gi, l0, h0, l, h, l', h', reset, false);
      UpdateUseful(dir, if loadDependent then uIncrement else 0);
      KeptThrough(gi, l0, h0, l', h', low[..], high[..], reset, false);
    }

    /**
      Predicting a branch, updating with its outcome and predicting it again with the same history: when
      the update re-tagged any bank, the second lookup hits the highest of them, and it predicts the outcome.
    */
    method LearnThenLookUp(pc: nat, h: Hist, lengths: seq<nat>, dir: bool, predTaken: bool, loadDependent: bool,
                           uIncrement: nat, coins: Coins)
      returns (alloc: bool, ghost row: Row, ghost first: nat)
      requires Shape() && h.Ok() && NHIST < |h.chI| && |lengths| == |h.chI| && uIncrement <= 126
      modifies this, low, high, basePred, baseHyst, useAlt
      ensures Addressed() && prediction.Ok() && LookedUpAt(pc, h, lengths, gi, gtag)
      ensures RowIs(old(low[..]), old(high[..]), gi, row) && first == HighestMatch(row, gtag, NHIST)
      ensures var taken := AllocationPass(row, first, coins.Step(), coins.Side(), gtag, dir).taken;
              if alloc && taken != []
              then prediction.hitBank == taken[|taken| - 1] > first && prediction.longestMatch == dir
              else prediction.hitBank == first
    {
      hide NoSkip;
      hide HighestMatch;
      hide LookedUpAt;
      hide Low;
      hide Shr;
      hide Bits.Xor;
      hide RowAt;
      hide RegistersOk;
      hide GEntry.Predicts;
      hide GEntry.Strength;
      hide AllocationPass;
      hide Settled;
      hide OthersKept;
      Tagepred(pc, h, lengths);
      row, first := CurrentRow(), prediction.hitBank;
      ghost var gi0, gtag0, p0 := gi, gtag, prediction;
      ghost var reset;
      alloc, reset := Update(dir, predTaken, loadDependent, uIncrement, coins);
      var increment := if loadDependent then uIncrement else 0;
      if alloc {
        AllocateThenLookup(row, p0, coins.Step(), coins.Side(), gtag0, dir, reset, increment);
      } else {
        SettledKeepsLookup(row, p0, gtag0, dir, reset, increment);
      }
      Tagepred(pc, h, lengths);
      SameLook(pc, h, lengths, gi0, gtag0, gi, gtag);
    }
  }
}
