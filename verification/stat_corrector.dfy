/**
  The statistical corrector: components that each add up the counters a branch selects, doubled when
  their weight counter is non-negative, and the training of those weights.
*/
module StatCorrectors {
  import opened Common

  const LIMIT: int := 32    // both the counters (PERCWIDTH) and the weights (EWIDTH) have 6 bits

  type SixBit = c: int | -LIMIT <= c < LIMIT

  /** What one branch selects in one component: a counter of each table, and a weight. */
  datatype Selection = Selection(counters: seq<SixBit>, weight: SixBit) {
    function PartialSum(): int {
      SumOf(counters)
    }

    /** The partial sum counts twice when the weight is non-negative. */
    function Contribution(): int {
      if weight >= 0 then 2 * PartialSum() else PartialSum()
    }

    /** The component after training with the prediction's total `lsum`. */
    function Trained(lsum: int, taken: bool): Selection {
      var xsum := lsum - (if weight >= 0 then PartialSum() else 0);
      Selection(seq(|counters|, i requires 0 <= i < |counters| => CtrUpdate(counters[i], taken, LIMIT)),
                if (xsum + PartialSum() >= 0) != (xsum >= 0)
                then CtrUpdate(weight, (PartialSum() >= 0) == taken, LIMIT) else weight)
    }
  }

  function SumOf(counters: seq<int>): int {
    if counters == [] then 0 else SumOf(counters[..|counters| - 1]) + (2 * counters[|counters| - 1] + 1)
  }

  /** LSUM */
  function Total(cs: seq<Selection>): int {
    if cs == [] then 0 else Total(cs[..|cs| - 1]) + cs[|cs| - 1].Contribution()
  }

  /** The total recomputed with component `k` counted once, or twice. */
  function TotalWith(cs: seq<Selection>, k: nat, twice: bool): int {
    if cs == [] then 0
    else
      var n := |cs| - 1;
      TotalWith(cs[..n], k, twice)
      + (if k != n then cs[n].Contribution() else if twice then 2 * cs[n].PartialSum() else cs[n].PartialSum())
  }

  /** The total with one component counted once is what `Gupdate` calls XSUM. */
  lemma {:induction false} TotalWithOnce(cs: seq<Selection>, k: nat)
    ensures TotalWith(cs, k, false) == Total(cs) - (if k < |cs| && cs[k].weight >= 0 then cs[k].PartialSum() else 0)
    ensures TotalWith(cs, k, true) == TotalWith(cs, k, false) + (if k < |cs| then cs[k].PartialSum() else 0)
  {
    if cs != [] {
      TotalWithOnce(cs[..|cs| - 1], k);
    }
  }

  /**
    A weight moves only when counting its component twice instead of once would flip the sign of the
    whole prediction, and then towards the choice whose sign was right.
  */
  lemma WeightTrainsOnSignFlip(cs: seq<Selection>, k: nat, taken: bool)
    requires k < |cs|
    ensures var once, twice := TotalWith(cs, k, false) >= 0, TotalWith(cs, k, true) >= 0;
            var before, after := cs[k].weight, cs[k].Trained(Total(cs), taken).weight;
            && (once == twice ==> after == before)
            && (once != twice && twice == taken ==> after == Min(before + 1, LIMIT - 1))
            && (once != twice && once == taken ==> after == Max(before - 1, -LIMIT))
  {
    TotalWithOnce(cs, k);
  }

  /** One step of a six-bit counter towards an outcome. */
  function Towards(c: SixBit, taken: bool): SixBit {
    if taken then Min(c + 1, LIMIT - 1) else Max(c - 1, -LIMIT)
  }

  lemma {:induction false} SumFollows(a: seq<SixBit>, b: seq<SixBit>, up: bool)
    requires |a| == |b| && forall i :: 0 <= i < |a| ==> if up then a[i] <= b[i] else b[i] <= a[i]
    ensures if up then SumOf(a) <= SumOf(b) else SumOf(b) <= SumOf(a)
  {
    if a != [] {
      SumFollows(a[..|a| - 1], b[..|b| - 1], up);
    }
  }

  /** Training moves every selected counter one step towards the outcome, and with them the component's sum. */
  lemma CountersTrain(s: Selection, lsum: int, taken: bool)
    ensures var after := s.Trained(lsum, taken);
            && |after.counters| == |s.counters|
            && (forall i :: 0 <= i < |s.counters| ==> after.counters[i] == Towards(s.counters[i], taken))
            && (taken ==> after.PartialSum() >= s.PartialSum()) && (!taken ==> after.PartialSum() <= s.PartialSum())
  {
    SumFollows(s.counters, s.Trained(lsum, taken).counters, taken);
  }

  /** The components after `n` trainings of one selection with the same outcome. */
  function TrainedTimes(cs: seq<Selection>, taken: bool, n: nat): (r: seq<Selection>)
    ensures |r| == |cs|
  {
    if n == 0 then cs
    else
      var before := TrainedTimes(cs, taken, n - 1);
      seq(|cs|, k requires 0 <= k < |cs| => before[k].Trained(Total(before), taken))
  }

  lemma {:induction false} CountersAfter(cs: seq<Selection>, taken: bool, n: nat, k: nat)
    requires k < |cs|
    ensures var after := TrainedTimes(cs, taken, n)[k].counters;
            && |after| == |cs[k].counters|
            && forall i :: 0 <= i < |after| ==>
                 after[i] == if taken then Min((cs[k].counters[i] as int) + n, LIMIT - 1)
                             else Max((cs[k].counters[i] as int) - n, -LIMIT)
  {
    if n > 0 {
      CountersAfter(cs, taken, n - 1, k);
      var before := TrainedTimes(cs, taken, n - 1);
      CountersTrain(before[k], Total(before), taken);
      hide Selection.Trained;
    }
  }

  lemma {:induction false} SumOfSame(counters: seq<SixBit>, c: SixBit)
    requires forall i :: 0 <= i < |counters| ==> counters[i] == c
    ensures SumOf(counters) == (2 * (c as int) + 1) * |counters|
  {
    if counters != [] {
      SumOfSame(counters[..|counters| - 1], c);
    }
  }

  function CounterCount(cs: seq<Selection>): nat {
    if cs == [] then 0 else CounterCount(cs[..|cs| - 1]) + |cs[|cs| - 1].counters|
  }

  lemma {:induction false} TotalHasSign(cs: seq<Selection>, taken: bool)
    requires forall k :: 0 <= k < |cs| ==>
               forall i :: 0 <= i < |cs[k].counters| ==> cs[k].counters[i] == if taken then LIMIT - 1 else -LIMIT
    ensures taken ==> Total(cs) >= 63 * CounterCount(cs)
    ensures !taken ==> Total(cs) <= -63 * CounterCount(cs)
  {
    if cs != [] {
      TotalHasSign(cs[..|cs| - 1], taken);
      SumOfSame(cs[|cs| - 1].counters, if taken then LIMIT - 1 else -LIMIT);
    }
  }

  lemma {:induction false} SameCount(cs: seq<Selection>, ds: seq<Selection>)
    requires |cs| == |ds| && forall k :: 0 <= k < |cs| ==> |cs[k].counters| == |ds[k].counters|
    ensures CounterCount(cs) == CounterCount(ds)
  {
    if cs != [] {
      SameCount(cs[..|cs| - 1], ds[..|ds| - 1]);
    }
  }

  /**
    The corrector learns: after 63 trainings of one selection with the same outcome, whatever it held before, its
    total has the sign of that outcome.
  */
  lemma CorrectorLearns(cs: seq<Selection>, taken: bool, n: nat)
    requires n >= 63 && CounterCount(cs) > 0
    ensures Total(TrainedTimes(cs, taken, n)) >= 0 <==> taken
  {
    var after := TrainedTimes(cs, taken, n);
    forall k | 0 <= k < |after|
      ensures |after[k].counters| == |cs[k].counters|
      ensures forall i :: 0 <= i < |after[k].counters| ==> after[k].counters[i] == if taken then LIMIT - 1 else -LIMIT
    {
      CountersAfter(cs, taken, n, k);
    }
    SameCount(cs, after);
    TotalHasSign(after, taken);
  }

  lemma {:induction false} SumBounded(counters: seq<SixBit>)
    ensures Abs(SumOf(counters)) <= 63 * |counters|
  {
    if counters != [] {
      SumBounded(counters[..|counters| - 1]);
    }
  }

  /** |LSUM| is at most 126 per counter; with the predictor's twenty counters, 2520. */
  lemma {:induction false} TotalBounded(cs: seq<Selection>)
    ensures Abs(Total(cs)) <= 126 * CounterCount(cs)
    ensures CounterCount(cs) == 20 ==> Abs(Total(cs)) <= 2520
  {
    if cs != [] {
      TotalBounded(cs[..|cs| - 1]);
      SumBounded(cs[|cs| - 1].counters);
    }
  }

  // ---------------------------------------------------------------- the components in place

  /** One component: the bias tables, or one of the GEHL groups. */
  class Component {
    const tabs: seq<array<SixBit>>
    const weights: array<SixBit>

    constructor (tabs: seq<array<SixBit>>, weights: array<SixBit>)
      ensures this.tabs == tabs && this.weights == weights
    {
      this.tabs, this.weights := tabs, weights;
    }

    ghost function Arrays(): set<object> {
      (set i | 0 <= i < |tabs| :: tabs[i] as object) + {weights}
    }

    ghost predicate Valid() {
      && (forall i, j :: 0 <= i < j < |tabs| ==> tabs[i] != tabs[j])
      && forall i :: 0 <= i < |tabs| ==> tabs[i] != weights
    }

    /** `index` selects a counter in each table, `w` a weight. */
    ghost predicate InRange(index: seq<nat>, w: nat) {
      && |index| == |tabs| && w < weights.Length
      && forall i :: 0 <= i < |tabs| ==> index[i] < tabs[i].Length
    }

    ghost function Selected(index: seq<nat>, w: nat): Selection
      requires InRange(index, w)
      reads Arrays()
    {
      Selection(seq(|tabs|, i requires 0 <= i < |tabs| && InRange(index, w) reads Arrays() => tabs[i][index[i]]),
          weights[w])
    }

    /** `Gpredict` */
    method Predict(index: seq<nat>, w: nat) returns (sum: int)
      requires InRange(index, w)
      ensures sum == Selected(index, w).Contribution()
    {
      ghost var counters := Selected(index, w).counters;
      sum := 0;
      for i := 0 to |tabs|
        invariant sum == SumOf(counters[..i])
      {
        var ctr: int := tabs[i][index[i]];
        assert counters[..i + 1][..i] == counters[..i] && counters[..i + 1][i] == ctr;
        sum := sum + (2 * ctr + 1);
      }
      assert counters[..|tabs|] == counters;
      sum := (if weights[w] >= 0 then 2 else 1) * sum;
    }

    /** `Gupdate`: sums the counters while training them, then trains the weight. */
    method Update(index: seq<nat>, w: nat, lsum: int, taken: bool)
      requires Valid() && InRange(index, w)
      modifies Arrays()
      ensures Selected(index, w) == old(Selected(index, w)).Trained(lsum, taken)
      ensures forall i, k :: 0 <= i < |tabs| && 0 <= k < tabs[i].Length && k != index[i] ==>
              tabs[i][k] == old(tabs[i][k])
      ensures forall k :: 0 <= k < weights.Length && k != w ==> weights[k] == old(weights[k])
    {
      ghost var before := Selected(index, w);
      var percsum := 0;
      for i := 0 to |tabs|
        invariant percsum == SumOf(before.counters[..i])
        invariant forall j :: 0 <= j < |tabs| ==>
                    tabs[j][index[j]]
                    == if j < i then CtrUpdate(before.counters[j], taken, LIMIT) else before.counters[j]
        invariant forall j, k :: 0 <= j < |tabs| && 0 <= k < tabs[j].Length && k != index[j] ==>
                  tabs[j][k] == old(tabs[j][k])
        invariant weights[..] == old(weights[..])
      {
        var ctr: int := tabs[i][index[i]];
        assert before.counters[..i + 1][..i] == before.counters[..i] && before.counters[..i + 1][i] == ctr;
        percsum := percsum + (2 * ctr + 1);
        tabs[i][index[i]] := CtrUpdate(ctr, taken, LIMIT);
      }
      assert before.counters[..|tabs|] == before.counters;
      var xsum := lsum - if weights[w] >= 0 then percsum else 0;
      if (xsum + percsum >= 0) != (xsum >= 0) {
        weights[w] := CtrUpdate(weights[w], (percsum >= 0) == taken, LIMIT);
      }
    }
  }

  /** Where a branch looks in one component. */
  datatype Lookup = Lookup(index: seq<nat>, w: nat)

  /** The whole corrector: components that share no array. */
  class Corrector {
    const comps: seq<Component>

    constructor (comps: seq<Component>)
      ensures this.comps == comps
    {
      this.comps := comps;
    }

    ghost function Arrays(): set<object> {
      set k, o | 0 <= k < |comps| && o in comps[k].Arrays() :: o
    }

    ghost predicate Valid() {
      && (forall k :: 0 <= k < |comps| ==> comps[k].Valid())
      && forall k, l :: 0 <= k < l < |comps| ==> comps[k].Arrays() !! comps[l].Arrays()
    }

    ghost predicate InRange(at: seq<Lookup>) {
      && |at| == |comps|
      && forall k :: 0 <= k < |comps| ==> comps[k].InRange(at[k].index, at[k].w)
    }

    ghost function Selections(at: seq<Lookup>): (s: seq<Selection>)
      requires InRange(at)
      reads Arrays()
      ensures |s| == |comps|
    {
      seq(|comps|, k requires 0 <= k < |comps| && InRange(at) reads Arrays() => comps[k].Selected(at[k].index, at[k].w))
    }

    method Predict(at: seq<Lookup>) returns (lsum: int)
      requires InRange(at)
      ensures lsum == Total(Selections(at))
    {
      ghost var cs := Selections(at);
      lsum := 0;
      for k := 0 to |comps|
        invariant lsum == Total(cs[..k])
        invariant forall j :: 0 <= j < |comps| ==> comps[j].Selected(at[j].index, at[j].w) == cs[j]
      {
        var sum := comps[k].Predict(at[k].index, at[k].w);
        assert cs[k] == comps[k].Selected(at[k].index, at[k].w);
        assert cs[..k + 1][..k] == cs[..k] && cs[..k + 1][k] == cs[k];
        lsum := lsum + sum;
      }
      assert cs[..|comps|] == cs == Selections(at);
    }

    /** Training one component leaves what every other selects as it was. */
    method TrainOne(at: seq<Lookup>, k: nat, lsum: int, taken: bool)
      requires Valid() && InRange(at) && k < |comps|
      modifies comps[k].Arrays()
      ensures comps[k].Selected(at[k].index, at[k].w)
              == old(comps[k].Selected(at[k].index, at[k].w)).Trained(lsum, taken)
      ensures forall j :: 0 <= j < |comps| && j != k ==>
                comps[j].Selected(at[j].index, at[j].w) == old(comps[j].Selected(at[j].index, at[j].w))
    {
      hide Selection.Trained;
      assert forall j :: 0 <= j < |comps| && j != k ==> comps[j].Arrays() !! comps[k].Arrays();
      comps[k].Update(at[k].index, at[k].w, lsum, taken);
    }

    /** Training the components one after the other gives each what it would get from the prediction alone. */
    method Train(at: seq<Lookup>, lsum: int, taken: bool)
      requires Valid() && InRange(at)
      modifies Arrays()
      ensures forall k :: 0 <= k < |comps| ==> Selections(at)[k] == old(Selections(at))[k].Trained(lsum, taken)
    {
      ghost var cs := Selections(at);
      hide Selection.Trained;
      hide Component.Selected;
      for k := 0 to |comps|
        invariant forall j :: 0 <= j < k ==> comps[j].Selected(at[j].index, at[j].w) == cs[j].Trained(lsum, taken)
        invariant forall j :: k <= j < |comps| ==> comps[j].Selected(at[j].index, at[j].w) == cs[j]
      {
        TrainOne(at, k, lsum, taken);
      }
    }
  }
}
