/**
  What the prediction table learns over whole runs: a load's entry depends on the load's own accesses alone,
  a new load is settled by its third access at one stride, and the ranks order the entries by use.
*/
module StrideLearning {
  import opened Common
  import opened StrideTables

  /** Every training remembers the last two addresses, and keeps tag and rank. */
  lemma Remembers(e: RPTEntry, address: nat)
    requires !e.state.Invalid?
    ensures var r := Trained(e, address);
            r.current == address && r.prev == e.current && r.tag == e.tag && r.lru == e.lru && !r.state.Invalid?
  {
  }

  // ---------------------------------------------------------------- ranks

  /** A refreshed entry ranks above all others, which keep their order. */
  lemma RefreshedKeepsOrder(t: seq<RPTEntry>, index: nat, i: nat, j: nat)
    requires index < |t| && i < |t| && j < |t| && IsRanking(Lrus(t)) && i != index && j != index
    ensures var r := Refreshed(t, index);
            && r[i].lru < r[index].lru
            && (r[i].lru < r[j].lru <==> t[i].lru < t[j].lru)
  {
    var r := Lrus(t);
    assert r[i] < |t| && r[j] < |t| && r[index] < |t|;
    assert r[i] != r[index] && r[j] != r[index] && (i != j ==> r[i] != r[j]);
  }

  // ---------------------------------------------------------------- runs of trainings

  /** One training: the load, its address, and the entry replaced if the load is new. */
  datatype Training = Training(pc: nat, address: nat, victim: nat)

  /** The training can be made: its victim has rank 0, and it does not meet an unused entry. */
  ghost predicate CanTrain(t: seq<RPTEntry>, x: Training) {
    && x.victim < |t| && t[x.victim].lru == 0
    && (Find(t, x.pc) < |t| ==> !t[Find(t, x.pc)].state.Invalid?)
  }

  ghost function TrainRun(t: seq<RPTEntry>, xs: seq<Training>): (r: seq<RPTEntry>)
    requires RunOk(t, xs)
    ensures |r| == |t|
    decreases |xs|, 1
  {
    if xs == [] then t
    else
      var x := xs[|xs| - 1];
      TrainedTable(TrainRun(t, xs[..|xs| - 1]), x.victim, x.pc, x.address)
  }

  ghost predicate RunOk(t: seq<RPTEntry>, xs: seq<Training>)
    decreases |xs|, 0
  {
    xs == [] || (RunOk(t, xs[..|xs| - 1]) && CanTrain(TrainRun(t, xs[..|xs| - 1]), xs[|xs| - 1]))
  }

  /** No training of the run replaces entry `i`. */
  ghost predicate Spared(t: seq<RPTEntry>, xs: seq<Training>, i: nat)
    requires RunOk(t, xs)
  {
    xs == [] || (
      var before, x := xs[..|xs| - 1], xs[|xs| - 1];
      Spared(t, before, i) && (Find(TrainRun(t, before), x.pc) == |t| ==> x.victim != i))
  }

  /** The entry after the accesses of its own load among `xs`. */
  function Taught(e: RPTEntry, xs: seq<Training>, pc: nat): (r: RPTEntry)
    requires !e.state.Invalid?
    ensures !r.state.Invalid?
  {
    if xs == [] then e
    else
      var before, x := Taught(e, xs[..|xs| - 1], pc), xs[|xs| - 1];
      if x.pc == pc then Trained(before, x.address) else before
  }

  lemma FoundAt(t: seq<RPTEntry>, pc: nat, i: nat)
    requires TableOk(t) && i < |t| && t[i].tag == pc && !t[i].state.Invalid?
    ensures Find(t, pc) == i
  {
    hide IsRanking;
  }

  /** What the load learns, and where its entry is, is not changed by a rank. */
  lemma OwnTraining(t: seq<RPTEntry>, x: Training, i: nat)
    requires TableOk(t) && CanTrain(t, x) && Find(t, x.pc) == i < |t|
    ensures TrainedTable(t, x.victim, x.pc, x.address)[i].(lru := 0) == Trained(t[i], x.address).(lru := 0)
  {
  }

  lemma SameButRank(a: RPTEntry, b: RPTEntry)
    requires a.(lru := 0) == b.(lru := 0)
    ensures a.tag == b.tag && a.state == b.state && a.stride == b.stride && a.current == b.current
  {
    assert a.(lru := 0).tag == a.tag && b.(lru := 0).tag == b.tag;
    assert a.(lru := 0).state == a.state && b.(lru := 0).state == b.state;
    assert a.(lru := 0).stride == a.stride && b.(lru := 0).stride == b.stride;
    assert a.(lru := 0).current == a.current && b.(lru := 0).current == b.current;
  }

  lemma RankIgnored(a: RPTEntry, b: RPTEntry, address: nat)
    requires a.(lru := 0) == b.(lru := 0) && !a.state.Invalid? && !b.state.Invalid?
    ensures Trained(a, address).(lru := 0) == Trained(b, address).(lru := 0)
  {
    SameButRank(a, b);
    assert a.(lru := 0).prev == a.prev && b.(lru := 0).prev == b.prev;
  }

  lemma {:induction false} TaughtKeepsTag(e: RPTEntry, xs: seq<Training>, pc: nat)
    requires !e.state.Invalid?
    ensures Taught(e, xs, pc).tag == e.tag
  {
    if xs != [] {
      TaughtKeepsTag(e, xs[..|xs| - 1], pc);
      Remembers(Taught(e, xs[..|xs| - 1], pc), xs[|xs| - 1].address);
    }
  }

  /**
    In any run that does not replace it, a load's entry stays where it is and holds what the load's own accesses
    taught it, whatever other loads train in between.
  */
  lemma {:induction false} EntryFollowsItsLoad(t: seq<RPTEntry>, xs: seq<Training>, i: nat)
    requires TableOk(t) && RunOk(t, xs) && i < |t| && !t[i].state.Invalid? && Spared(t, xs, i)
    ensures var r := TrainRun(t, xs);
            && TableOk(r) && Find(r, t[i].tag) == i
            && r[i].(lru := 0) == Taught(t[i], xs, t[i].tag).(lru := 0)
  {
    hide TableOk;
    if xs == [] {
      FoundAt(t, t[i].tag, i);
    } else {
      var before, x := xs[..|xs| - 1], xs[|xs| - 1];
      EntryFollowsItsLoad(t, before, i);
      var r, pc := TrainRun(t, before), t[i].tag;
      var r' := TrainedTable(r, x.victim, x.pc, x.address);
      TrainingKeepsTable(r, x.victim, x.pc, x.address);
      if x.pc == pc {
        OwnTraining(r, x, i);
        RankIgnored(r[i], Taught(t[i], before, pc), x.address);
      } else {
        OthersUntouched(r, x.victim, x.pc, x.address, i);
      }
      hide TrainedTable;
      TaughtKeepsTag(t[i], xs, pc);
      assert r'[i].(lru := 0) == Taught(t[i], xs, pc).(lru := 0);
      SameButRank(r'[i], Taught(t[i], xs, pc));
      FoundAt(r', pc, i);
    }
  }

  // ---------------------------------------------------------------- a new load

  /** A load new to the table takes the victim's entry, and remembers its address alone. */
  lemma NewLoad(t: seq<RPTEntry>, x: Training)
    requires TableOk(t) && CanTrain(t, x) && Find(t, x.pc) == |t|
    ensures var r := TrainedTable(t, x.victim, x.pc, x.address);
            && TableOk(r) && Find(r, x.pc) == x.victim
            && r[x.victim].state == Initial && r[x.victim].tag == x.pc && r[x.victim].current == x.address
            && r[x.victim].stride == 0
  {
    var r := TrainedTable(t, x.victim, x.pc, x.address);
    TrainingKeepsTable(t, x.victim, x.pc, x.address);
    SameButRank(r[x.victim], Fresh(t[x.victim], x.pc, x.address));
    hide TableOk;
    FoundAt(r, x.pc, x.victim);
  }

  /** The accesses of one load among `xs`. */
  function OwnAddresses(xs: seq<Training>, pc: nat): seq<nat> {
    if xs == [] then []
    else
      var before, x := OwnAddresses(xs[..|xs| - 1], pc), xs[|xs| - 1];
      if x.pc == pc then before + [x.address] else before
  }

  /** Being taught by a run is being taught the addresses one by one. */
  function TaughtAll(e: RPTEntry, addresses: seq<nat>): (r: RPTEntry)
    requires !e.state.Invalid?
    ensures !r.state.Invalid?
  {
    if addresses == [] then e else Trained(TaughtAll(e, addresses[..|addresses| - 1]), addresses[|addresses| - 1])
  }

  lemma {:induction false} TaughtByAddresses(e: RPTEntry, xs: seq<Training>, pc: nat)
    requires !e.state.Invalid?
    ensures Taught(e, xs, pc) == TaughtAll(e, OwnAddresses(xs, pc))
  {
    hide Trained;
    if xs != [] {
      TaughtByAddresses(e, xs[..|xs| - 1], pc);
      var before, x := OwnAddresses(xs[..|xs| - 1], pc), xs[|xs| - 1];
      assert (before + [x.address])[..|before|] == before;
    }
  }

  lemma {:induction false} TaughtTwo(e: RPTEntry, a: nat, b: nat)
    requires !e.state.Invalid?
    ensures TaughtAll(e, [a, b]) == Trained(Trained(e, a), b)
  {
    hide Trained;
    var one, two := [a], [a, b];
    assert one[..0] == [] && TaughtAll(e, one) == Trained(e, a);
    assert two[..1] == one && TaughtAll(e, two) == Trained(TaughtAll(e, one), b);
  }

  /**
    A load new to the table is settled by two more accesses at one stride, with whatever other loads in between
    that do not replace its entry; and then a lookahead asks for the access after the next.
  */
  lemma {:induction false} NewLoadSettles(t: seq<RPTEntry>, x: Training, xs: seq<Training>, s: nat)
    requires TableOk(t) && CanTrain(t, x) && Find(t, x.pc) == |t| && x.address < WORD && s < WORD
    requires var t1 := TrainedTable(t, x.victim, x.pc, x.address); RunOk(t1, xs) && Spared(t1, xs, x.victim)
    requires OwnAddresses(xs, x.pc) == [Plus(x.address, s), Plus(Plus(x.address, s), s)]
    ensures var r := TrainRun(TrainedTable(t, x.victim, x.pc, x.address), xs);
            && Find(r, x.pc) == x.victim
            && r[x.victim].state == SteadyState && r[x.victim].stride == s
            && Target(r[x.victim]) == Plus(Plus(Plus(Plus(x.address, s), s), s), s)
  {
    var t1 := TrainedTable(t, x.victim, x.pc, x.address);
    NewLoad(t, x);
    var e := t1[x.victim];
    EntryFollowsItsLoad(t1, xs, x.victim);
    TaughtByAddresses(e, xs, x.pc);
    hide TrainedTable;
    hide TrainRun;
    hide TableOk;
    hide Spared;
    hide RunOk;
    var a, b := Plus(x.address, s), Plus(Plus(x.address, s), s);
    TaughtTwo(e, a, b);
    StrideOfStep(x.address, s);
    StrideOfStep(a, s);
    SameButRank(TrainRun(t1, xs)[x.victim], Trained(Trained(e, a), b));
    PlusTwice(b, s);
  }
}
