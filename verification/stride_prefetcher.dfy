/** The stride prefetcher: the prediction table, the queue of pending prefetches, and its counters. */
module StridePrefetchers {
  import opened Common
  import opened StrideTables

  const CACHE_LINE: nat := 64
  const PF_MUST_ISSUE_BEFORE_CYCLES: nat := 8

  datatype Prefetch = Prefetch(address: nat, cycle: nat) {
    function Line(): nat {
      address / CACHE_LINE
    }

    predicate Before(other: Prefetch) {
      if cycle != other.cycle then cycle < other.cycle else address < other.address
    }

    predicate Stale(now: nat) {
      cycle + PF_MUST_ISSUE_BEFORE_CYCLES < now
    }
  }

  ghost predicate Sorted(q: seq<Prefetch>) {
    forall i, j :: 0 <= i < j < |q| ==> q[i].Before(q[j])
  }

  ghost predicate LinesDistinct(q: seq<Prefetch>) {
    forall i, j :: 0 <= i < j < |q| ==> q[i].Line() != q[j].Line()
  }

  ghost predicate QueueOk(q: seq<Prefetch>) {
    Sorted(q) && LinesDistinct(q)
  }

  lemma SuffixOk(q: seq<Prefetch>, k: nat)
    requires QueueOk(q) && k <= |q|
    ensures QueueOk(q[k..])
  {
  }

  /** The queue with `pf` appended and then sorted. */
  function Inserted(q: seq<Prefetch>, pf: Prefetch): (r: seq<Prefetch>)
    ensures multiset(r) == multiset(q) + multiset{pf}
    ensures |r| == |q| + 1
  {
    if q == [] then [pf]
    else
      assert q == [q[0]] + q[1..];
      if pf.Before(q[0]) then [pf] + q else [q[0]] + Inserted(q[1..], pf)
  }

  lemma {:induction false} InsertedMember(q: seq<Prefetch>, pf: Prefetch, x: Prefetch)
    ensures x in Inserted(q, pf) <==> x in q || x == pf
  {
    assert x in Inserted(q, pf) <==> x in multiset(Inserted(q, pf));
    assert x in q <==> x in multiset(q);
  }

  lemma BeforeAll(q: seq<Prefetch>, pf: Prefetch)
    requires Sorted(q) && q != [] && pf.Before(q[0])
    ensures forall i :: 0 <= i < |q| ==> pf.Before(q[i])
  {
  }

  /** Entries on different lines are comparable. */
  lemma NotBefore(a: Prefetch, b: Prefetch)
    requires a.Line() != b.Line() && !a.Before(b)
    ensures b.Before(a)
  {
  }

  lemma {:induction false} InsertedOk(q: seq<Prefetch>, pf: Prefetch)
    requires QueueOk(q) && forall i :: 0 <= i < |q| ==> q[i].Line() != pf.Line()
    ensures QueueOk(Inserted(q, pf))
  {
    hide Prefetch.Before;
    hide Prefetch.Line;
    if q == [] {
    } else if pf.Before(q[0]) {
      BeforeAll(q, pf);
    } else {
      NotBefore(pf, q[0]);
      InsertedOk(q[1..], pf);
      var tail := Inserted(q[1..], pf);
      forall j | 0 <= j < |tail|
        ensures q[0].Before(tail[j]) && q[0].Line() != tail[j].Line()
      {
        InsertedMember(q[1..], pf, tail[j]);
        if tail[j] != pf {
          var k :| 0 <= k < |q[1..]| && q[1..][k] == tail[j];
          assert q[k + 1] == tail[j];
        }
      }
    }
  }

  lemma HeadFirst(a: seq<Prefetch>, x: Prefetch)
    requires Sorted(a) && x in a
    ensures a[0] == x || a[0].Before(x)
  {
  }

  lemma SameHead(a: seq<Prefetch>, b: seq<Prefetch>)
    requires a != [] && |a| == |b| && Sorted(a) && Sorted(b) && multiset(a) == multiset(b)
    ensures a[0] == b[0]
  {
    assert a[0] in multiset(b) && b[0] in multiset(a);
    HeadFirst(a, b[0]);
    HeadFirst(b, a[0]);
  }

  /** The sorted order is the only one: any sorting routine leaves the queue in it. */
  lemma {:induction false} SortedUnique(a: seq<Prefetch>, b: seq<Prefetch>)
    requires Sorted(a) && Sorted(b) && multiset(a) == multiset(b)
    ensures a == b
  {
    assert |multiset(a)| == |a| && |multiset(b)| == |b|;
    if a != [] {
      SameHead(a, b);
      assert a == [a[0]] + a[1..] && b == [b[0]] + b[1..];
      assert multiset(a[1..]) == multiset(a) - multiset{a[0]} == multiset(b[1..]);
      SortedUnique(a[1..], b[1..]);
    }
  }

  /** The queue after a lookahead on a settled entry: nothing for stride zero, and one prefetch per cache line. */
  function Queued(q: seq<Prefetch>, e: RPTEntry, cycle: nat): seq<Prefetch> {
    var pf := Prefetch(Target(e), cycle);
    if e.stride != 0 && forall x :: x in q ==> x.Line() != pf.Line() then Inserted(q, pf) else q
  }

  /** Queueing drops nothing, and adds the new prefetch exactly when its stride is not zero and its line not covered. */
  lemma QueuedMembers(q: seq<Prefetch>, e: RPTEntry, cycle: nat)
    ensures forall x :: x in Queued(q, e, cycle) <==>
              || x in q
              || (x == Prefetch((e.current + 2 * e.stride) % WORD, cycle) && e.stride != 0
                  && forall y :: y in q ==> y.address / 64 != x.address / 64)
    ensures e.stride != 0 ==> exists x :: x in Queued(q, e, cycle) && x.Line() == Prefetch(Target(e), cycle).Line()
  {
    var pf := Prefetch(Target(e), cycle);
    forall x {
      InsertedMember(q, pf, x);
    }
    assert e.stride != 0 && (forall x :: x in q ==> x.Line() != pf.Line()) ==> pf in Queued(q, e, cycle);
  }

  /** In a sorted queue the stale prefetches are a prefix. */
  lemma LiveSuffix(q: seq<Prefetch>, k: nat, now: nat)
    requires Sorted(q) && k <= |q|
    requires forall i :: 0 <= i < k ==> q[i].Stale(now)
    requires k < |q| ==> !q[k].Stale(now)
    ensures forall x :: x in q[k..] <==> x in q && !x.Stale(now)
  {
  }

  class StridePrefetcher {
    const rpt: array<RPTEntry>
    var queue: seq<Prefetch>
    var trainings: nat
    var generated: nat
    var issued: nat
    var duplicatesFiltered: nat
    var droppedUntimely: nat
    var putBack: nat
    var strideZero: nat

    ghost predicate Valid()
      reads this, rpt
    {
      && rpt.Length > 0
      && TableOk(rpt[..])
      && QueueOk(queue)
      && generated + putBack == issued + droppedUntimely + |queue|
    }

    constructor (entries: nat)
      requires entries > 0
      ensures Valid() && fresh(rpt) && queue == [] && rpt.Length == entries
    {
      rpt := new RPTEntry[entries]((i: nat) => RPTEntry(Invalid, SENTINEL, SENTINEL, SENTINEL, WORD - 1, i));
      queue := [];
      trainings, generated, issued, duplicatesFiltered := 0, 0, 0, 0;
      droppedUntimely, putBack, strideZero := 0, 0, 0;
    }

    method FindTag(pc: nat) returns (i: nat)
      ensures i == Find(rpt[..], pc)
    {
      i := 0;
      while i < rpt.Length && rpt[i].tag != pc
        invariant i <= rpt.Length
        invariant forall j :: 0 <= j < i ==> rpt[j].tag != pc
      {
        i := i + 1;
      }
      FindIs(rpt[..], pc, i);
    }

    method VictimWay() returns (victim: nat)
      requires rpt.Length > 0 && TableOk(rpt[..])
      ensures victim < rpt.Length && rpt[victim].lru == 0
    {
      ghost var v := VictimExists(rpt[..]);
      assert rpt[..][v] == rpt[v];
      victim := 0;
      while rpt[victim].lru != 0
        invariant victim <= v
        decreases v - victim
      {
        victim := victim + 1;
      }
    }

    method UpdateLru(index: nat)
      requires index < rpt.Length && IsRanking(Lrus(rpt[..]))
      modifies rpt
      ensures rpt[..] == Refreshed(old(rpt[..]), index)
    {
      ghost var t := rpt[..];
      assert forall i :: 0 <= i < |t| ==> Lrus(t)[i] == t[i].lru;
      var i := 0;
      while i < rpt.Length
        invariant i <= rpt.Length
        invariant forall k :: 0 <= k < i ==> rpt[k] == if k == index then t[k] else Refreshed(t, index)[k]
        invariant forall k :: i <= k < rpt.Length ==> rpt[k] == t[k]
        invariant rpt[index] == t[index]
      {
        if rpt[i].lru > rpt[index].lru {
          rpt[i] := rpt[i].(lru := rpt[i].lru - 1);
        }
        i := i + 1;
      }
      rpt[index] := rpt[index].(lru := rpt.Length - 1);
    }

    /** Queues a prefetch unless the stride is zero or its cache line is already queued. */
    method Generate(e: RPTEntry, cycle: nat)
      requires Valid()
      modifies this`queue, this`generated, this`duplicatesFiltered, this`strideZero
      ensures Valid()
      ensures queue == Queued(old(queue), e, cycle)
    {
      if e.stride == 0 {
        strideZero := strideZero + 1;
        return;
      }
      var pf := Prefetch(Target(e), cycle);
      var i := 0;
      while i < |queue| && queue[i].Line() != pf.Line()
        invariant i <= |queue|
        invariant forall k :: 0 <= k < i ==> queue[k].Line() != pf.Line()
      {
        i := i + 1;
      }
      if i == |queue| {
        InsertedOk(queue, pf);
        queue := Inserted(queue, pf);
        generated := generated + 1;
      } else {
        assert queue[i] in queue;
        duplicatesFiltered := duplicatesFiltered + 1;
      }
    }

    method Lookahead(pc: nat, cycle: nat)
      requires Valid()
      modifies this`queue, this`generated, this`duplicatesFiltered, this`strideZero
      ensures Valid()
      ensures var i := Find(rpt[..], pc);
              queue == if i < rpt.Length && rpt[i].state == SteadyState
                       then Queued(old(queue), rpt[i], cycle) else old(queue)
    {
      var i := FindTag(pc);
      if i < rpt.Length && rpt[i].state == SteadyState {
        Generate(rpt[i], cycle);
      }
    }

    /** The state machine of an entry in use, assignment by assignment. */
    method TrainEntry(i: nat, address: nat)
      requires i < rpt.Length && !rpt[i].state.Invalid?
      modifies rpt
      ensures rpt[..] == old(rpt[..])[i := Trained(old(rpt[i]), address)]
    {
      var stride := Difference(address, rpt[i].current);
      match rpt[i].state {
        case Initial =>
          if stride == rpt[i].stride {
            rpt[i] := rpt[i].(state := SteadyState);
          } else {
            rpt[i] := rpt[i].(stride := stride, state := Transient);
          }
        case Transient =>
          if stride == rpt[i].stride {
            rpt[i] := rpt[i].(state := SteadyState);
          } else {
            rpt[i] := rpt[i].(state := NoPrediction, stride := stride);
          }
        case SteadyState =>
          if stride != rpt[i].stride {
            rpt[i] := rpt[i].(state := Initial);
          }
        case NoPrediction =>
          if stride == rpt[i].stride {
            rpt[i] := rpt[i].(state := Transient);
          } else {
            rpt[i] := rpt[i].(stride := stride);
          }
      }
      rpt[i] := rpt[i].(prev := rpt[i].current, current := address);
    }

    method Train(pc: nat, address: nat) returns (ghost victim: nat)
      requires Valid()
      requires pc == SENTINEL ==> forall i :: 0 <= i < rpt.Length ==> !rpt[i].state.Invalid?
      modifies this`trainings, rpt
      ensures Valid() && victim < rpt.Length && old(rpt[victim]).lru == 0
      ensures Find(old(rpt[..]), pc) < rpt.Length ==> !old(rpt[..])[Find(old(rpt[..]), pc)].state.Invalid?
      ensures rpt[..] == TrainedTable(old(rpt[..]), victim, pc, address)
    {
      ghost var t := rpt[..];
      UnexpectedStateIff(t, pc);
      var i := FindTag(pc);
      var v := VictimWay();
      victim := v;
      TrainingKeepsTable(t, v, pc, address);
      if i == rpt.Length {
        rpt[v] := Fresh(rpt[v], pc, address);
        assert rpt[..] == t[v := Fresh(t[v], pc, address)];
        assert Lrus(rpt[..]) == Lrus(t);
        UpdateLru(v);
      } else {
        TrainEntry(i, address);
        assert rpt[..] == t[i := Trained(t[i], address)];
        assert Lrus(rpt[..]) == Lrus(t);
        if rpt[i].stride != 0 {
          UpdateLru(i);
        }
      }
      trainings := trainings + 1;
    }

    /** Drops the prefetches that are too old, which are the front of the queue. */
    method DropStale(now: nat)
      requires Valid()
      modifies this`queue, this`droppedUntimely
      ensures Valid()
      ensures old(droppedUntimely) <= droppedUntimely <= old(droppedUntimely) + |old(queue)|
      ensures queue == old(queue)[droppedUntimely - old(droppedUntimely)..]
      ensures forall q :: q in queue <==> q in old(queue) && !q.Stale(now)
    {
      ghost var q0 := queue;
      ghost var k := 0;
      while queue != [] && queue[0].cycle + PF_MUST_ISSUE_BEFORE_CYCLES < now
        invariant k <= |q0| && queue == q0[k..] && droppedUntimely == old(droppedUntimely) + k
        invariant forall i :: 0 <= i < k ==> q0[i].Stale(now)
        invariant Valid()
        decreases |queue|
      {
        droppedUntimely := droppedUntimely + 1;
        queue := queue[1..];
        k := k + 1;
      }
      LiveSuffix(q0, k, now);
    }

    /** Drops the stale prefetches, then hands out the oldest one that already exists. */
    method Issue(now: nat) returns (p: Option<Prefetch>)
      requires Valid()
      modifies this`queue, this`issued, this`droppedUntimely
      ensures Valid()
      ensures old(droppedUntimely) <= droppedUntimely <= old(droppedUntimely) + |old(queue)|
      ensures var live := old(queue)[droppedUntimely - old(droppedUntimely)..];
              && (forall q :: q in live <==> q in old(queue) && !q.Stale(now))
              && (if live != [] && live[0].cycle <= now
                  then p == Some(live[0]) && queue == live[1..]
                  else p == None && queue == live)
    {
      DropStale(now);
      if queue != [] {
        var front := queue[0];
        if front.cycle <= now {
          queue := queue[1..];
          issued := issued + 1;
          return Some(front);
        }
        return None;
      }
      return None;
    }

    /** Returns a prefetch that `Issue` has just handed out. */
    method PutBack(p: Prefetch)
      requires Valid() && QueueOk([p] + queue)
      modifies this`queue, this`putBack
      ensures Valid() && queue == [p] + old(queue) && putBack == old(putBack) + 1
    {
      putBack := putBack + 1;
      queue := [p] + queue;
    }

    function OldestCycle(): (c: Option<nat>)
      requires Valid()
      reads this, rpt
      ensures c.None? <==> queue == []
      ensures c.Some? ==>
                && (exists q :: q in queue && q.cycle == c.value)
                && forall q :: q in queue ==> c.value <= q.cycle
    {
      if queue == [] then None
      else
        assert queue[0] in queue;
        Some(queue[0].cycle)
    }
  }
}
