/** Small vocabulary shared by every component of the simulator model. */
module Common {

  datatype Option<+T> = None | Some(value: T)

  function Max(a: int, b: int): int {
    if a > b then a else b
  }

  function Min(a: int, b: int): int {
    if a < b then a else b
  }

  function Abs(a: int): nat {
    if a < 0 then -a else a
  }

  /** `ctrupdate`: a saturating counter in [-limit, limit). */
  function CtrUpdate(ctr: int, taken: bool, limit: int): (r: int)
    ensures -limit <= ctr < limit ==> -limit <= r < limit
  {
    if taken then (if ctr < limit - 1 then ctr + 1 else ctr)
    else (if ctr > -limit then ctr - 1 else ctr)
  }

  ghost predicate Distinct<T>(s: seq<T>) {
    forall i, j :: 0 <= i < j < |s| ==> s[i] != s[j]
  }

  /** `s` holds every number below its length exactly once. */
  ghost predicate IsRanking(s: seq<nat>) {
    Distinct(s) && forall i :: 0 <= i < |s| ==> s[i] < |s|
  }

  function Range(n: nat): (r: set<nat>)
    ensures |r| == n && forall x: nat :: x in r <==> x < n
  {
    if n == 0 then {} else Range(n - 1) + {n - 1}
  }

  ghost function Elements(s: seq<nat>): (r: set<nat>)
    ensures forall x :: x in r <==> x in s
  {
    set x | x in s
  }

  lemma {:induction false} DistinctCount(s: seq<nat>)
    requires Distinct(s)
    ensures |Elements(s)| == |s|
  {
    if s != [] {
      var rest := s[..|s| - 1];
      DistinctCount(rest);
      assert Elements(s) == Elements(rest) + {s[|s| - 1]};
    }
  }

  lemma {:induction false} SubsetSize(a: set<nat>, b: set<nat>)
    requires a <= b
    ensures |a| <= |b|
  {
    if a != {} {
      var x :| x in a;
      SubsetSize(a - {x}, b - {x});
    }
  }

  /** A ranking misses no rank: this is what lets a victim search always succeed. */
  lemma EveryRankTaken(s: seq<nat>, rank: nat) returns (i: nat)
    requires IsRanking(s) && rank < |s|
    ensures i < |s| && s[i] == rank
  {
    if rank !in s {
      DistinctCount(s);
      SubsetSize(Elements(s), Range(|s|) - {rank});
      assert false;
    }
    i :| i < |s| && s[i] == rank;
  }
}
