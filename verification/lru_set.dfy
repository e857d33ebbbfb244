/**
  One set of a cache: the ways with their LRU counters, and the recency stack they encode.
  The stack lists the resident lines, most recently used first.
*/
module LruSets {
  import opened Common

  datatype Block = Block(valid: bool, tag: nat, timestamp: nat, lru: nat)

  datatype Line = Line(tag: nat, avail: nat)

  ghost function Ranks(ways: seq<Block>): (r: seq<nat>)
    ensures |r| == |ways|
  {
    seq(|ways|, i requires 0 <= i < |ways| => ways[i].lru)
  }

  ghost predicate DistinctTags(stack: seq<Line>) {
    forall i, j :: 0 <= i < j < |stack| ==> stack[i].tag != stack[j].tag
  }

  /** The way of rank k holds the k-th most recent line; the ranks past the stack are the invalid ways. */
  ghost predicate Represents(ways: seq<Block>, stack: seq<Line>) {
    && IsRanking(Ranks(ways))
    && |stack| <= |ways|
    && DistinctTags(stack)
    && forall w :: 0 <= w < |ways| ==>
         && (ways[w].valid <==> ways[w].lru < |stack|)
         && (ways[w].valid ==> stack[ways[w].lru] == Line(ways[w].tag, ways[w].timestamp))
  }

  /** `update_lru`: everything more recent than `mru` ages by one, and `mru` becomes rank 0. */
  function Aged(ways: seq<Block>, mru: nat): (r: seq<Block>)
    requires mru < |ways|
    ensures |r| == |ways|
  {
    seq(|ways|, w requires 0 <= w < |ways| =>
      if w == mru then ways[w].(lru := 0)
      else if ways[w].lru < ways[mru].lru then ways[w].(lru := ways[w].lru + 1)
      else ways[w])
  }

  /** Position of `tag` in the stack, or the stack's length when it is absent. */
  function Depth(stack: seq<Line>, tag: nat): (d: nat)
    ensures d <= |stack|
    ensures d < |stack| ==> stack[d].tag == tag
    ensures forall i :: 0 <= i < d ==> stack[i].tag != tag
  {
    if stack == [] || stack[0].tag == tag then 0 else 1 + Depth(stack[1..], tag)
  }

  function Touched(stack: seq<Line>, d: nat): seq<Line>
    requires d < |stack|
  {
    [stack[d]] + stack[..d] + stack[d + 1..]
  }

  function Filled(stack: seq<Line>, line: Line, assoc: nat): seq<Line>
    requires |stack| <= assoc
  {
    if |stack| < assoc then [line] + stack else ([line] + stack)[..assoc]
  }

  lemma AgedIsRanking(ways: seq<Block>, mru: nat)
    requires mru < |ways| && IsRanking(Ranks(ways))
    ensures IsRanking(Ranks(Aged(ways, mru)))
  {
    var r, a := Ranks(ways), Ranks(Aged(ways, mru));
    forall i, j | 0 <= i < j < |a|
      ensures a[i] != a[j]
    {
      assert r[i] != r[j];
      assert i != mru ==> r[i] != r[mru];
      assert j != mru ==> r[j] != r[mru];
    }
    assert forall i :: 0 <= i < |a| ==> r[i] < |r| && a[i] <= Max(r[i], r[mru]);
  }

  lemma HitKeepsRepresentation(ways: seq<Block>, stack: seq<Line>, w: nat)
    requires Represents(ways, stack) && w < |ways| && ways[w].valid
    ensures Depth(stack, ways[w].tag) == ways[w].lru
    ensures Represents(Aged(ways, w), Touched(stack, ways[w].lru))
  {
    var d := ways[w].lru;
    var after := Aged(ways, w);
    AgedIsRanking(ways, w);
    assert stack[d].tag == ways[w].tag;
    forall i | 0 <= i < |ways|
      ensures after[i].valid <==> after[i].lru < |stack|
      ensures after[i].valid ==> Touched(stack, d)[after[i].lru] == Line(after[i].tag, after[i].timestamp)
    {
      if i != w {
        assert Ranks(ways)[i] != Ranks(ways)[w];
      }
    }
  }

  lemma FilledDistinct(stack: seq<Line>, line: Line, assoc: nat)
    requires DistinctTags(stack) && Depth(stack, line.tag) == |stack| <= assoc
    ensures DistinctTags(Filled(stack, line, assoc))
  {
  }

  lemma OnlyVictimLast(ways: seq<Block>, victim: nat)
    requires IsRanking(Ranks(ways)) && victim < |ways| && ways[victim].lru == |ways| - 1
    ensures forall i :: 0 <= i < |ways| && i != victim ==> ways[i].lru < |ways| - 1
  {
    forall i | 0 <= i < |ways| && i != victim
      ensures ways[i].lru < |ways| - 1
    {
      assert Ranks(ways)[i] != Ranks(ways)[victim];
      assert Ranks(ways)[i] < |ways|;
    }
  }

  lemma LoadedIsRanking(ways: seq<Block>, victim: nat, block: Block)
    requires IsRanking(Ranks(ways)) && victim < |ways| && block.lru == ways[victim].lru
    ensures IsRanking(Ranks(Aged(ways[victim := block], victim)))
  {
    hide IsRanking;
    assert Ranks(ways[victim := block]) == Ranks(ways);
    AgedIsRanking(ways[victim := block], victim);
  }

  /** Every way but the victim's steps one rank back with the line it holds. */
  lemma WaysAfterMiss(ways: seq<Block>, stack: seq<Line>, victim: nat, line: Line, i: nat)
    requires Represents(ways, stack) && victim < |ways| && i < |ways|
    requires forall j :: 0 <= j < |ways| && j != victim ==> ways[j].lru < |ways| - 1 == ways[victim].lru
    ensures var way := Aged(ways[victim := Block(true, line.tag, line.avail, ways[victim].lru)], victim)[i];
            var filled := Filled(stack, line, |ways|);
            && (way.valid <==> way.lru < |filled|)
            && (way.valid ==> filled[way.lru] == Line(way.tag, way.timestamp))
  {
    hide IsRanking;
    hide DistinctTags;
    hide Ranks;
  }

  lemma MissKeepsRepresentation(ways: seq<Block>, stack: seq<Line>, victim: nat, line: Line)
    requires Represents(ways, stack) && victim < |ways| && ways[victim].lru == |ways| - 1
    requires Depth(stack, line.tag) == |stack|
    ensures var loaded := ways[victim := Block(true, line.tag, line.avail, ways[victim].lru)];
            Represents(Aged(loaded, victim), Filled(stack, line, |ways|))
  {
    var block := Block(true, line.tag, line.avail, ways[victim].lru);
    var after, filled := Aged(ways[victim := block], victim), Filled(stack, line, |ways|);
    LoadedIsRanking(ways, victim, block);
    FilledDistinct(stack, line, |ways|);
    OnlyVictimLast(ways, victim);
    hide IsRanking;
    hide DistinctTags;
    forall i | 0 <= i < |ways|
      ensures after[i].valid <==> after[i].lru < |filled|
      ensures after[i].valid ==> filled[after[i].lru] == Line(after[i].tag, after[i].timestamp)
    {
      WaysAfterMiss(ways, stack, victim, line, i);
    }
    hide Aged;
  }

  /** The scan of `access` always has a victim: the way of rank |ways| - 1. */
  lemma VictimExists(ways: seq<Block>, stack: seq<Line>) returns (victim: nat)
    requires Represents(ways, stack) && |ways| > 0
    ensures victim < |ways| && ways[victim].lru == |ways| - 1
    ensures forall w :: 0 <= w < |ways| ==> ways[w].lru <= |ways| - 1
    ensures (exists w :: 0 <= w < |ways| && !ways[w].valid) ==> !ways[victim].valid
  {
    victim := EveryRankTaken(Ranks(ways), |ways| - 1);
    forall w | 0 <= w < |ways|
      ensures ways[w].lru <= |ways| - 1
    {
      assert Ranks(ways)[w] < |ways|;
    }
  }

  lemma ResidentIffOnStack(ways: seq<Block>, stack: seq<Line>, tag: nat)
    requires Represents(ways, stack)
    ensures (exists w :: 0 <= w < |ways| && ways[w].valid && ways[w].tag == tag) <==> Depth(stack, tag) < |stack|
  {
    var d := Depth(stack, tag);
    if d < |stack| {
      var w := EveryRankTaken(Ranks(ways), d);
      assert ways[w].valid && ways[w].tag == tag;
    }
  }

  // ---------------------------------------------------------------- LRU against the access history

  function Without(s: seq<nat>, x: nat): (r: seq<nat>)
    ensures |r| <= |s| && (x in s ==> |r| < |s|)
    ensures forall y :: y in r <==> y in s && y != x
  {
    if s == [] then [] else (if s[0] == x then [] else [s[0]]) + Without(s[1..], x)
  }

  /** `tag` moves to the front of the resident tags, which makes room for it when it was absent. */
  function Used(before: seq<nat>, tag: nat, assoc: nat): (after: seq<nat>)
    requires |before| <= assoc && assoc > 0
    ensures |after| <= assoc
  {
    if tag in before then [tag] + Without(before, tag)
    else if |before| < assoc then [tag] + before
    else ([tag] + before)[..assoc]
  }

  /** The tags of a set after a sequence of accesses, at a given associativity. */
  function Contents(trace: seq<nat>, assoc: nat): (c: seq<nat>)
    requires assoc > 0
    ensures |c| <= assoc
  {
    if trace == [] then [] else Used(Contents(trace[..|trace| - 1], assoc), trace[|trace| - 1], assoc)
  }

  /** The distinct tags used after the last use of `tag`. */
  function UsedSince(trace: seq<nat>, tag: nat): set<nat> {
    if trace == [] || trace[|trace| - 1] == tag then {}
    else UsedSince(trace[..|trace| - 1], tag) + {trace[|trace| - 1]}
  }

  /** `s` starts with the tags of `front`, each once, followed by `tag`. */
  ghost predicate Behind(s: seq<nat>, front: set<nat>, tag: nat) {
    |front| < |s| && s[|front|] == tag && Elements(s[..|front|]) == front
  }

  lemma {:induction false} WithoutAbsent(s: seq<nat>, x: nat)
    requires x !in s
    ensures Without(s, x) == s
  {
    if s != [] {
      WithoutAbsent(s[1..], x);
    }
  }

  lemma {:induction false} WithoutAt(s: seq<nat>, k: nat)
    requires k < |s| && Distinct(s)
    ensures Without(s, s[k]) == s[..k] + s[k + 1..]
  {
    if k == 0 {
      WithoutAbsent(s[1..], s[0]);
    } else {
      WithoutAt(s[1..], k - 1);
      assert s[0] != s[k];
      assert s[..k] == [s[0]] + s[1..][..k - 1];
      assert s[k + 1..] == s[1..][k..];
    }
  }

  lemma MoveToFrontDistinct(s: seq<nat>, k: nat)
    requires Distinct(s) && k < |s|
    ensures Distinct([s[k]] + (s[..k] + s[k + 1..]))
  {
  }

  lemma UsedDistinct(before: seq<nat>, tag: nat, assoc: nat)
    requires |before| <= assoc && assoc > 0 && Distinct(before)
    ensures Distinct(Used(before, tag, assoc))
    ensures forall t :: t in Used(before, tag, assoc) ==> t in before || t == tag
  {
    if tag in before {
      var k :| 0 <= k < |before| && before[k] == tag;
      WithoutAt(before, k);
      MoveToFrontDistinct(before, k);
    } else {
      assert forall i :: 0 <= i < |before| ==> ([tag] + before)[i + 1] == before[i];
    }
  }

  lemma {:induction false} ContentsDistinct(trace: seq<nat>, assoc: nat)
    requires assoc > 0
    ensures Distinct(Contents(trace, assoc))
    ensures forall t :: t in Contents(trace, assoc) ==> t in trace
  {
    hide Used;
    if trace != [] {
      ContentsDistinct(trace[..|trace| - 1], assoc);
      UsedDistinct(Contents(trace[..|trace| - 1], assoc), trace[|trace| - 1], assoc);
    }
  }

  lemma RotatedMember(s: seq<nat>, k: nat, d: nat, x: nat)
    requires k < d <= |s|
    ensures x in ([s[k]] + (s[..k] + s[k + 1..]))[..d] <==> x in s[..d]
  {
    var after := [s[k]] + (s[..k] + s[k + 1..]);
    if x in after[..d] {
      var i :| 0 <= i < d && after[i] == x;
      assert s[..d][if i == 0 then k else if i <= k then i - 1 else i] == x;
    }
    if x in s[..d] {
      var i :| 0 <= i < d && s[i] == x;
      assert after[..d][if i == k then 0 else if i < k then i + 1 else i] == x;
    }
  }

  /** One new tag in front of an unchanged prefix. */
  lemma PrefixGrows(before: seq<nat>, after: seq<nat>, d: nat, last: nat, since: set<nat>)
    requires d < |before| && |after| > d + 1
    requires Elements(before[..d]) == since && |since| == d && last !in before[..d]
    requires after[0] == last && forall i :: 0 <= i <= d ==> after[i + 1] == before[i]
    ensures |since + {last}| == d + 1
    ensures Behind(after, since + {last}, before[d])
  {
    assert last !in since;
    forall x
      ensures x in after[..d + 1] <==> x in since + {last}
    {
      if x in since {
        var i :| 0 <= i < d && before[i] == x;
        assert after[..d + 1][i + 1] == x;
      }
      assert after[..d + 1][0] == last;
      if x in after[..d + 1] && x != last {
        var i :| 0 <= i < d + 1 && after[i] == x;
        assert before[..d][i - 1] == x;
      }
    }
  }

  lemma UseResident(before: seq<nat>, k: nat, tag: nat, since: set<nat>)
    requires Distinct(before) && k < |before| && before[k] != tag && Behind(before, since, tag)
    ensures Behind([before[k]] + (before[..k] + before[k + 1..]), since + {before[k]}, tag)
  {
    var last, d := before[k], |since|;
    var after := [last] + (before[..k] + before[k + 1..]);
    if k < d {
      assert last == before[..d][k];
      assert since + {last} == since;
      forall x
        ensures x in after[..d] <==> x in before[..d]
      {
        RotatedMember(before, k, d, x);
      }
    } else {
      assert last !in before[..d] by {
        assert forall i :: 0 <= i < d ==> before[i] != before[k];
      }
      PrefixGrows(before, after, d, last, since);
    }
  }

  /** A use pushes the oldest tag out of a full stack. */
  lemma LastPushedOut(before: seq<nat>, last: nat)
    requires before != [] && Distinct(before) && last != before[|before| - 1]
    ensures before[|before| - 1] !in ([last] + before)[..|before|]
  {
    var after, d := ([last] + before)[..|before|], |before| - 1;
    forall i | 0 <= i < |after|
      ensures after[i] != before[d]
    {
      assert i > 0 ==> after[i] == before[i - 1] && before[i - 1] != before[d];
    }
  }

  lemma UseAbsent(before: seq<nat>, assoc: nat, last: nat, tag: nat, since: set<nat>)
    requires |before| <= assoc && Distinct(before) && last !in before && Behind(before, since, tag) && assoc > 0
    ensures var after := if |before| < assoc then [last] + before else ([last] + before)[..assoc];
            if |since + {last}| < assoc then Behind(after, since + {last}, tag) else tag !in after
  {
    var d := |since|;
    var after := if |before| < assoc then [last] + before else ([last] + before)[..assoc];
    assert last !in before[..d];
    if d + 1 < assoc {
      PrefixGrows(before, after, d, last, since);
    } else {
      assert last !in since && |since + {last}| == d + 1;
      assert before[d] == tag && |before| == assoc;
      LastPushedOut(before, last);
    }
  }

  lemma UseKeepsDistance(before: seq<nat>, assoc: nat, last: nat, tag: nat, since: set<nat>)
    requires |before| <= assoc && Distinct(before) && last != tag && assoc > 0
    requires if |since| < assoc then Behind(before, since, tag) else tag !in before
    ensures var after := Used(before, last, assoc);
            var since' := since + {last};
            if |since'| < assoc then Behind(after, since', tag) else tag !in after
  {
    if |since| < assoc {
      if last in before {
        var k :| 0 <= k < |before| && before[k] == last;
        WithoutAt(before, k);
        UseResident(before, k, tag, since);
      } else {
        UseAbsent(before, assoc, last, tag, since);
      }
    } else {
      assert since <= since + {last};
      SubsetSize(since, since + {last});
    }
  }

  lemma UsedFirst(before: seq<nat>, assoc: nat, tag: nat)
    requires |before| <= assoc && assoc > 0
    ensures |Used(before, tag, assoc)| > 0 && Used(before, tag, assoc)[0] == tag
  {
  }

  /**
    Stack distance: a used tag sits behind exactly the distinct tags used since, when they are fewer
    than the ways, and has been evicted otherwise.
  */
  lemma {:induction false} StackDistance(trace: seq<nat>, assoc: nat, tag: nat)
    requires assoc > 0 && tag in trace
    ensures var since := UsedSince(trace, tag);
            if |since| < assoc then Behind(Contents(trace, assoc), since, tag) else tag !in Contents(trace, assoc)
  {
    hide Used;
    var n := |trace| - 1;
    var before, last := Contents(trace[..n], assoc), trace[n];
    ContentsDistinct(trace[..n], assoc);
    ContentsDistinct(trace, assoc);
    if last != tag {
      StackDistance(trace[..n], assoc, tag);
      UseKeepsDistance(before, assoc, last, tag, UsedSince(trace[..n], tag));
    } else {
      UsedFirst(before, assoc, tag);
      assert Contents(trace, assoc)[..0] == [];
    }
  }

  /** A tag hits exactly when it was used before and fewer distinct tags than ways were used since. */
  lemma HitIffFewUsedSince(trace: seq<nat>, assoc: nat, tag: nat)
    requires assoc > 0
    ensures tag in Contents(trace, assoc) <==> tag in trace && |UsedSince(trace, tag)| < assoc
  {
    ContentsDistinct(trace, assoc);
    if tag in trace {
      StackDistance(trace, assoc, tag);
    }
  }

  /** Inclusion: whatever hits with some associativity hits with any larger one. */
  lemma MoreWaysHitMore(trace: seq<nat>, assoc: nat, more: nat, tag: nat)
    requires 0 < assoc <= more && tag in Contents(trace, assoc)
    ensures tag in Contents(trace, more)
  {
    HitIffFewUsedSince(trace, assoc, tag);
    HitIffFewUsedSince(trace, more, tag);
  }

  function Tags(stack: seq<Line>): (r: seq<nat>)
    ensures |r| == |stack|
  {
    seq(|stack|, i requires 0 <= i < |stack| => stack[i].tag)
  }

  /** What one access does to the recency stack. */
  function Accessed(stack: seq<Line>, line: Line, assoc: nat): seq<Line>
    requires |stack| <= assoc
  {
    var d := Depth(stack, line.tag);
    if d < |stack| then Touched(stack, d) else Filled(stack, line, assoc)
  }

  lemma AbsentTag(stack: seq<Line>, tag: nat)
    requires Depth(stack, tag) == |stack|
    ensures tag !in Tags(stack)
  {
  }

  lemma TouchUsesTag(stack: seq<Line>, d: nat, assoc: nat)
    requires d < |stack| <= assoc && Distinct(Tags(stack))
    ensures Tags(Touched(stack, d)) == Used(Tags(stack), stack[d].tag, assoc)
  {
    var tags := Tags(stack);
    assert tags[d] == stack[d].tag;
    WithoutAt(tags, d);
    assert Tags(Touched(stack, d)) == [tags[d]] + (tags[..d] + tags[d + 1..]);
  }

  lemma FillUsesTag(stack: seq<Line>, assoc: nat, line: Line)
    requires assoc > 0 && |stack| <= assoc && line.tag !in Tags(stack)
    ensures Tags(Filled(stack, line, assoc)) == Used(Tags(stack), line.tag, assoc)
  {
  }

  lemma AccessUsesTag(stack: seq<Line>, assoc: nat, line: Line)
    requires assoc > 0 && |stack| <= assoc && Distinct(Tags(stack))
    ensures Tags(Accessed(stack, line, assoc)) == Used(Tags(stack), line.tag, assoc)
    ensures Depth(stack, line.tag) < |stack| <==> line.tag in Tags(stack)
  {
    hide Used;
    hide Touched;
    hide Filled;
    var d := Depth(stack, line.tag);
    if d < |stack| {
      assert Tags(stack)[d] == line.tag;
      TouchUsesTag(stack, d, assoc);
    } else {
      AbsentTag(stack, line.tag);
      FillUsesTag(stack, assoc, line);
    }
  }

  /** After any accesses the stack holds exactly the `assoc` most recently used tags, and hits are decided by them. */
  lemma AccessExtendsTrace(stack: seq<Line>, trace: seq<nat>, assoc: nat, line: Line)
    requires assoc > 0 && |stack| <= assoc && Tags(stack) == Contents(trace, assoc)
    ensures Tags(Accessed(stack, line, assoc)) == Contents(trace + [line.tag], assoc)
    ensures Depth(stack, line.tag) < |stack| <==> line.tag in trace && |UsedSince(trace, line.tag)| < assoc
  {
    hide Used;
    assert (trace + [line.tag])[..|trace|] == trace;
    ContentsDistinct(trace, assoc);
    AccessUsesTag(stack, assoc, line);
    HitIffFewUsedSince(trace, assoc, line.tag);
  }
}
