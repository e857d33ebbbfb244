/**
  The register dependency graph kept while loads are in flight: depth-first reachability, deletion of a
  register, and what decoding a load does to the dependencies of every register.
*/
module DependencyGraphs {
  import opened Common

  const RFFLAGS: nat := 64
  const COUNTS: nat := 0x1_0000

  type Graph = map<nat, set<nat>>

  function Sources(g: Graph, n: nat): set<nat> {
    if n in g then g[n] else {}
  }

  /** A non-empty walk along the edges of `g` that meets no node of `avoid`. */
  ghost predicate IsPath(g: Graph, p: seq<nat>, avoid: set<nat>) {
    && p != []
    && (forall i :: 0 <= i < |p| ==> p[i] !in avoid)
    && forall i :: 0 <= i < |p| - 1 ==> p[i + 1] in Sources(g, p[i])
  }

  ghost predicate Reaches(g: Graph, x: nat, y: nat, avoid: set<nat>) {
    exists p :: IsPath(g, p, avoid) && p[0] == x && p[|p| - 1] == y
  }

  /** The registers `x` depends on: everything reachable from it but itself. */
  ghost predicate DependsOn(g: Graph, x: nat, y: nat) {
    y != x && Reaches(g, x, y, {})
  }

  lemma ReachesSelf(g: Graph, x: nat, avoid: set<nat>)
    requires x !in avoid
    ensures Reaches(g, x, x, avoid)
  {
    assert IsPath(g, [x], avoid);
  }

  lemma ReachesVia(g: Graph, x: nat, s: nat, y: nat, avoid: set<nat>)
    requires x !in avoid && s in Sources(g, x) && Reaches(g, s, y, avoid)
    ensures Reaches(g, x, y, avoid)
  {
    var p :| IsPath(g, p, avoid) && p[0] == s && p[|p| - 1] == y;
    var q := [x] + p;
    forall i | 0 <= i < |q| - 1
      ensures q[i + 1] in Sources(g, q[i])
    {
      if i > 0 {
        assert q[i] == p[i - 1] && q[i + 1] == p[i - 1 + 1];
      }
    }
    assert IsPath(g, q, avoid);
  }

  /** A set closed under the edges contains every path that starts in it. */
  lemma {:induction false} ClosedHoldsPaths(g: Graph, closed: set<nat>, p: seq<nat>)
    requires IsPath(g, p, {}) && p[0] in closed
    requires forall n :: n in closed ==> Sources(g, n) <= closed
    ensures p[|p| - 1] in closed
    decreases |p|
  {
    if |p| > 1 {
      var q := p[1..];
      forall i | 0 <= i < |q| - 1
        ensures q[i + 1] in Sources(g, q[i])
      {
        assert p[i + 1 + 1] in Sources(g, p[i + 1]);
      }
      assert p[0 + 1] in Sources(g, p[0]);
      ClosedHoldsPaths(g, closed, q);
    }
  }

  // ---------------------------------------------------------------- deletion

  /** The graph without a register: neither its own sources nor any reference to it. */
  function Without(g: Graph, d: nat): Graph {
    map k | k in g && k != d :: g[k] - {d}
  }

  lemma PathWithout(g: Graph, d: nat, p: seq<nat>, avoid: set<nat>)
    requires p != [] && p[0] != d
    ensures IsPath(Without(g, d), p, avoid) <==> IsPath(g, p, avoid + {d})
  {
    if IsPath(Without(g, d), p, avoid) {
      forall i | 0 <= i < |p|
        ensures p[i] != d
      {
        if i > 0 {
          assert p[i - 1 + 1] in Sources(Without(g, d), p[i - 1]);
        }
      }
      forall i | 0 <= i < |p| - 1
        ensures p[i + 1] in Sources(g, p[i])
      {
        assert p[i + 1] in Sources(Without(g, d), p[i]);
      }
    }
    if IsPath(g, p, avoid + {d}) {
      forall i | 0 <= i < |p| - 1
        ensures p[i + 1] in Sources(Without(g, d), p[i])
      {
        assert p[i + 1] in Sources(g, p[i]);
      }
    }
  }

  /** After deleting `d`, a register reaches exactly what it reached by paths avoiding `d`. */
  lemma DeletionAvoids(g: Graph, d: nat, x: nat, y: nat)
    requires x != d
    ensures Reaches(Without(g, d), x, y, {}) <==> Reaches(g, x, y, {d})
  {
    assert {} + {d} == {d};
    if Reaches(Without(g, d), x, y, {}) {
      var p :| IsPath(Without(g, d), p, {}) && p[0] == x && p[|p| - 1] == y;
      PathWithout(g, d, p, {});
    }
    if Reaches(g, x, y, {d}) {
      var p :| IsPath(g, p, {d}) && p[0] == x && p[|p| - 1] == y;
      PathWithout(g, d, p, {});
    }
  }

  // ---------------------------------------------------------------- decoding a load

  /** The graph after a load into `dst` is decoded: its old entry is gone and `srcs` are its new sources. */
  function AfterLoad(g: Graph, dst: nat, srcs: set<nat>): Graph {
    if srcs == {} then Without(g, dst) else Without(g, dst)[dst := srcs]
  }

  /** The suffix of a path after its last visit to `d`. */
  lemma LastVisit(g: Graph, p: seq<nat>, d: nat) returns (k: nat)
    requires IsPath(g, p, {}) && p[0] == d && p[|p| - 1] != d
    ensures 0 < k < |p| && p[k - 1] == d && IsPath(g, p[k..], {d})
  {
    k := |p| - 1;
    while p[k - 1] != d
      invariant 0 < k < |p|
      invariant forall i :: k <= i < |p| ==> p[i] != d
      decreases k
    {
      k := k - 1;
    }
    forall i | 0 <= i < |p[k..]| - 1
      ensures p[k..][i + 1] in Sources(g, p[k..][i])
    {
      assert p[k + i + 1] in Sources(g, p[k + i]);
    }
  }

  lemma LoadKeepsOthers(g: Graph, dst: nat, srcs: set<nat>, p: seq<nat>)
    requires p != [] && p[0] != dst
    ensures IsPath(AfterLoad(g, dst, srcs), p, {dst}) <==> IsPath(g, p, {dst})
  {
  }

  /** The loaded register depends on its address registers and all they depended on without it. */
  lemma LoadDependencies(g: Graph, dst: nat, srcs: set<nat>, y: nat)
    ensures DependsOn(AfterLoad(g, dst, srcs), dst, y)
            <==> y != dst && exists s :: s in srcs && s != dst && Reaches(g, s, y, {dst})
  {
    var g' := AfterLoad(g, dst, srcs);
    if DependsOn(g', dst, y) {
      var p :| IsPath(g', p, {}) && p[0] == dst && p[|p| - 1] == y;
      var k := LastVisit(g', p, dst);
      assert p[k - 1 + 1] in Sources(g', p[k - 1]);
      LoadKeepsOthers(g, dst, srcs, p[k..]);
      assert Reaches(g, p[k], y, {dst});
    }
    if y != dst && exists s :: s in srcs && s != dst && Reaches(g, s, y, {dst}) {
      var s :| s in srcs && s != dst && Reaches(g, s, y, {dst});
      var p :| IsPath(g, p, {dst}) && p[0] == s && p[|p| - 1] == y;
      LoadKeepsOthers(g, dst, srcs, p);
      assert IsPath(g', p, {});
      ReachesVia(g', dst, s, y, {});
    }
  }

  lemma {:induction false} NeverEnters(g: Graph, dst: nat, srcs: set<nat>, p: seq<nat>, i: nat)
    requires IsPath(AfterLoad(g, dst, srcs), p, {}) && p[0] != dst && i < |p|
    ensures p[i] != dst
  {
    if i > 0 {
      NeverEnters(g, dst, srcs, p, i - 1);
      assert p[i - 1 + 1] in Sources(AfterLoad(g, dst, srcs), p[i - 1]);
    }
  }

  /** Every other register loses exactly the dependencies it had only through the overwritten one. */
  lemma LoadLeavesOthers(g: Graph, dst: nat, srcs: set<nat>, x: nat, y: nat)
    requires x != dst
    ensures DependsOn(AfterLoad(g, dst, srcs), x, y) <==> y != x && Reaches(g, x, y, {dst})
  {
    var g' := AfterLoad(g, dst, srcs);
    if DependsOn(g', x, y) {
      var p :| IsPath(g', p, {}) && p[0] == x && p[|p| - 1] == y;
      forall i | 0 <= i < |p|
        ensures p[i] != dst
      {
        NeverEnters(g, dst, srcs, p, i);
      }
      LoadKeepsOthers(g, dst, srcs, p);
    }
    if Reaches(g, x, y, {dst}) {
      var p :| IsPath(g, p, {dst}) && p[0] == x && p[|p| - 1] == y;
      LoadKeepsOthers(g, dst, srcs, p);
      assert IsPath(g', p, {});
    }
  }

  // ---------------------------------------------------------------- counting dependencies

  ghost function NodesOf(g: Graph): set<nat> {
    g.Keys + set k, n | k in g && n in g[k] :: n
  }

  ghost function Dependencies(g: Graph, x: nat): set<nat> {
    set y | y in NodesOf(g) && DependsOn(g, x, y)
  }

  /** A register depends only on registers of the graph, so its dependencies are finitely many. */
  lemma DependenciesAreNodes(g: Graph, x: nat, y: nat)
    requires DependsOn(g, x, y)
    ensures y in Dependencies(g, x)
  {
    var p :| IsPath(g, p, {}) && p[0] == x && p[|p| - 1] == y;
    var last := |p| - 2;
    assert p[last + 1] in Sources(g, p[last]);
  }

  /** Dependencies of each source, one that several sources share counting for each. */
  ghost function DependencyCount(g: Graph, sources: seq<nat>): nat {
    if sources == [] then 0
    else DependencyCount(g, sources[..|sources| - 1]) + |Dependencies(g, sources[|sources| - 1])|
  }

  // ---------------------------------------------------------------- the mutable graph

  class DependencyGraph {
    var graph: Graph

    constructor ()
      ensures graph == map[]
    {
      graph := map[];
    }

    method AddDependency(dest: nat, src: nat)
      modifies this
      ensures graph == old(graph)[dest := Sources(old(graph), dest) + {src}]
    {
      if dest !in graph {
        graph := graph[dest := {}];
      }
      graph := graph[dest := graph[dest] + {src}];
    }

    method DeleteDestination(dest: nat)
      modifies this
      ensures graph == Without(old(graph), dest)
      ensures forall x, y :: x != dest ==> (DependsOn(graph, x, y) <==> y != x && Reaches(old(graph), x, y, {dest}))
    {
      var g := graph;
      graph := graph - {dest};
      var rest := graph.Keys;
      while rest != {}
        invariant graph.Keys == g.Keys - {dest} && rest <= graph.Keys
        invariant forall k :: k in graph ==> graph[k] == if k in rest then g[k] else g[k] - {dest}
        decreases rest
      {
        var key :| key in rest;
        graph := graph[key := graph[key] - {dest}];
        rest := rest - {key};
      }
      forall x, y | x != dest
        ensures DependsOn(graph, x, y) <==> y != x && Reaches(g, x, y, {dest})
      {
        DeletionAvoids(g, dest, x, y);
      }
    }

    ghost function Nodes(): set<nat>
      reads this
    {
      NodesOf(graph)
    }

    /** Adds to `visited` what is reachable from `node`; nodes visited before are not entered again. */
    method Dfs(node: nat, visited: set<nat>, ghost universe: set<nat>) returns (v: set<nat>)
      requires node in universe && Nodes() <= universe
      decreases universe - visited
      ensures visited <= v && node in v
      ensures forall n :: n in v && n !in visited ==> Sources(graph, n) <= v && Reaches(graph, node, n, {})
    {
      v := visited;
      if node in visited {
        return;
      }
      v := v + {node};
      ReachesSelf(graph, node, {});
      if node in graph {
        var rest := graph[node];
        while rest != {}
          invariant visited + {node} <= v && rest <= graph[node]
          invariant graph[node] - rest <= v
          invariant forall n :: n in v && n !in visited ==> Reaches(graph, node, n, {})
          invariant forall n :: n in v && n !in visited && n != node ==> Sources(graph, n) <= v
          decreases rest
        {
          var src :| src in rest;
          ghost var before := v;
          v := Dfs(src, v, universe);
          forall n | n in v && n !in before
            ensures Reaches(graph, node, n, {})
          {
            ReachesVia(graph, node, src, n, {});
          }
          rest := rest - {src};
        }
      }
    }

    method GetAllDependencies(dest: nat) returns (deps: set<nat>)
      ensures forall y :: y in deps <==> DependsOn(graph, dest, y)
    {
      var visited := Dfs(dest, {}, Nodes() + {dest});
      deps := visited - {dest};
      forall y | DependsOn(graph, dest, y)
        ensures y in deps
      {
        var p :| IsPath(graph, p, {}) && p[0] == dest && p[|p| - 1] == y;
        ClosedHoldsPaths(graph, visited, p);
      }
    }

    /** The graph part of decoding a load. */
    method DecodeLoad(dst: nat, sources: seq<nat>)
      modifies this
      ensures graph == AfterLoad(old(graph), dst, Elements(sources))
    {
      ghost var g := graph;
      DeleteDestination(dst);
      for i := 0 to |sources|
        invariant graph == AfterLoad(g, dst, Elements(sources[..i]))
      {
        assert Elements(sources[..i + 1]) == Elements(sources[..i]) + {sources[i]};
        AddDependency(dst, sources[i]);
      }
      assert sources[..|sources|] == sources;
    }

    /** How many registers one register depends on. */
    method CountDependencies(src: nat) returns (n: nat)
      ensures n == |Dependencies(graph, src)|
    {
      var dependencies := GetAllDependencies(src);
      forall y | DependsOn(graph, src, y)
        ensures y in Dependencies(graph, src)
      {
        DependenciesAreNodes(graph, src, y);
      }
      hide DependsOn;
      assert dependencies == Dependencies(graph, src);
      n := |dependencies|;
    }

    /** Decoding a conditional branch counts the dependencies of its sources in 16 bits. */
    method DecodeBranch(sources: seq<nat>) returns (loadCount: nat)
      ensures loadCount == if sources == [] || sources == [RFFLAGS] then 0 else DependencyCount(graph, sources) % COUNTS
    {
      hide Dependencies;
      loadCount := 0;
      if !(sources == [] || (|sources| == 1 && sources[0] == RFFLAGS)) {
        for i := 0 to |sources|
          invariant loadCount == DependencyCount(graph, sources[..i]) % COUNTS
        {
          var n := CountDependencies(sources[i]);
          assert sources[..i + 1][..i] == sources[..i];
          loadCount := (loadCount + n) % COUNTS;
        }
        assert sources[..|sources|] == sources;
      }
    }
  }

  /** A register without sources depends on nothing. */
  lemma OnlySourcesLead(g: Graph, x: nat)
    requires x !in g
    ensures forall y :: !DependsOn(g, x, y)
  {
    forall p | IsPath(g, p, {}) && p[0] == x
      ensures p[|p| - 1] == x
    {
      assert |p| > 1 ==> p[0 + 1] in Sources(g, p[0]);
    }
  }

  lemma {:induction false} NothingToCount(g: Graph, sources: seq<nat>)
    requires forall i :: 0 <= i < |sources| ==> sources[i] !in g
    ensures DependencyCount(g, sources) == 0
  {
    if sources != [] {
      NothingToCount(g, sources[..|sources| - 1]);
      OnlySourcesLead(g, sources[|sources| - 1]);
      assert Dependencies(g, sources[|sources| - 1]) == {};
    }
  }

  // ---------------------------------------------------------------- loads in flight

  /** What the predictor hears of loads: the destination register of each at decode and at commit. */
  datatype LoadEvent = Decoded(dst: nat) | Committed(dst: nat)

  /** `registers_in_flight` after these events. */
  function InFlight(events: seq<LoadEvent>): set<nat> {
    if events == [] then {}
    else
      var before, e := InFlight(events[..|events| - 1]), events[|events| - 1];
      if e.Decoded? then before + {e.dst} else before - {e.dst}
  }

  /** The destinations of the loads decoded and not committed, one for each load. */
  function Uncommitted(events: seq<LoadEvent>): multiset<nat> {
    if events == [] then multiset{}
    else
      var before, e := Uncommitted(events[..|events| - 1]), events[|events| - 1];
      if e.Decoded? then before + multiset{e.dst} else before - multiset{e.dst}
  }

  /** Only loads that were decoded commit. */
  ghost predicate LoadsOk(events: seq<LoadEvent>) {
    events == [] || (
      var before, e := events[..|events| - 1], events[|events| - 1];
      LoadsOk(before) && (e.Committed? ==> e.dst in Uncommitted(before)))
  }

  /** What is marked in flight is what uncommitted loads will write. */
  ghost predicate MarkedRight(events: seq<LoadEvent>) {
    forall r :: r in InFlight(events) <==> r in Uncommitted(events)
  }

  /** So it was at every moment. */
  ghost predicate AlwaysRight(events: seq<LoadEvent>) {
    MarkedRight(events) && (events == [] || AlwaysRight(events[..|events| - 1]))
  }

  /** No load commits while another load of the same register is uncommitted. */
  ghost predicate CommitsAlone(events: seq<LoadEvent>) {
    events == [] || (
      var before, e := events[..|events| - 1], events[|events| - 1];
      CommitsAlone(before) && (e.Committed? ==> Uncommitted(before)[e.dst] == 1))
  }

  lemma OneMore(events: seq<LoadEvent>, e: LoadEvent)
    ensures InFlight(events + [e]) == if e.Decoded? then InFlight(events) + {e.dst} else InFlight(events) - {e.dst}
    ensures Uncommitted(events + [e])
            == if e.Decoded? then Uncommitted(events) + multiset{e.dst} else Uncommitted(events) - multiset{e.dst}
  {
    assert (events + [e])[..|events|] == events;
  }

  lemma LastEvent(events: seq<LoadEvent>, e: LoadEvent)
    requires MarkedRight(events) && (e.Committed? ==> e.dst in Uncommitted(events))
    ensures MarkedRight(events + [e]) <==> (e.Committed? ==> Uncommitted(events)[e.dst] == 1)
  {
    OneMore(events, e);
    hide InFlight;
    hide Uncommitted;
    var before, after := Uncommitted(events), Uncommitted(events + [e]);
    assert forall r :: r != e.dst ==> after[r] == before[r];
    assert e.Committed? ==> after[e.dst] == before[e.dst] - 1 && e.dst !in InFlight(events + [e]);
  }

  /**
    The registers marked in flight are at every moment those that uncommitted loads will write, exactly when no
    load commits before another of the same register: the commit takes the mark away from both.
  */
  lemma {:induction false} MarkedRightIff(events: seq<LoadEvent>)
    requires LoadsOk(events)
    ensures AlwaysRight(events) <==> CommitsAlone(events)
  {
    if events != [] {
      var before, e := events[..|events| - 1], events[|events| - 1];
      assert events == before + [e];
      MarkedRightIff(before);
      hide Uncommitted;
      hide MarkedRight;
      if AlwaysRight(before) {
        LastEvent(before, e);
      }
    }
  }

  /** Two loads of one register: once one has committed, nothing is marked though the other is still to come. */
  lemma SharedRegisterFails()
    ensures var events := [Decoded(5), Decoded(5), Committed(5)];
            LoadsOk(events) && InFlight(events) == {} && 5 in Uncommitted(events)
  {
    var one, two := [Decoded(5)], [Decoded(5), Decoded(5)];
    var all := [Decoded(5), Decoded(5), Committed(5)];
    assert one[..0] == [] && two[..1] == one && all[..2] == two;
  }

  /** The graph, and the registers that are marked as being loaded. */
  class LoadTracker {
    const depGraph: DependencyGraph
    var inFlight: set<nat>
    ghost var events: seq<LoadEvent>

    /** Only marked registers have sources in the graph. */
    ghost predicate Valid()
      reads this, depGraph
    {
      inFlight == InFlight(events) && depGraph.graph.Keys <= inFlight
    }

    constructor ()
      ensures Valid() && fresh(depGraph) && events == []
    {
      depGraph := new DependencyGraph();
      inFlight, events := {}, [];
    }

    /** Without a destination register the original throws before it changes anything. */
    method DecodeLoad(dst: Option<nat>, sources: seq<nat>) returns (ok: bool)
      requires Valid()
      modifies this, depGraph
      ensures Valid() && (ok <==> dst.Some?)
      ensures !ok ==> unchanged(this) && unchanged(depGraph)
      ensures ok ==>
                && events == old(events) + [Decoded(dst.value)] && inFlight == old(inFlight) + {dst.value}
                && depGraph.graph == AfterLoad(old(depGraph.graph), dst.value, Elements(sources))
    {
      ok := dst.Some?;
      if ok {
        inFlight, events := inFlight + {dst.value}, events + [Decoded(dst.value)];
        depGraph.DecodeLoad(dst.value, sources);
      }
    }

    method CommitLoad(dst: Option<nat>) returns (ok: bool)
      requires Valid()
      modifies this, depGraph
      ensures Valid() && (ok <==> dst.Some?)
      ensures !ok ==> unchanged(this) && unchanged(depGraph)
      ensures ok ==>
                && events == old(events) + [Committed(dst.value)] && inFlight == old(inFlight) - {dst.value}
                && depGraph.graph == Without(old(depGraph.graph), dst.value)
    {
      ok := dst.Some?;
      if ok {
        depGraph.DeleteDestination(dst.value);
        inFlight, events := inFlight - {dst.value}, events + [Committed(dst.value)];
      }
    }

    /** Whether a branch has a marked source; if none of its sources is marked it counts no dependency either. */
    method LoadDependent(sources: seq<nat>) returns (dependent: bool)
      requires Valid()
      ensures dependent <==> sources != [RFFLAGS] && exists i :: 0 <= i < |sources| && sources[i] in inFlight
      ensures !dependent && sources != [RFFLAGS] ==> DependencyCount(depGraph.graph, sources) == 0
    {
      dependent := false;
      if !(sources == [] || (|sources| == 1 && sources[0] == RFFLAGS)) {
        for i := 0 to |sources|
          invariant dependent <==> exists j :: 0 <= j < i && sources[j] in inFlight
        {
          dependent := dependent || sources[i] in inFlight;
        }
      }
      if !dependent && sources != [RFFLAGS] {
        NothingToCount(depGraph.graph, sources);
      }
    }
  }
}
