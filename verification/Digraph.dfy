/** Finite directed graphs as the sources hold them: an insertion-ordered mapping from a declared node to
    the sequence of its targets. A target that is not declared is a dangling edge and every reader ignores it. */
module Digraph {
  import opened Sorting

  type Node = string

  datatype Graph = Graph(keys: seq<Node>, targets: map<Node, seq<Node>>)

  ghost predicate Valid(g: Graph) {
    NoDup(g.keys) && forall n :: n in g.keys <==> n in g.targets
  }

  predicate Edge(g: Graph, u: Node, v: Node) {
    u in g.targets && v in g.targets && v in g.targets[u]
  }

  /** The edges as sets, dangling ones dropped: the form is_acyclic and waves peel. */
  function Declared(g: Graph, n: Node): (r: set<Node>)
    requires n in g.targets
    ensures forall v :: v in r <==> Edge(g, n, v)
  {
    set v | v in g.targets[n] && v in g.targets
  }

  ghost predicate IsWalk(g: Graph, p: seq<Node>) {
    && p != []
    && (forall i :: 0 <= i < |p| ==> p[i] in g.targets)
    && (forall i :: 0 <= i < |p| - 1 ==> Edge(g, p[i], p[i + 1]))
  }

  ghost predicate ClosedWalk(g: Graph, p: seq<Node>) {
    IsWalk(g, p) && |p| >= 2 && p[0] == p[|p| - 1]
  }

  ghost predicate Acyclic(g: Graph) {
    forall p :: !ClosedWalk(g, p)
  }

  /** A tuple of distinct declared nodes in which each leads to the next and the last leads to the first. */
  ghost predicate SimpleCycle(g: Graph, c: seq<Node>) {
    IsWalk(g, c) && NoDup(c) && Edge(g, c[|c| - 1], c[0])
  }

  lemma SimpleCycleCloses(g: Graph, c: seq<Node>)
    requires SimpleCycle(g, c)
    ensures ClosedWalk(g, c + [c[0]])
  {
  }

  lemma WalkSlice(g: Graph, p: seq<Node>, i: nat, j: nat)
    requires IsWalk(g, p) && i < j <= |p|
    ensures IsWalk(g, p[i..j])
  {
  }

  lemma WalkJoin(g: Graph, p: seq<Node>, q: seq<Node>)
    requires IsWalk(g, p) && IsWalk(g, q) && Edge(g, p[|p| - 1], q[0])
    ensures IsWalk(g, p + q)
  {
  }

  /** Pigeonhole: a walk with more entries than declared nodes passes some node twice. */
  lemma LongWalkRepeats(g: Graph, p: seq<Node>)
    requires IsWalk(g, p) && |p| > |g.targets|
    ensures exists i, j :: 0 <= i < j < |p| && p[i] == p[j]
    ensures !Acyclic(g)
  {
    if NoDup(p) {
      NoDupFits(p, g.targets.Keys);
      assert false;
    }
    var i, j :| 0 <= i < j < |p| && p[i] == p[j];
    WalkSlice(g, p, i, j + 1);
    assert ClosedWalk(g, p[i..j + 1]);
  }

  /** A numbering that falls at every step of a walk falls by at least its length. */
  lemma {:induction false} RankFalls(rank: map<Node, int>, p: seq<Node>)
    requires p != [] && forall n :: n in p ==> n in rank
    requires forall i :: 0 <= i < |p| - 1 ==> rank[p[i + 1]] < rank[p[i]]
    ensures rank[p[|p| - 1]] <= rank[p[0]] - (|p| - 1)
  {
    if |p| > 1 {
      RankFalls(rank, p[1..]);
    }
  }

  lemma RankedIsAcyclic(g: Graph, rank: map<Node, int>)
    requires g.targets.Keys <= rank.Keys
    requires forall u, v :: Edge(g, u, v) ==> rank[v] < rank[u]
    ensures Acyclic(g)
  {
    forall p | ClosedWalk(g, p) ensures false {
      RankFalls(rank, p);
    }
  }

  // ----- peeling ---------------------------------------------------------------

  /** The nodes whose every chain of dependencies has fewer than k edges; one round of peeling per k. */
  ghost function Peeled(g: Graph, k: nat): set<Node> {
    if k == 0 then {} else set n | n in g.targets && Declared(g, n) <= Peeled(g, k - 1)
  }

  lemma {:induction false} PeeledGrows(g: Graph, k: nat)
    ensures Peeled(g, k) <= Peeled(g, k + 1) <= g.targets.Keys
  {
    if k > 0 {
      PeeledGrows(g, k - 1);
    }
  }

  lemma {:induction false} PeeledMonotone(g: Graph, j: nat, k: nat)
    requires j <= k
    ensures Peeled(g, j) <= Peeled(g, k)
    decreases k - j
  {
    if j < k {
      PeeledGrows(g, j);
      PeeledMonotone(g, j + 1, k);
    }
  }

  ghost predicate ChainFrom(g: Graph, n: Node, p: seq<Node>, edges: nat) {
    IsWalk(g, p) && p[0] == n && |p| == edges + 1
  }

  ghost predicate HasChain(g: Graph, n: Node, edges: nat) {
    exists p :: ChainFrom(g, n, p, edges)
  }

  /** The longest dependency chain that starts at n has exactly this many edges. */
  ghost predicate LongestChain(g: Graph, n: Node, edges: nat) {
    HasChain(g, n, edges) && !HasChain(g, n, edges + 1)
  }

  lemma {:induction false} PeeledMeansShortChains(g: Graph, n: Node, k: nat)
    requires n in g.targets
    ensures n in Peeled(g, k) <==> !HasChain(g, n, k)
    decreases k
  {
    if k == 0 {
      assert ChainFrom(g, n, [n], 0);
    } else {
      if n in Peeled(g, k) && HasChain(g, n, k) {
        var p :| ChainFrom(g, n, p, k);
        WalkSlice(g, p, 1, |p|);
        assert Edge(g, p[0], p[1]);
        assert ChainFrom(g, p[1], p[1..], k - 1);
        PeeledMeansShortChains(g, p[1], k - 1);
        assert false;
      }
      if n !in Peeled(g, k) {
        var m :| m in Declared(g, n) && m !in Peeled(g, k - 1);
        PeeledMeansShortChains(g, m, k - 1);
        var q :| ChainFrom(g, m, q, k - 1);
        WalkJoin(g, [n], q);
        assert ChainFrom(g, n, [n] + q, k);
      }
    }
  }

  /** When a round peels nothing, the nodes left over each keep an edge into the leftover. */
  lemma {:induction false} StuckForever(g: Graph, k: nat, j: nat)
    requires Peeled(g, k + 1) == Peeled(g, k) && k <= j
    ensures Peeled(g, j) == Peeled(g, k)
    decreases j - k
  {
    if k < j {
      assert Peeled(g, k + 2) == Peeled(g, k + 1);
      StuckForever(g, k + 1, j);
    }
  }

  ghost predicate ReachesCycle(g: Graph, n: Node) {
    exists p, i: nat :: IsWalk(g, p) && p[0] == n && i < |p| - 1 && p[i] == p[|p| - 1]
  }

  ghost predicate OnCycle(g: Graph, n: Node) {
    exists p :: ClosedWalk(g, p) && p[0] == n
  }

  /** No node off the cycles has an edge to a node on one. */
  ghost predicate SourcesAreOn(g: Graph) {
    forall u, v :: Edge(g, u, v) && OnCycle(g, v) ==> OnCycle(g, u)
  }

  lemma OnCycleHasSource(g: Graph, n: Node)
    requires OnCycle(g, n)
    ensures exists u :: Edge(g, u, n)
  {
    var p :| ClosedWalk(g, p) && p[0] == n;
    assert Edge(g, p[|p| - 2], p[|p| - 2 + 1]);
  }

  lemma SourceReachesCycle(g: Graph, u: Node, v: Node)
    requires Edge(g, u, v) && OnCycle(g, v)
    ensures ReachesCycle(g, u)
  {
    var p :| ClosedWalk(g, p) && p[0] == v;
    var q := [u] + p;
    WalkJoin(g, [u], p);
    assert q[0] == u && 1 < |q| - 1 && q[1] == q[|q| - 1];
  }

  /** Where whatever depends on a cycle is on one, so is every walk that ends on one. */
  lemma {:induction false} BackOntoCycle(g: Graph, p: seq<Node>, i: nat)
    requires SourcesAreOn(g)
    requires IsWalk(g, p) && i < |p| && OnCycle(g, p[i])
    ensures OnCycle(g, p[0])
    decreases i
  {
    if i > 0 {
      assert Edge(g, p[i - 1], p[i - 1 + 1]);
      BackOntoCycle(g, p, i - 1);
    }
  }

  /** All nodes that reach a cycle are on one exactly when no node off the cycles has an edge to a node on one. */
  lemma ReachingIsOnIff(g: Graph)
    ensures (forall n :: ReachesCycle(g, n) ==> OnCycle(g, n)) <==> SourcesAreOn(g)
  {
    forall u, v | Edge(g, u, v) && OnCycle(g, v) ensures ReachesCycle(g, u) {
      SourceReachesCycle(g, u, v);
    }
    if SourcesAreOn(g) {
      forall n | ReachesCycle(g, n) ensures OnCycle(g, n) {
        ReachingIsOn(g, n);
      }
    }
  }

  lemma ReachingIsOn(g: Graph, n: Node)
    requires SourcesAreOn(g) && ReachesCycle(g, n)
    ensures OnCycle(g, n)
  {
    var p, i := WalkOntoCycle(g, n);
    BackOntoCycle(g, p, i);
  }

  lemma WalkOntoCycle(g: Graph, n: Node) returns (p: seq<Node>, i: nat)
    requires ReachesCycle(g, n)
    ensures IsWalk(g, p) && p[0] == n && i < |p| && OnCycle(g, p[i])
  {
    p, i :| IsWalk(g, p) && p[0] == n && i < |p| - 1 && p[i] == p[|p| - 1];
    var q := p[i..|p|];
    WalkSlice(g, p, i, |p|);
    assert ClosedWalk(g, q) && q[0] == p[i];
  }

  /** A node with a chain as long as the graph is large runs into a closed walk, and only such a node does. */
  lemma {:induction false} LongChainReachesCycle(g: Graph, n: Node)
    requires n in g.targets
    ensures ReachesCycle(g, n) <==> HasChain(g, n, |g.targets|)
  {
    if HasChain(g, n, |g.targets|) {
      var p :| ChainFrom(g, n, p, |g.targets|);
      LongWalkRepeats(g, p);
      var i, j :| 0 <= i < j < |p| && p[i] == p[j];
      WalkSlice(g, p, 0, j + 1);
      assert p[..j + 1] == p[0..j + 1];
      var q := p[..j + 1];
      assert IsWalk(g, q) && q[0] == n && i < |q| - 1 && q[i] == q[|q| - 1];
    }
    if ReachesCycle(g, n) {
      CycleGivesAnyChain(g, n, |g.targets|);
    }
  }

  lemma {:induction false} CycleGivesAnyChain(g: Graph, n: Node, k: nat)
    requires ReachesCycle(g, n)
    ensures HasChain(g, n, k)
    decreases k
  {
    if k == 0 {
      assert ChainFrom(g, n, [n], 0);
    } else {
      var p, i: nat :| IsWalk(g, p) && p[0] == n && i < |p| - 1 && p[i] == p[|p| - 1];
      var m := p[1];
      assert Edge(g, p[0], p[1]);
      WalkSlice(g, p, 1, |p|);
      if i > 0 {
        var q := p[1..];
        assert IsWalk(g, q) && q[0] == m && i - 1 < |q| - 1 && q[i - 1] == q[|q| - 1];
      } else {
        // the walk starts on the cycle: go round once more
        WalkJoin(g, p[1..], [m]);
        var q := p[1..] + [m];
        assert IsWalk(g, q) && q[0] == m && 0 < |q| - 1 && q[0] == q[|q| - 1];
      }
      CycleGivesAnyChain(g, m, k - 1);
      var r :| ChainFrom(g, m, r, k - 1);
      WalkJoin(g, [n], r);
      assert ChainFrom(g, n, [n] + r, k);
    }
  }

  lemma LeftoverReachesCycle(g: Graph, k: nat, n: Node)
    requires Peeled(g, k + 1) == Peeled(g, k) && n in g.targets
    ensures n !in Peeled(g, k) <==> ReachesCycle(g, n)
  {
    var top := |g.targets|;
    LongChainReachesCycle(g, n);
    PeeledMeansShortChains(g, n, top);
    if k <= top {
      StuckForever(g, k, top);
    } else {
      PeeledMonotone(g, top, k);
      if ReachesCycle(g, n) {
        CycleGivesAnyChain(g, n, k);
        PeeledMeansShortChains(g, n, k);
      }
    }
  }

  lemma AcyclicIffNoneReaches(g: Graph)
    ensures Acyclic(g) <==> forall n :: n in g.targets ==> !ReachesCycle(g, n)
  {
    if p :| ClosedWalk(g, p) {
      assert p[0] in g.targets && ReachesCycle(g, p[0]) by {
        assert IsWalk(g, p) && 0 < |p| - 1 && p[0] == p[|p| - 1];
      }
    }
    if n :| n in g.targets && ReachesCycle(g, n) {
      var p, i: nat :| IsWalk(g, p) && p[0] == n && i < |p| - 1 && p[i] == p[|p| - 1];
      WalkSlice(g, p, i, |p|);
      assert ClosedWalk(g, p[i..|p|]);
    }
  }

  /** Once a round peels nothing: everything has been peeled exactly when the graph has no closed walk. */
  lemma AllPeeledIffAcyclic(g: Graph, k: nat)
    requires Peeled(g, k + 1) == Peeled(g, k)
    ensures Peeled(g, k) == g.targets.Keys <==> Acyclic(g)
  {
    PeeledGrows(g, k);
    AcyclicIffNoneReaches(g);
    forall n | n in g.targets ensures n !in Peeled(g, k) <==> ReachesCycle(g, n) {
      LeftoverReachesCycle(g, k, n);
    }
  }

  /** No layering that respects dependencies places a node earlier than peeling does. */
  lemma {:induction false} PeelingIsLeast(g: Graph, layer: map<Node, nat>, n: Node)
    requires n in layer && layer.Keys <= g.targets.Keys
    requires forall u, v :: u in layer && Edge(g, u, v) ==> v in layer && layer[v] < layer[u]
    ensures n in Peeled(g, layer[n] + 1)
    decreases layer[n]
  {
    forall m | m in Declared(g, n) ensures m in Peeled(g, layer[n]) {
      assert Edge(g, n, m);
      PeelingIsLeast(g, layer, m);
      PeeledMonotone(g, layer[m] + 1, layer[n]);
    }
  }
}
