/** When every cycle is reported: the exact condition, over the orders in which nodes and targets may be listed. */
module CycleOrder {
  import opened Sorting
  import opened Digraph
  import opened Dag

  // ----- cycles and their edges -------------------------------------------------------------

  /** The cycle steps from u to v, inside the tuple or from its last node to its first. */
  ghost predicate Steps(c: seq<Node>, u: Node, v: Node) {
    || (exists i :: 0 <= i < |c| - 1 && c[i] == u && c[i + 1] == v)
    || (c != [] && c[|c| - 1] == u && c[0] == v)
  }

  /** No edge lies on two simple cycles with different node sets. */
  ghost predicate EdgesTellCycles(g: Graph) {
    forall a, b, u, v :: SimpleCycle(g, a) && SimpleCycle(g, b) && Steps(a, u, v) && Steps(b, u, v) ==>
      Elems(a) == Elems(b)
  }

  ghost predicate Reported(g: Graph, c: seq<Node>)
    requires Valid(g)
  {
    exists r :: r in Cycles(g) && Elems(r) == Elems(c)
  }

  ghost predicate EveryCycleReported(g: Graph)
    requires Valid(g)
  {
    forall c :: SimpleCycle(g, c) ==> Reported(g, c)
  }

  /** The same mapping, its nodes and each node's targets listed in another order. */
  ghost predicate Relisted(g: Graph, h: Graph) {
    && Valid(h) && multiset(h.keys) == multiset(g.keys) && h.targets.Keys == g.targets.Keys
    && forall n :: n in g.targets ==> multiset(h.targets[n]) == multiset(g.targets[n])
  }

  lemma RelistedEdges(g: Graph, h: Graph)
    requires Relisted(g, h)
    ensures forall u, v :: Edge(g, u, v) <==> Edge(h, u, v)
    ensures forall c :: SimpleCycle(g, c) <==> SimpleCycle(h, c)
  {
    forall n | n in g.targets ensures forall v :: v in g.targets[n] <==> v in h.targets[n] {
      SameElements(g.targets[n], h.targets[n]);
    }
    forall c ensures SimpleCycle(g, c) <==> SimpleCycle(h, c) {
      SameWalks(g, h, c);
    }
  }

  lemma SameWalks(g: Graph, h: Graph, c: seq<Node>)
    requires g.targets.Keys == h.targets.Keys && forall u, v :: Edge(g, u, v) <==> Edge(h, u, v)
    ensures SimpleCycle(g, c) <==> SimpleCycle(h, c)
  {
    assert IsWalk(g, c) <==> IsWalk(h, c);
  }

  /** A cycle told apart from others by its edges is reported, whatever the order. */
  lemma ToldApartIsReported(g: Graph, c: seq<Node>)
    requires Valid(g) && EdgesTellCycles(g) && SimpleCycle(g, c)
    ensures Reported(g, c)
  {
    var p := c + [c[0]];
    SimpleCycleCloses(g, c);
    ReportsCutEveryClosedWalk(g, p);
    var i :| 0 <= i < |p| - 1 && Closing(Cycles(g), p[i], p[i + 1]);
    var r :| r in Cycles(g) && r != [] && r[|r| - 1] == p[i] && r[0] == p[i + 1];
    ReportedCyclesAreGenuine(g);
    assert Steps(r, p[i], p[i + 1]);
    if i < |c| - 1 {
      assert c[i] == p[i] && c[i + 1] == p[i + 1];
    }
    assert Steps(c, p[i], p[i + 1]);
  }

  // ----- a walk that starts along one cycle ---------------------------------------------------

  /** While the first node of c is on the stack it is its bottom, and while the last one is too, c lies beneath. */
  ghost predicate OnTrack(c: seq<Node>, stack: seq<Node>) {
    && c != []
    && (c[0] in stack ==> stack[0] == c[0])
    && (c[0] in stack && c[|c| - 1] in stack ==> c <= stack)
  }

  /** A report with both ends of c holds all of c. */
  ghost predicate HoldsAll(c: seq<Node>, found: seq<seq<Node>>) {
    c != [] && forall r :: r in found && c[0] in r && c[|c| - 1] in r ==> Elems(c) <= Elems(r)
  }

  lemma ReportOnTrack(c: seq<Node>, st: Dfs, neighbor: Node)
    requires c != [] && NoDup(st.stack) && neighbor in st.stack && OnTrack(c, st.stack) && HoldsAll(c, st.found)
    ensures HoldsAll(c, Report(st, neighbor).found)
  {
    var k := IndexOf(st.stack, neighbor);
    var r := st.stack[k..];
    if c[0] in r && c[|c| - 1] in r {
      var at :| 0 <= at < |r| && r[at] == c[0];
      assert st.stack[k + at] == c[0] && st.stack[0] == c[0];
      assert k == 0 && r == st.stack;
      forall x | x in c ensures x in r {
        var j :| 0 <= j < |c| && c[j] == x;
        assert r[j] == x;
      }
    }
  }

  /** Both ends of c have been entered. */
  ghost predicate PastEnds(c: seq<Node>, st: Dfs) {
    && c != [] && c[0] in st.color && c[|c| - 1] in st.color
    && !st.color[c[0]].White? && !st.color[c[|c| - 1]].White?
  }

  ghost predicate Tracks(g: Graph, c: seq<Node>, st: Dfs) {
    StackIsGray(g, st) && PastEnds(c, st) && OnTrack(c, st.stack) && HoldsAll(c, st.found)
  }

  lemma StillPast(g: Graph, c: seq<Node>, st: Dfs, next: Dfs)
    requires StackIsGray(g, st) && StackIsGray(g, next) && PastEnds(c, st) && Whites(next) <= Whites(st)
    ensures PastEnds(c, next)
  {
    assert c[0] !in Whites(st) && c[|c| - 1] !in Whites(st);
  }

  lemma {:induction false} WalkTracks(g: Graph, c: seq<Node>, st: Dfs, node: Node)
    requires Tracks(g, c, st) && node in st.color && st.color[node].White?
    ensures Tracks(g, c, Walk(g, st, node))
    decreases Whites(st), 0
  {
    var inside := Enter(st, node);
    assert node in Whites(st) && node !in Whites(inside);
    assert node != c[0] && node != c[|c| - 1];
    assert StackIsGray(g, inside);
    TargetsTrack(g, c, inside, g.targets[node]);
    StillPast(g, c, st, Walk(g, st, node));
  }

  lemma {:induction false} TargetsTrack(g: Graph, c: seq<Node>, st: Dfs, rest: seq<Node>)
    requires Tracks(g, c, st)
    ensures Tracks(g, c, WalkTargets(g, st, rest))
    decreases Whites(st), 1 + |rest|
  {
    if rest != [] {
      var neighbor := rest[0];
      if neighbor !in st.color {
        TargetsTrack(g, c, st, rest[1..]);
      } else if st.color[neighbor].White? {
        WalkTracks(g, c, st, neighbor);
        TargetsTrack(g, c, Walk(g, st, neighbor), rest[1..]);
      } else if st.color[neighbor].Gray? {
        ReportOnTrack(c, st, neighbor);
        TargetsTrack(g, c, Report(st, neighbor), rest[1..]);
      } else {
        TargetsTrack(g, c, st, rest[1..]);
      }
    }
  }

  lemma {:induction false} AllTrack(g: Graph, c: seq<Node>, st: Dfs, rest: seq<Node>)
    requires Tracks(g, c, st) && forall n :: n in rest ==> n in g.targets
    ensures Tracks(g, c, WalkAll(g, st, rest))
    decreases |rest|
  {
    if rest != [] {
      if st.color[rest[0]].White? {
        WalkTracks(g, c, st, rest[0]);
      }
      AllTrack(g, c, if st.color[rest[0]].White? then Walk(g, st, rest[0]) else st, rest[1..]);
    }
  }

  /** Each node of c lists the next one first. */
  ghost predicate LeadsAlong(g: Graph, c: seq<Node>) {
    && c != [] && NoDup(c) && (forall n :: n in c ==> n in g.targets)
    && forall i :: 0 <= i < |c| - 1 ==> g.targets[c[i]] != [] && g.targets[c[i]][0] == c[i + 1]
  }

  /** k nodes down along c, with nothing found and the rest of c unvisited. */
  ghost predicate Descending(g: Graph, c: seq<Node>, st: Dfs, k: nat) {
    && StackIsGray(g, st) && k < |c| && st.stack == c[..k] && st.found == []
    && forall i :: k <= i < |c| ==> c[i] in st.color && st.color[c[i]].White?
  }

  lemma EnterAlong(g: Graph, c: seq<Node>, st: Dfs, k: nat)
    requires LeadsAlong(g, c) && Descending(g, c, st, k)
    ensures var inside := Enter(st, c[k]);
      && StackIsGray(g, inside) && inside.stack == c[..k + 1] && Whites(inside) < Whites(st)
      && (k < |c| - 1 ==> Descending(g, c, inside, k + 1))
      && (k == |c| - 1 ==> Tracks(g, c, inside))
  {
    var inside := Enter(st, c[k]);
    assert c[k] in Whites(st) && c[k] !in Whites(inside);
    assert inside.stack == c[..k + 1];
    if k == |c| - 1 {
      assert inside.stack == c && c[0] in inside.stack;
    }
  }

  lemma TracksAgain(g: Graph, c: seq<Node>, st: Dfs, k: nat)
    requires LeadsAlong(g, c) && StackIsGray(g, st) && 1 <= k < |c| && st.stack == c[..k] && HoldsAll(c, st.found)
    requires c[|c| - 1] in st.color && !st.color[c[|c| - 1]].White?
    ensures Tracks(g, c, st)
  {
    assert st.stack[0] == c[0] && c[0] in st.stack;
    assert c[|c| - 1] !in st.stack;
  }

  lemma {:induction false} DescentTracks(g: Graph, c: seq<Node>, st: Dfs, k: nat)
    requires LeadsAlong(g, c) && Descending(g, c, st, k)
    ensures var r := Walk(g, st, c[k]);
      HoldsAll(c, r.found) && c[|c| - 1] in r.color && !r.color[c[|c| - 1]].White? && c[k] in r.color
        && !r.color[c[k]].White?
    decreases |c| - k
  {
    var inside, targets := Enter(st, c[k]), g.targets[c[k]];
    EnterAlong(g, c, st, k);
    assert c[k] !in Whites(inside);
    if k == |c| - 1 {
      TargetsTrack(g, c, inside, targets);
    } else {
      DescentTracks(g, c, inside, k + 1);
      var next := Walk(g, inside, c[k + 1]);
      TracksAgain(g, c, next, k + 1);
      TargetsTrack(g, c, next, targets[1..]);
      assert WalkTargets(g, inside, targets) == WalkTargets(g, next, targets[1..]);
    }
  }

  /** Started at the first node of c, and led along c, the walk reports both ends of c only with all of it. */
  lemma LedReportsHoldAll(g: Graph, c: seq<Node>)
    requires Valid(g) && LeadsAlong(g, c) && g.keys != [] && g.keys[0] == c[0]
    ensures HoldsAll(c, Cycles(g))
  {
    var st := Fresh(g);
    assert c[0] in c && st.stack == c[..0];
    DescentTracks(g, c, st, 0);
    var next := Walk(g, st, c[0]);
    assert Tracks(g, c, next);
    AllTrack(g, c, next, g.keys[1..]);
    assert WalkAll(g, st, g.keys) == WalkAll(g, next, g.keys[1..]);
  }

  // ----- listing a graph along a cycle ----------------------------------------------------------

  /** Where c passes n before its last node, the node after it. */
  function After(c: seq<Node>, n: Node): (r: seq<Node>)
  {
    if n in c && IndexOf(c, n) < |c| - 1 then [c[IndexOf(c, n) + 1]] else []
  }

  function Listed(g: Graph, c: seq<Node>): Graph
    requires c != [] && c[0] in g.keys
    requires forall n :: n in g.targets && After(c, n) != [] ==> After(c, n)[0] in g.targets[n]
  {
    Graph(MoveToFront(c[0], g.keys),
          map n | n in g.targets :: if After(c, n) == [] then g.targets[n]
            else MoveToFront(After(c, n)[0], g.targets[n]))
  }

  lemma AfterIsTarget(g: Graph, c: seq<Node>, n: Node)
    requires SimpleCycle(g, c)
    ensures n in g.targets && After(c, n) != [] ==> After(c, n)[0] in g.targets[n]
  {
    if After(c, n) != [] {
      assert Edge(g, c[IndexOf(c, n)], c[IndexOf(c, n) + 1]);
    }
  }

  lemma ListedIsRelisted(g: Graph, c: seq<Node>)
    requires Valid(g) && c != [] && c[0] in g.keys
    requires forall n :: n in g.targets && After(c, n) != [] ==> After(c, n)[0] in g.targets[n]
    ensures Relisted(g, Listed(g, c))
  {
    var h := Listed(g, c);
    MoveToFrontPermutes(c[0], g.keys);
    SameElements(h.keys, g.keys);
    SameMultisetNoDup(g.keys, h.keys);
    forall n | n in g.targets ensures multiset(h.targets[n]) == multiset(g.targets[n]) {
      if After(c, n) != [] {
        MoveToFrontPermutes(After(c, n)[0], g.targets[n]);
      }
    }
  }

  lemma ListedLeads(g: Graph, c: seq<Node>, i: nat)
    requires SimpleCycle(g, c) && c[0] in g.keys && i < |c| - 1
    requires forall n :: n in g.targets && After(c, n) != [] ==> After(c, n)[0] in g.targets[n]
    ensures c[i] in g.targets && Listed(g, c).targets[c[i]] != [] && Listed(g, c).targets[c[i]][0] == c[i + 1]
  {
    assert IndexOf(c, c[i]) == i;
    assert After(c, c[i]) == [c[i + 1]];
    MoveToFrontPermutes(c[i + 1], g.targets[c[i]]);
  }

  lemma ListedAlong(g: Graph, c: seq<Node>) returns (h: Graph)
    requires Valid(g) && SimpleCycle(g, c)
    ensures Relisted(g, h) && LeadsAlong(h, c) && h.keys != [] && h.keys[0] == c[0]
  {
    forall n | n in g.targets && After(c, n) != [] ensures After(c, n)[0] in g.targets[n] {
      AfterIsTarget(g, c, n);
    }
    h := Listed(g, c);
    ListedIsRelisted(g, c);
    forall i | 0 <= i < |c| - 1 ensures h.targets[c[i]] != [] && h.targets[c[i]][0] == c[i + 1] {
      ListedLeads(g, c, i);
    }
  }

  // ----- the exact condition -----------------------------------------------------------------------

  /** The cycle read from another of its nodes, so that the step from u to v closes it. */
  lemma Rotated(g: Graph, c: seq<Node>, u: Node, v: Node) returns (r: seq<Node>)
    requires SimpleCycle(g, c) && Steps(c, u, v)
    ensures SimpleCycle(g, r) && Elems(r) == Elems(c) && r[0] == v && r[|r| - 1] == u
  {
    if c[|c| - 1] == u && c[0] == v {
      r := c;
    } else {
      var i :| 0 <= i < |c| - 1 && c[i] == u && c[i + 1] == v;
      r := c[i + 1..] + c[..i + 1];
      RotationIsCycle(g, c, i + 1);
    }
  }

  lemma RotationIsCycle(g: Graph, c: seq<Node>, k: nat)
    requires SimpleCycle(g, c) && 0 < k < |c|
    ensures SimpleCycle(g, c[k..] + c[..k]) && Elems(c[k..] + c[..k]) == Elems(c)
  {
    WalkSlice(g, c, k, |c|);
    WalkSlice(g, c, 0, k);
    assert c[k..|c|] == c[k..] && c[0..k] == c[..k];
    WalkJoin(g, c[k..], c[..k]);
    var r := c[k..] + c[..k];
    assert c == c[..k] + c[k..];
    assert Edge(g, c[k - 1], c[k]);
    forall i, j | 0 <= i < j < |r| ensures r[i] != r[j] {
      assert r[i] == if i < |c| - k then c[k + i] else c[i - (|c| - k)];
      assert r[j] == if j < |c| - k then c[k + j] else c[j - (|c| - k)];
    }
    forall x ensures x in r <==> x in c {
      assert x in c <==> x in c[..k] || x in c[k..];
    }
  }

  /** Listed along a, the graph reports b only if b holds all of a. */
  lemma OneSide(g: Graph, a: seq<Node>, b: seq<Node>, u: Node, v: Node)
    requires Valid(g) && SimpleCycle(g, a) && SimpleCycle(g, b) && Steps(a, u, v) && Steps(b, u, v)
    requires forall h :: Relisted(g, h) ==> EveryCycleReported(h)
    ensures Elems(a) <= Elems(b)
  {
    var c := Rotated(g, a, u, v);
    var h := ListedAlong(g, c);
    LedReportsHoldAll(h, c);
    RelistedEdges(g, h);
    assert SimpleCycle(h, b) && EveryCycleReported(h) && Reported(h, b);
    var r :| r in Cycles(h) && Elems(r) == Elems(b);
    StepEnds(b, u, v);
    assert u in Elems(r) && v in Elems(r);
  }

  lemma StepEnds(c: seq<Node>, u: Node, v: Node)
    requires Steps(c, u, v)
    ensures u in Elems(c) && v in Elems(c)
  {
  }

  /** However nodes and targets are listed, the node set of every simple cycle is reported, if and only if no two simple
      cycles with different node sets share an edge. */
  lemma AllReportedInEveryOrderIff(g: Graph)
    requires Valid(g)
    ensures (forall h :: Relisted(g, h) ==> EveryCycleReported(h)) <==> EdgesTellCycles(g)
  {
    if EdgesTellCycles(g) {
      forall h | Relisted(g, h) ensures EveryCycleReported(h) {
        RelistedEdges(g, h);
        forall c | SimpleCycle(h, c) ensures Reported(h, c) {
          ToldApartIsReported(h, c);
        }
      }
    } else if forall h :: Relisted(g, h) ==> EveryCycleReported(h) {
      var a, b, u, v :| SimpleCycle(g, a) && SimpleCycle(g, b) && Steps(a, u, v) && Steps(b, u, v)
        && Elems(a) != Elems(b);
      OneSide(g, a, b, u, v);
      OneSide(g, b, a, u, v);
    }
  }
}
