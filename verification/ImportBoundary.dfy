/** The import gate's own depth-first search, which stops at the first closed path it meets. */
module ImportBoundary {
  import opened Sorting
  import opened Digraph
  import opened Dag
  import opened Options

  /** The gate visits nodes and neighbors in string order, so its graph of sets is read in that order. */
  function InOrder(graph: map<Node, set<Node>>): (g: Graph)
    ensures Valid(g) && g.targets.Keys == graph.Keys
    ensures forall u, v :: u in graph ==> (v in g.targets[u] <==> v in graph[u])
  {
    SortedSetCorrect(graph.Keys);
    assert forall n :: n in graph ==> forall v :: v in SortedSet(graph[n]) <==> v in graph[n] by {
      forall n | n in graph ensures forall v :: v in SortedSet(graph[n]) <==> v in graph[n] {
        SortedSetCorrect(graph[n]);
      }
    }
    Graph(SortedSet(graph.Keys), map n | n in graph :: SortedSet(graph[n]))
  }

  datatype Search = Search(color: map<Node, Color>, stack: seq<Node>)

  /** The same colors and stack as the walk of Dag, which has reported nothing yet. */
  function AsDfs(s: Search): Dfs {
    Dfs(s.color, s.stack, [], {})
  }

  ghost predicate Matches(g: Graph, s: Search) {
    StackIsGray(g, AsDfs(s))
  }

  function Enters(s: Search, node: Node): Search {
    Search(s.color[node := Gray], s.stack + [node])
  }

  function Leaves(s: Search, node: Node): Search
    requires s.stack != []
  {
    Search(s.color[node := Black], s.stack[..|s.stack| - 1])
  }

  function ClosedPath(s: Search, neighbor: Node): seq<Node>
    requires neighbor in s.stack
  {
    s.stack[IndexOf(s.stack, neighbor)..] + [neighbor]
  }

  /** A found path ends the search and leaves the stack as it stood. */
  function Visit(g: Graph, s: Search, node: Node): (r: (Search, Option<seq<Node>>))
    requires Matches(g, s) && node in s.color && s.color[node].White?
    ensures r.1.None? ==> Matches(g, r.0) && AsDfs(r.0) == Walk(g, AsDfs(s), node)
    ensures r.1.Some? ==> FirstReport(Walk(g, AsDfs(s), node), r.1.value)
    decreases Whites(AsDfs(s)), 0
  {
    var inside := Enters(s, node);
    assert node in Whites(AsDfs(s)) && node !in Whites(AsDfs(inside));
    assert AsDfs(inside) == Enter(AsDfs(s), node);
    var (last, path) := VisitTargets(g, inside, g.targets[node]);
    if path.Some? then (last, path) else (Leaves(last, node), None)
  }

  /** path is the first report of st with its first node repeated at the end. */
  ghost predicate FirstReport(st: Dfs, path: seq<Node>) {
    st.found != [] && st.found[0] != [] && path == st.found[0] + [st.found[0][0]]
  }

  function VisitTargets(g: Graph, s: Search, rest: seq<Node>): (r: (Search, Option<seq<Node>>))
    requires Matches(g, s)
    ensures r.1.None? ==> Matches(g, r.0) && AsDfs(r.0) == WalkTargets(g, AsDfs(s), rest)
    ensures r.1.Some? ==> FirstReport(WalkTargets(g, AsDfs(s), rest), r.1.value)
    decreases Whites(AsDfs(s)), 1 + |rest|
  {
    if rest == [] then (s, None)
    else
      var neighbor := rest[0];
      if neighbor !in s.color then VisitTargets(g, s, rest[1..])
      else if s.color[neighbor].Gray? then
        assert FirstReport(Report(AsDfs(s), neighbor), ClosedPath(s, neighbor));
        (s, Some(ClosedPath(s, neighbor)))
      else if s.color[neighbor].White? then
        var (next, path) := Visit(g, s, neighbor);
        if path.Some? then (next, path) else VisitTargets(g, next, rest[1..])
      else VisitTargets(g, s, rest[1..])
  }

  function VisitAll(g: Graph, s: Search, rest: seq<Node>): (r: Option<seq<Node>>)
    requires Matches(g, s) && forall n :: n in rest ==> n in g.targets
    ensures r.None? ==> WalkAll(g, AsDfs(s), rest).found == []
    ensures r.Some? ==> FirstReport(WalkAll(g, AsDfs(s), rest), r.value)
    decreases |rest|
  {
    if rest == [] then None
    else if s.color[rest[0]].White? then
      var (next, path) := Visit(g, s, rest[0]);
      if path.Some? then path else VisitAll(g, next, rest[1..])
    else VisitAll(g, s, rest[1..])
  }

  function FirstCycle(graph: map<Node, set<Node>>): Option<seq<Node>> {
    var g := InOrder(graph);
    VisitAll(g, Search(map n | n in g.targets :: White, []), g.keys)
  }

  lemma VisitTargetsStep(g: Graph, s: Search, targets: seq<Node>, i: nat)
    requires Matches(g, s) && i < |targets|
    ensures VisitTargets(g, s, targets[i..]) ==
      if targets[i] !in s.color || s.color[targets[i]].Black? then VisitTargets(g, s, targets[i + 1..])
      else if s.color[targets[i]].Gray? then (s, Some(ClosedPath(s, targets[i])))
      else
        var (next, path) := Visit(g, s, targets[i]);
        if path.Some? then (next, path) else VisitTargets(g, next, targets[i + 1..])
  {
    assert targets[i..][0] == targets[i] && targets[i..][1..] == targets[i + 1..];
  }

  class CycleSearch {
    var color: map<Node, Color>
    var stack: seq<Node>

    function State(): Search
      reads this
    {
      Search(color, stack)
    }

    constructor (g: Graph)
      ensures State() == Search(map n | n in g.targets :: White, [])
    {
      color := map n | n in g.targets :: White;
      stack := [];
    }

    method VisitNode(g: Graph, node: Node) returns (found: Option<seq<Node>>)
      requires Matches(g, State()) && node in color && color[node].White?
      modifies this
      ensures (State(), found) == Visit(g, old(State()), node)
      decreases Whites(AsDfs(State()))
    {
      ghost var start := State();
      color := color[node := Gray];
      stack := stack + [node];
      assert State() == Enters(start, node) && node in Whites(AsDfs(start));
      var targets := g.targets[node];
      ghost var whole := VisitTargets(g, State(), targets);
      assert targets[0..] == targets;
      for i := 0 to |targets|
        invariant Matches(g, State()) && Whites(AsDfs(State())) <= Whites(AsDfs(start)) - {node}
        invariant stack == start.stack + [node]
        invariant VisitTargets(g, State(), targets[i..]) == whole
      {
        var neighbor := targets[i];
        VisitTargetsStep(g, State(), targets, i);
        if neighbor !in color {
          continue;
        }
        if color[neighbor].Gray? {
          return Some(stack[IndexOf(stack, neighbor)..] + [neighbor]);
        }
        if color[neighbor].White? {
          found := VisitNode(g, neighbor);
          if found.Some? {
            return found;
          }
        }
      }
      stack := stack[..|stack| - 1];
      color := color[node := Black];
      return None;
    }
  }

  lemma VisitAllStep(g: Graph, s: Search, keys: seq<Node>, i: nat)
    requires Matches(g, s) && i < |keys| && forall n :: n in keys[i..] ==> n in g.targets
    ensures keys[i] in s.color && forall n :: n in keys[i + 1..] ==> n in g.targets
    ensures VisitAll(g, s, keys[i..]) ==
      if s.color[keys[i]].White? then
        var (next, path) := Visit(g, s, keys[i]);
        if path.Some? then path else VisitAll(g, next, keys[i + 1..])
      else VisitAll(g, s, keys[i + 1..])
  {
    assert keys[i..][0] == keys[i] && keys[i..][1..] == keys[i + 1..];
  }

  method FindCycle(graph: map<Node, set<Node>>) returns (found: Option<seq<Node>>)
    ensures found == FirstCycle(graph)
  {
    var g := InOrder(graph);
    var search := new CycleSearch(g);
    var keys := g.keys;
    assert keys[0..] == keys;
    for i := 0 to |keys|
      invariant Matches(g, search.State())
      invariant forall n :: n in keys[i..] ==> n in g.targets
      invariant VisitAll(g, search.State(), keys[i..]) == FirstCycle(graph)
    {
      VisitAllStep(g, search.State(), keys, i);
      if search.color[keys[i]].White? {
        found := search.VisitNode(g, keys[i]);
        if found.Some? {
          return found;
        }
      }
    }
    return None;
  }

  /** The gate finds exactly the first cycle that the roadmap's walk reports on the ordered graph. */
  lemma FirstCycleIsFirstReport(graph: map<Node, set<Node>>)
    ensures FirstCycle(graph).None? <==> Cycles(InOrder(graph)) == []
    ensures FirstCycle(graph).Some? ==>
      var first := Cycles(InOrder(graph))[0];
      first != [] && FirstCycle(graph).value == first + [first[0]]
  {
    var g := InOrder(graph);
    assert AsDfs(Search(map n | n in g.targets :: White, [])) == Fresh(g);
  }

  predicate Imports(graph: map<Node, set<Node>>, u: Node, v: Node) {
    u in graph && v in graph && v in graph[u]
  }

  /** None exactly when there is no closed walk; otherwise a closed path of real edges without inner repetition. */
  lemma FirstCycleCorrect(graph: map<Node, set<Node>>)
    ensures FirstCycle(graph).None? <==> Acyclic(InOrder(graph))
    ensures FirstCycle(graph).Some? ==>
      var path := FirstCycle(graph).value;
      && |path| >= 2 && path[0] == path[|path| - 1] && NoDup(path[..|path| - 1])
      && forall i :: 0 <= i < |path| - 1 ==> Imports(graph, path[i], path[i + 1])
  {
    var g := InOrder(graph);
    FirstCycleIsFirstReport(graph);
    CyclesEmptyIffAcyclic(g);
    ReportedCyclesAreGenuine(g);
    if FirstCycle(graph).Some? {
      var c := Cycles(g)[0];
      assert SimpleCycle(g, c);
      SimpleCycleCloses(g, c);
      var path := c + [c[0]];
      assert path[..|c|] == c;
      forall i | 0 <= i < |path| - 1 ensures Imports(graph, path[i], path[i + 1]) {
        assert Edge(g, path[i], path[i + 1]);
      }
    }
  }
}
