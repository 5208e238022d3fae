/** graph-lint: what it reports of a diagram, what silence means, and why it is silent on what the tool itself draws. */
module GraphLint {
  import opened Sorting
  import opened Options
  import opened Text
  import opened MermaidText
  import opened Digraph
  import opened Dag
  import opened Roadmap
  import opened Mermaid

  // ----- release tags in a label --------------------------------------------------------------

  function Digits(s: string): (n: nat)
    ensures n <= |s|
  {
    if s != [] && IsDigit(s[0]) then 1 + Digits(s[1..]) else 0
  }

  /** The length of a number followed by a dot. */
  function NumberDot(s: string): (n: nat)
    ensures n <= |s|
  {
    var d := Digits(s);
    if d > 0 && d < |s| && s[d] == '.' then d + 1 else 0
  }

  /** The length of the release tag that s opens with, or 0. */
  function TagLength(s: string): (n: nat)
    ensures n <= |s|
  {
    if s == [] || s[0] != 'v' then 0
    else
      var a := NumberDot(s[1..]);
      var b := NumberDot(s[1 + a..]);
      var c := Digits(s[1 + a + b..]);
      if a > 0 && b > 0 && c > 0 then 1 + a + b + c else 0
  }

  function Tags(s: string): seq<string>
    decreases |s|
  {
    if s == [] then []
    else if TagLength(s) > 0 then [s[..TagLength(s)]] + Tags(s[TagLength(s)..])
    else Tags(s[1..])
  }

  // ----- the check -------------------------------------------------------------------------------

  datatype Finding =
    | GraphMissing
    | UnmatchedNode(key: string)
    | UndrawnPhase(id: string)
    | GraphOrder
    | UnknownEnds(left: string, right: string)
    | Unbacked(source: string, target: string)
    | GraphCycle(cycle: seq<Node>)

  function ByTag(phases: seq<Phase>): map<string, string> {
    if phases == [] then map[]
    else ByTag(phases[..|phases| - 1])[phases[|phases| - 1].releaseTag := phases[|phases| - 1].id]
  }

  /** The phase that the label of a node names. */
  function PhaseNamed(r: Roadmap, text: string): (id: Option<string>) {
    if |Tags(text)| == 1 && Tags(text)[0] in ByTag(r.phases) then Some(ByTag(r.phases)[Tags(text)[0]]) else None
  }

  function NodePhase(r: Roadmap, g: ParsedGraph): (m: map<string, string>)
    ensures forall k :: k in m <==> k in g.nodes && PhaseNamed(r, g.nodes[k]).Some?
  {
    map k | k in g.nodes && PhaseNamed(r, g.nodes[k]).Some? :: PhaseNamed(r, g.nodes[k]).value
  }

  function Resolve(np: map<string, string>, edges: seq<Edge2>): seq<Edge2> {
    if edges == [] then []
    else
      var last := edges[|edges| - 1];
      Resolve(np, edges[..|edges| - 1]) + if last.0 in np && last.1 in np then [(np[last.0], np[last.1])] else []
  }

  function Ends(d: (string, string, string)): Edge2 {
    (d.0, d.1)
  }

  /** The requirements that some package of the phase covers. */
  function Placed(r: Roadmap, phase: string): set<string> {
    set p, q | p in r.packages && p.phase == phase && q in p.covers :: q
  }

  predicate Backed(r: Roadmap, source: string, target: string) {
    var p := PhaseById(r.phases, target);
    && p.Some?
    && (source in p.value.dependsOnPhases || exists q :: q in p.value.requiresRequirements && q in Placed(r, source))
  }

  function NodeFindings(r: Roadmap, g: ParsedGraph, keys: seq<string>): seq<Finding> {
    if keys == [] then []
    else
      var last := keys[|keys| - 1];
      NodeFindings(r, g, keys[..|keys| - 1]) + if last in NodePhase(r, g) then [] else [UnmatchedNode(last)]
  }

  function UndrawnFindings(phases: seq<Phase>, drawn: set<string>): seq<Finding> {
    if phases == [] then []
    else
      var last := phases[|phases| - 1];
      UndrawnFindings(phases[..|phases| - 1], drawn) + if last.id in drawn then [] else [UndrawnPhase(last.id)]
  }

  function DottedFinding(r: Roadmap, np: map<string, string>, e: Edge2): seq<Finding> {
    if e.0 !in np || e.1 !in np then [UnknownEnds(e.0, e.1)]
    else if !Backed(r, np[e.0], np[e.1]) then [Unbacked(np[e.0], np[e.1])]
    else []
  }

  function DottedFindings(r: Roadmap, np: map<string, string>, edges: seq<Edge2>): seq<Finding> {
    if edges == [] then []
    else DottedFindings(r, np, edges[..|edges| - 1]) + DottedFinding(r, np, edges[|edges| - 1])
  }

  function TargetsOf(id: string, edges: seq<Edge2>): seq<string> {
    if edges == [] then []
    else
      var last := edges[|edges| - 1];
      TargetsOf(id, edges[..|edges| - 1]) + if last.0 == id then [last.1] else []
  }

  function Once(s: seq<string>): seq<string> {
    if s == [] then []
    else
      var front, last := Once(s[..|s| - 1]), s[|s| - 1];
      if last in front then front else front + [last]
  }

  lemma {:induction false} OnceIs(s: seq<string>)
    ensures NoDup(Once(s)) && forall x :: x in Once(s) <==> x in s
    decreases |s|
  {
    if s != [] {
      OnceIs(s[..|s| - 1]);
      NoDupAppended(Once(s[..|s| - 1]), s[|s| - 1]);
      assert s == s[..|s| - 1] + [s[|s| - 1]];
    }
  }

  /** The drawn edges as a graph over the phases. */
  function EdgeGraph(r: Roadmap, edges: seq<Edge2>): (g: Graph)
    ensures Valid(g)
  {
    OnceIs(PhaseOrder(r));
    var keys := Once(PhaseOrder(r));
    Graph(keys, map id | id in keys :: TargetsOf(id, edges))
  }

  function Expected(r: Roadmap): seq<Edge2> {
    Pairs(PhaseOrder(r))
  }

  function AllEdges(r: Roadmap, g: ParsedGraph): seq<Edge2> {
    Resolve(NodePhase(r, g), g.solid) + Resolve(NodePhase(r, g), Map(Ends, g.dotted))
  }

  function LintGraph(r: Roadmap, g: ParsedGraph): seq<Finding> {
    var np := NodePhase(r, g);
    NodeFindings(r, g, g.keys) + UndrawnFindings(r.phases, np.Values)
    + (if Resolve(np, g.solid) == Expected(r) then [] else [GraphOrder])
    + DottedFindings(r, np, Map(Ends, g.dotted))
    + Map((c: seq<Node>) => GraphCycle(c), Cycles(EdgeGraph(r, AllEdges(r, g))))
  }

  /** The text of the first Mermaid block of a document. */
  function ExtractBlock(markdown: string): Option<string> {
    match Find(markdown, "```mermaid\n")
    case None => None
    case Some(i) =>
      var body := markdown[i + 11..];
      match Find(body, "```")
      case None => None
      case Some(j) => Some(body[..j])
  }

  /** document is None when the file is not on disk. */
  function Lint(r: Roadmap, document: Option<string>): seq<Finding> {
    if document.None? || ExtractBlock(document.value).None? then [GraphMissing]
    else LintGraph(r, Parse(ExtractBlock(document.value).value))
  }

  // ----- the check, step by step ---------------------------------------------------------------------

  /** keys lists the nodes of the dictionary, each once. */
  ghost predicate Shape(g: ParsedGraph) {
    NoDup(g.keys) && forall k :: k in g.keys <==> k in g.nodes
  }

  lemma {:induction false} ReadKeepsShape(lines: seq<string>)
    ensures Shape(ReadLines(EMPTY, lines))
    decreases |lines|
  {
    if lines != [] {
      var g, line := ReadLines(EMPTY, lines[..|lines| - 1]), lines[|lines| - 1];
      ReadKeepsShape(lines[..|lines| - 1]);
      if MatchNode(line).Some? {
        NoDupAppended(g.keys, MatchNode(line).value.0);
      }
    }
  }

  lemma ParseShape(text: string)
    ensures Shape(Parse(text))
  {
    ReadKeepsShape(SplitLines(text));
  }

  method IndexTags(phases: seq<Phase>) returns (byTag: map<string, string>)
    ensures byTag == ByTag(phases)
  {
    byTag := map[];
    for i := 0 to |phases|
      invariant byTag == ByTag(phases[..i])
    {
      assert phases[..i + 1][..i] == phases[..i];
      byTag := byTag[phases[i].releaseTag := phases[i].id];
    }
    assert phases[..|phases|] == phases;
  }

  /** The nodes of keys that name a phase, each with its phase. */
  ghost predicate IsNodePhase(np: map<string, string>, r: Roadmap, g: ParsedGraph, keys: seq<string>)
    requires forall k :: k in keys ==> k in g.nodes
  {
    && (forall k :: k in np <==> k in keys && PhaseNamed(r, g.nodes[k]).Some?)
    && forall k :: k in np ==> np[k] == PhaseNamed(r, g.nodes[k]).value
  }

  method MatchLabel(ghost r: Roadmap, text: string, byTag: map<string, string>) returns (phase: Option<string>)
    requires byTag == ByTag(r.phases)
    ensures phase == PhaseNamed(r, text)
  {
    var tags := Tags(text);
    if |tags| != 1 || tags[0] !in byTag {
      return None;
    }
    return Some(byTag[tags[0]]);
  }

  method MatchNodes(r: Roadmap, g: ParsedGraph) returns (findings: seq<Finding>, np: map<string, string>)
    requires Shape(g)
    ensures findings == NodeFindings(r, g, g.keys) && np == NodePhase(r, g)
  {
    findings, np := [], map[];
    var byTag := IndexTags(r.phases);
    for i := 0 to |g.keys|
      invariant findings == NodeFindings(r, g, g.keys[..i])
      invariant IsNodePhase(np, r, g, g.keys[..i])
    {
      var key := g.keys[i];
      OneMoreNode(r, g, i, np);
      var phase := MatchLabel(r, g.nodes[key], byTag);
      if phase.None? {
        findings := findings + [UnmatchedNode(key)];
        continue;
      }
      np := np[key := phase.value];
    }
    assert g.keys[..|g.keys|] == g.keys;
    AllNodes(np, r, g);
  }

  lemma AllNodes(np: map<string, string>, r: Roadmap, g: ParsedGraph)
    requires Shape(g) && IsNodePhase(np, r, g, g.keys)
    ensures np == NodePhase(r, g)
  {
  }

  lemma OneMoreNode(r: Roadmap, g: ParsedGraph, i: nat, np: map<string, string>)
    requires Shape(g) && i < |g.keys| && IsNodePhase(np, r, g, g.keys[..i])
    ensures forall k :: k in g.keys[..i + 1] ==> k in g.nodes
    ensures var key, before, after := g.keys[i], g.keys[..i], g.keys[..i + 1];
      && key in g.nodes
      && var phase := PhaseNamed(r, g.nodes[key]);
         && NodeFindings(r, g, after) == NodeFindings(r, g, before) + (if phase.Some? then [] else [UnmatchedNode(key)])
         && IsNodePhase(if phase.Some? then np[key := phase.value] else np, r, g, after)
  {
    var key, before := g.keys[i], g.keys[..i];
    assert key in g.keys && g.keys[..i + 1] == before + [key];
    OneMoreFinding(r, g, before, key);
    OneMoreMatch(r, g, before, key, np);
  }

  lemma OneMoreFinding(r: Roadmap, g: ParsedGraph, before: seq<string>, key: string)
    ensures NodeFindings(r, g, before + [key])
         == NodeFindings(r, g, before) + if key in NodePhase(r, g) then [] else [UnmatchedNode(key)]
  {
    assert (before + [key])[..|before|] == before;
  }

  lemma OneMoreMatch(r: Roadmap, g: ParsedGraph, before: seq<string>, key: string, np: map<string, string>)
    requires key in g.nodes && (forall k :: k in before ==> k in g.nodes) && IsNodePhase(np, r, g, before)
    ensures var phase := PhaseNamed(r, g.nodes[key]);
      IsNodePhase(if phase.Some? then np[key := phase.value] else np, r, g, before + [key])
  {
  }

  method UndrawnPhases(r: Roadmap, drawn: set<string>) returns (findings: seq<Finding>)
    ensures findings == UndrawnFindings(r.phases, drawn)
  {
    findings := [];
    for i := 0 to |r.phases|
      invariant findings == UndrawnFindings(r.phases[..i], drawn)
    {
      assert r.phases[..i + 1][..i] == r.phases[..i];
      if r.phases[i].id !in drawn {
        findings := findings + [UndrawnPhase(r.phases[i].id)];
      }
    }
    assert r.phases[..|r.phases|] == r.phases;
  }

  method CheckDotted(r: Roadmap, np: map<string, string>, edges: seq<Edge2>) returns (findings: seq<Finding>)
    ensures findings == DottedFindings(r, np, edges)
  {
    findings := [];
    for i := 0 to |edges|
      invariant findings == DottedFindings(r, np, edges[..i])
    {
      assert edges[..i + 1][..i] == edges[..i];
      var (left, right) := edges[i];
      if left !in np || right !in np {
        findings := findings + [UnknownEnds(left, right)];
        continue;
      }
      var source, target := np[left], np[right];
      if !Backed(r, source, target) {
        findings := findings + [Unbacked(source, target)];
      }
    }
    assert edges[..|edges|] == edges;
  }

  /** The targets of every node, as far as the edges have been gathered. */
  ghost predicate Gathered(targets: map<Node, seq<Node>>, keys: seq<Node>, edges: seq<Edge2>) {
    (forall id :: id in targets <==> id in keys) && forall id :: id in targets ==> targets[id] == TargetsOf(id, edges)
  }

  lemma GatherOne(targets: map<Node, seq<Node>>, keys: seq<Node>, before: seq<Edge2>, e: Edge2)
    requires Gathered(targets, keys, before) && e.0 in keys
    ensures Gathered(targets[e.0 := targets[e.0] + [e.1]], keys, before + [e])
  {
    assert (before + [e])[..|before|] == before;
  }

  method GatherEdges(r: Roadmap, edges: seq<Edge2>) returns (g: Graph)
    requires forall e :: e in edges ==> e.0 in PhaseOrder(r)
    ensures g == EdgeGraph(r, edges)
  {
    OnceIs(PhaseOrder(r));
    var keys := Once(PhaseOrder(r));
    var targets: map<Node, seq<Node>> := map id | id in keys :: [];
    for i := 0 to |edges|
      invariant Gathered(targets, keys, edges[..i])
    {
      assert edges[..i + 1] == edges[..i] + [edges[i]] && edges[i] in edges;
      GatherOne(targets, keys, edges[..i], edges[i]);
      targets := targets[edges[i].0 := targets[edges[i].0] + [edges[i].1]];
    }
    assert edges[..|edges|] == edges;
    g := Graph(keys, targets);
    AllGathered(r, edges, targets);
  }

  lemma AllGathered(r: Roadmap, edges: seq<Edge2>, targets: map<Node, seq<Node>>)
    requires Gathered(targets, Once(PhaseOrder(r)), edges)
    ensures Graph(Once(PhaseOrder(r)), targets) == EdgeGraph(r, edges)
  {
    assert targets == EdgeGraph(r, edges).targets;
  }

  method GraphLint(r: Roadmap, document: Option<string>) returns (findings: seq<Finding>)
    ensures findings == Lint(r, document)
  {
    if document.None? {
      return [GraphMissing];
    }
    var block := ExtractBlock(document.value);
    if block.None? {
      return [GraphMissing];
    }
    var g := ParseMermaid(block.value);
    ParseShape(block.value);
    var np;
    findings, np := MatchNodes(r, g);
    var undrawn := UndrawnPhases(r, np.Values);
    findings := findings + undrawn;
    var solid := Resolve(np, g.solid);
    if solid != Expected(r) {
      findings := findings + [GraphOrder];
    }
    assert findings + [] == findings;
    var dotted := CheckDotted(r, np, Map(Ends, g.dotted));
    findings := findings + dotted;
    ResolvedArePhases(r, g, AllEdges(r, g));
    var edges := GatherEdges(r, solid + Resolve(np, Map(Ends, g.dotted)));
    var cycles := FindCycles(edges);
    findings := findings + Map((c: seq<Node>) => GraphCycle(c), cycles);
  }

  // ----- what silence means -----------------------------------------------------------------------------

  lemma {:induction false} ByTagIsPhases(phases: seq<Phase>, tag: string)
    requires tag in ByTag(phases)
    ensures exists p :: p in phases && p.releaseTag == tag && p.id == ByTag(phases)[tag]
    decreases |phases|
  {
    var front, last := phases[..|phases| - 1], phases[|phases| - 1];
    assert phases == front + [last] && last in phases;
    if tag != last.releaseTag {
      ByTagIsPhases(front, tag);
    }
  }

  lemma NamedIsPhase(r: Roadmap, text: string)
    requires PhaseNamed(r, text).Some?
    ensures PhaseNamed(r, text).value in PhaseOrder(r)
  {
    ByTagIsPhases(r.phases, Tags(text)[0]);
    var p :| p in r.phases && p.id == ByTag(r.phases)[Tags(text)[0]];
    var i: nat :| i < |r.phases| && r.phases[i] == p;
    assert PhaseOrder(r)[i] == p.id;
  }

  lemma {:induction false} ResolvedIs(np: map<string, string>, edges: seq<Edge2>, x: Edge2)
    ensures x in Resolve(np, edges) <==> exists e :: e in edges && e.0 in np && e.1 in np && x == (np[e.0], np[e.1])
    decreases |edges|
  {
    if edges != [] {
      var front, last := edges[..|edges| - 1], edges[|edges| - 1];
      assert edges == front + [last];
      ResolvedIs(np, front, x);
    }
  }

  lemma ResolvedArePhases(r: Roadmap, g: ParsedGraph, edges: seq<Edge2>)
    requires edges == AllEdges(r, g)
    ensures forall x :: x in edges ==> x.0 in PhaseOrder(r) && x.1 in PhaseOrder(r)
  {
    var np := NodePhase(r, g);
    forall x | x in edges ensures x.0 in PhaseOrder(r) && x.1 in PhaseOrder(r) {
      ResolvedIs(np, g.solid, x);
      ResolvedIs(np, Map(Ends, g.dotted), x);
      var e: Edge2 :| e.0 in np && e.1 in np && x == (np[e.0], np[e.1]);
      NamedIsPhase(r, g.nodes[e.0]);
      NamedIsPhase(r, g.nodes[e.1]);
    }
  }

  lemma {:induction false} TargetsAre(id: string, edges: seq<Edge2>, v: string)
    ensures v in TargetsOf(id, edges) <==> (id, v) in edges
    decreases |edges|
  {
    if edges != [] {
      var front, last := edges[..|edges| - 1], edges[|edges| - 1];
      assert edges == front + [last];
      TargetsAre(id, front, v);
    }
  }

  lemma EdgesAre(r: Roadmap, edges: seq<Edge2>, u: Node, v: Node)
    ensures Edge(EdgeGraph(r, edges), u, v) <==> (u, v) in edges && u in PhaseOrder(r) && v in PhaseOrder(r)
  {
    OnceIs(PhaseOrder(r));
    TargetsAre(u, edges, v);
  }

  ghost predicate Forward(r: Roadmap, e: Edge2) {
    e.0 in PhaseOrder(r) && e.1 in PhaseOrder(r) && PhaseIndex(r, e.0) < PhaseIndex(r, e.1)
  }

  lemma PositionIs(r: Roadmap, i: nat)
    requires NoDup(PhaseOrder(r)) && i < |PhaseOrder(r)|
    ensures PhaseIndex(r, PhaseOrder(r)[i]) == i
  {
    assert PhaseOrder(r)[i] in PhaseOrder(r);
  }

  lemma ExpectedIsForward(r: Roadmap)
    requires NoDup(PhaseOrder(r))
    ensures forall e :: e in Expected(r) ==> Forward(r, e)
  {
    forall e | e in Expected(r) ensures Forward(r, e) {
      var i: nat :| i < |Expected(r)| && Expected(r)[i] == e;
      PositionIs(r, i);
      PositionIs(r, i + 1);
    }
  }

  lemma ForwardIsAcyclic(r: Roadmap, edges: seq<Edge2>)
    requires forall e :: e in edges ==> Forward(r, e)
    ensures Acyclic(EdgeGraph(r, edges))
  {
    var g := EdgeGraph(r, edges);
    var rank := map id | id in g.targets :: -PhaseIndex(r, id);
    forall u, v | Edge(g, u, v) ensures rank[v] < rank[u] {
      EdgesAre(r, edges, u, v);
    }
    RankedIsAcyclic(g, rank);
  }

  lemma OrderStep(r: Roadmap, edges: seq<Edge2>, i: nat)
    requires (forall x :: x in Expected(r) ==> x in edges) && i + 1 < |PhaseOrder(r)|
    ensures Edge(EdgeGraph(r, edges), PhaseOrder(r)[i], PhaseOrder(r)[i + 1])
  {
    assert Expected(r)[i] in Expected(r);
    EdgesAre(r, edges, PhaseOrder(r)[i], PhaseOrder(r)[i + 1]);
  }

  /** The release order is a walk over the drawn edges. */
  lemma OrderIsAWalk(r: Roadmap, edges: seq<Edge2>)
    requires (forall x :: x in Expected(r) ==> x in edges) && r.phases != []
    ensures IsWalk(EdgeGraph(r, edges), PhaseOrder(r))
  {
    OnceIs(PhaseOrder(r));
    forall i | 0 <= i < |PhaseOrder(r)| - 1 ensures Edge(EdgeGraph(r, edges), PhaseOrder(r)[i], PhaseOrder(r)[i + 1]) {
      OrderStep(r, edges, i);
    }
  }

  /** Beside the release order, an edge that does not go forward closes a walk. */
  lemma BackwardClosesWalk(r: Roadmap, edges: seq<Edge2>, e: Edge2)
    requires NoDup(PhaseOrder(r)) && (forall x :: x in Expected(r) ==> x in edges)
    requires e in edges && e.0 in PhaseOrder(r) && e.1 in PhaseOrder(r) && !Forward(r, e)
    ensures !Acyclic(EdgeGraph(r, edges))
  {
    var g, order, from, to := EdgeGraph(r, edges), PhaseOrder(r), PhaseIndex(r, e.1), PhaseIndex(r, e.0);
    OrderIsAWalk(r, edges);
    WalkSlice(g, order, from, to + 1);
    EdgesAre(r, edges, e.0, e.1);
    WalkCloses(g, order[from..to + 1]);
  }

  lemma WalkCloses(g: Graph, path: seq<Node>)
    requires IsWalk(g, path) && Edge(g, path[|path| - 1], path[0])
    ensures !Acyclic(g)
  {
    assert IsWalk(g, [path[0]]);
    WalkJoin(g, path, [path[0]]);
    assert ClosedWalk(g, path + [path[0]]);
  }

  /** Every node names a phase, and every phase has a node. */
  ghost predicate Matched(r: Roadmap, g: ParsedGraph) {
    && (forall k :: k in g.nodes ==> PhaseNamed(r, g.nodes[k]).Some?)
    && forall p :: p in r.phases ==> exists k :: k in g.nodes && PhaseNamed(r, g.nodes[k]) == Some(p.id)
  }

  /** A dotted edge joins nodes of the diagram, stands for a dependency, and goes forward in the release order. */
  ghost predicate Sound(r: Roadmap, g: ParsedGraph, e: Edge2) {
    var np := NodePhase(r, g);
    && e.0 in np && e.1 in np && Backed(r, np[e.0], np[e.1]) && Forward(r, (np[e.0], np[e.1]))
  }

  lemma {:induction false} NodesCleanIff(r: Roadmap, g: ParsedGraph, keys: seq<string>)
    ensures NodeFindings(r, g, keys) == [] <==> forall k :: k in keys ==> k in NodePhase(r, g)
    decreases |keys|
  {
    if keys != [] {
      NodesCleanIff(r, g, keys[..|keys| - 1]);
      assert keys == keys[..|keys| - 1] + [keys[|keys| - 1]];
    }
  }

  lemma {:induction false} UndrawnCleanIff(phases: seq<Phase>, drawn: set<string>)
    ensures UndrawnFindings(phases, drawn) == [] <==> forall p :: p in phases ==> p.id in drawn
    decreases |phases|
  {
    if phases != [] {
      UndrawnCleanIff(phases[..|phases| - 1], drawn);
      assert phases == phases[..|phases| - 1] + [phases[|phases| - 1]];
    }
  }

  lemma {:induction false} DottedCleanIff(r: Roadmap, np: map<string, string>, edges: seq<Edge2>)
    ensures DottedFindings(r, np, edges) == [] <==>
      forall e :: e in edges ==> e.0 in np && e.1 in np && Backed(r, np[e.0], np[e.1])
    decreases |edges|
  {
    if edges != [] {
      DottedCleanIff(r, np, edges[..|edges| - 1]);
      assert edges == edges[..|edges| - 1] + [edges[|edges| - 1]];
    }
  }

  lemma MatchedIff(r: Roadmap, g: ParsedGraph)
    requires Shape(g)
    ensures NodeFindings(r, g, g.keys) == [] && UndrawnFindings(r.phases, NodePhase(r, g).Values) == [] <==>
      Matched(r, g)
  {
    var np := NodePhase(r, g);
    NodesCleanIff(r, g, g.keys);
    UndrawnCleanIff(r.phases, np.Values);
    forall p | p in r.phases ensures p.id in np.Values <==>
      exists k :: k in g.nodes && PhaseNamed(r, g.nodes[k]) == Some(p.id) {
      if k :| k in g.nodes && PhaseNamed(r, g.nodes[k]) == Some(p.id) {
        assert np[k] == p.id;
      }
      if p.id in np.Values {
        var k :| k in np && np[k] == p.id;
      }
    }
  }

  lemma AcyclicIffForward(r: Roadmap, g: ParsedGraph)
    requires NoDup(PhaseOrder(r)) && Resolve(NodePhase(r, g), g.solid) == Expected(r)
    ensures Acyclic(EdgeGraph(r, AllEdges(r, g))) <==>
      forall x :: x in Resolve(NodePhase(r, g), Map(Ends, g.dotted)) ==> Forward(r, x)
  {
    var edges := AllEdges(r, g);
    ResolvedArePhases(r, g, edges);
    ExpectedIsForward(r);
    if x :| x in Resolve(NodePhase(r, g), Map(Ends, g.dotted)) && !Forward(r, x) {
      BackwardClosesWalk(r, edges, x);
    } else {
      ForwardIsAcyclic(r, edges);
    }
  }

  lemma CyclesSilentIff(r: Roadmap, edges: seq<Edge2>)
    ensures Map((c: seq<Node>) => GraphCycle(c), Cycles(EdgeGraph(r, edges))) == [] <==> Acyclic(EdgeGraph(r, edges))
  {
    CyclesEmptyIffAcyclic(EdgeGraph(r, edges));
  }

  lemma AllEmpty<T>(a: seq<T>, b: seq<T>, c: seq<T>, d: seq<T>, e: seq<T>)
    ensures a + b + c + d + e == [] <==> a == [] && b == [] && c == [] && d == [] && e == []
  {
  }

  lemma SilentParts(r: Roadmap, g: ParsedGraph)
    requires Shape(g)
    ensures LintGraph(r, g) == [] <==>
      && Matched(r, g)
      && Resolve(NodePhase(r, g), g.solid) == Expected(r)
      && DottedFindings(r, NodePhase(r, g), Map(Ends, g.dotted)) == []
      && Acyclic(EdgeGraph(r, AllEdges(r, g)))
  {
    var np := NodePhase(r, g);
    AllEmpty(NodeFindings(r, g, g.keys), UndrawnFindings(r.phases, np.Values),
             if Resolve(np, g.solid) == Expected(r) then [] else [GraphOrder],
             DottedFindings(r, np, Map(Ends, g.dotted)),
             Map((c: seq<Node>) => GraphCycle(c), Cycles(EdgeGraph(r, AllEdges(r, g)))));
    MatchedIff(r, g);
    CyclesSilentIff(r, AllEdges(r, g));
  }

  /** Silence, exactly: nodes and phases match, the solid edges between nodes are the release order in its order, and
      each dotted edge joins nodes, is backed and goes forward; so the union has no cycle. */
  lemma SilentIff(r: Roadmap, g: ParsedGraph)
    requires Shape(g) && NoDup(PhaseOrder(r))
    ensures LintGraph(r, g) == [] <==>
      && Matched(r, g)
      && Resolve(NodePhase(r, g), g.solid) == Expected(r)
      && forall e :: e in Map(Ends, g.dotted) ==> Sound(r, g, e)
    ensures LintGraph(r, g) == [] ==> Acyclic(EdgeGraph(r, AllEdges(r, g)))
  {
    SilentParts(r, g);
    if Resolve(NodePhase(r, g), g.solid) == Expected(r) {
      AcyclicIffForward(r, g);
      SoundIff(r, g);
    }
  }

  lemma SoundIff(r: Roadmap, g: ParsedGraph)
    ensures (forall e :: e in Map(Ends, g.dotted) ==> Sound(r, g, e)) <==>
      && DottedFindings(r, NodePhase(r, g), Map(Ends, g.dotted)) == []
      && forall x :: x in Resolve(NodePhase(r, g), Map(Ends, g.dotted)) ==> Forward(r, x)
  {
    DottedCleanIff(r, NodePhase(r, g), Map(Ends, g.dotted));
    if forall e :: e in Map(Ends, g.dotted) ==> e.0 in NodePhase(r, g) && e.1 in NodePhase(r, g) {
      ForwardIff(r, g);
    }
  }

  lemma ForwardIff(r: Roadmap, g: ParsedGraph)
    requires forall e :: e in Map(Ends, g.dotted) ==> e.0 in NodePhase(r, g) && e.1 in NodePhase(r, g)
    ensures (forall x :: x in Resolve(NodePhase(r, g), Map(Ends, g.dotted)) ==> Forward(r, x)) <==>
      forall e :: e in Map(Ends, g.dotted) ==> Forward(r, (NodePhase(r, g)[e.0], NodePhase(r, g)[e.1]))
  {
    var np, edges := NodePhase(r, g), Map(Ends, g.dotted);
    forall x ensures x in Resolve(np, edges) <==>
      exists e :: e in edges && e.0 in np && e.1 in np && x == (np[e.0], np[e.1]) {
      ResolvedIs(np, edges, x);
    }
    forall e | e in edges ensures (np[e.0], np[e.1]) in Resolve(np, edges) {
      ResolvedIs(np, edges, (np[e.0], np[e.1]));
    }
  }

  /** A solid edge with an end that is no node goes unreported, whatever it claims. */
  lemma UndeclaredSolidEdgesAreIgnored(r: Roadmap, g: ParsedGraph, e: Edge2)
    requires e.0 !in g.nodes || e.1 !in g.nodes
    ensures LintGraph(r, g.(solid := g.solid + [e])) == LintGraph(r, g)
  {
    var h := g.(solid := g.solid + [e]);
    assert (g.solid + [e])[..|g.solid|] == g.solid;
    var np := NodePhase(r, g);
    assert NodePhase(r, h) == np;
    assert Resolve(np, h.solid) == Resolve(np, g.solid) + [] == Resolve(np, g.solid);
    assert AllEdges(r, h) == AllEdges(r, g);
    SameNodesSameFindings(r, g, h, g.keys);
  }

  /** All these edges, one by one, are the steps of the release order. */
  ghost predicate DrawOrder(np: map<string, string>, edges: seq<Edge2>, order: seq<Edge2>) {
    && |edges| == |order|
    && forall i :: 0 <= i < |edges| ==>
         edges[i].0 in np && edges[i].1 in np && (np[edges[i].0], np[edges[i].1]) == order[i]
  }

  lemma {:induction false} ResolveAll(np: map<string, string>, edges: seq<Edge2>)
    requires forall e :: e in edges ==> e.0 in np && e.1 in np
    ensures |Resolve(np, edges)| == |edges|
    ensures forall i :: 0 <= i < |edges| ==> Resolve(np, edges)[i] == (np[edges[i].0], np[edges[i].1])
    decreases |edges|
  {
    if edges != [] {
      var front, last := edges[..|edges| - 1], edges[|edges| - 1];
      assert edges == front + [last] && last in edges;
      ResolveAll(np, front);
    }
  }

  lemma SilentMatches(r: Roadmap, g: ParsedGraph)
    requires Shape(g) && LintGraph(r, g) == []
    ensures Resolve(NodePhase(r, g), g.solid) == Expected(r) && forall k :: k in NodePhase(r, g) <==> k in g.nodes
  {
    SilentParts(r, g);
  }

  /** The solid edges of a silent diagram, all of them, are the release order exactly when both ends of each are
      nodes. */
  lemma SilentDrawsOrderIff(r: Roadmap, g: ParsedGraph)
    requires Shape(g) && LintGraph(r, g) == []
    ensures DrawOrder(NodePhase(r, g), g.solid, Expected(r)) <==>
      forall e :: e in g.solid ==> e.0 in g.nodes && e.1 in g.nodes
  {
    SilentMatches(r, g);
    DrawOrderIff(NodePhase(r, g), g.solid, Expected(r));
  }

  lemma DrawOrderIff(np: map<string, string>, edges: seq<Edge2>, order: seq<Edge2>)
    requires Resolve(np, edges) == order
    ensures DrawOrder(np, edges, order) <==> forall e :: e in edges ==> e.0 in np && e.1 in np
  {
    if forall e :: e in edges ==> e.0 in np && e.1 in np {
      ResolveAll(np, edges);
    }
  }

  lemma {:induction false} SameNodesSameFindings(r: Roadmap, g: ParsedGraph, h: ParsedGraph, keys: seq<string>)
    requires NodePhase(r, g) == NodePhase(r, h)
    ensures NodeFindings(r, g, keys) == NodeFindings(r, h, keys)
    decreases |keys|
  {
    if keys != [] {
      SameNodesSameFindings(r, g, h, keys[..|keys| - 1]);
    }
  }

  // ----- the document ---------------------------------------------------------------------------------

  lemma {:induction false} FindFirst(lead: string, what: string, rest: string)
    requires what != "" && Find(lead + what + rest, what).Some?
    requires forall i :: 0 <= i < |lead| ==> !StartsWith((lead + what + rest)[i..], what)
    ensures Find(lead + what + rest, what) == Some(|lead|)
  {
    var s := lead + what + rest;
    assert s[0..] == s;
    if lead == "" {
      assert s[..|what|] == what;
    } else {
      var t := lead[1..] + what + rest;
      assert s[1..] == t;
      forall i | 0 <= i < |lead| - 1 ensures !StartsWith(t[i..], what) { assert t[i..] == s[i + 1..]; }
      FindFirst(lead[1..], what, rest);
    }
  }

  lemma {:induction false} FindFinds(s: string, what: string, i: nat)
    requires i <= |s| && StartsWith(s[i..], what)
    ensures Find(s, what).Some? && Find(s, what).value <= i
  {
    if !StartsWith(s, what) {
      assert s[0..] == s;
      assert s[1..][i - 1..] == s[i..];
      FindFinds(s[1..], what, i - 1);
    }
  }

  lemma FoundFirst(before: string, mark: string, rest: string)
    requires mark != "" && forall i :: 0 <= i < |before| ==> !StartsWith((before + mark + rest)[i..], mark)
    ensures var s := before + mark + rest;
      Find(s, mark) == Some(|before|) && s[..|before|] == before && s[|before| + |mark|..] == rest
  {
    MarkIsThere(before, mark, rest);
    FindFinds(before + mark + rest, mark, |before|);
    FindFirst(before, mark, rest);
  }

  lemma MarkIsThere(before: string, mark: string, rest: string)
    ensures var s := before + mark + rest;
      StartsWith(s[|before|..], mark) && s[..|before|] == before && s[|before| + |mark|..] == rest
  {
    var s := before + mark + rest;
    assert s[|before|..] == mark + rest && (mark + rest)[..|mark|] == mark;
  }

  /** The text between the first opening mark and the first closing mark after it; the tail is not looked at. */
  lemma BlockIsExtracted(before: string, body: string, after: string)
    requires forall i :: 0 <= i < |before| ==>
      !StartsWith((before + "```mermaid\n" + (body + "```" + after))[i..], "```mermaid\n")
    requires forall i :: 0 <= i < |body| ==> !StartsWith((body + "```" + after)[i..], "```")
    ensures ExtractBlock(before + "```mermaid\n" + (body + "```" + after)) == Some(body)
  {
    FoundFirst(before, "```mermaid\n", body + "```" + after);
    FoundFirst(body, "```", after);
    assert |"```mermaid\n"| == 11;
  }

  /** Without a document, or without a block in it, that is the one finding. */
  lemma NothingToCheckIff(r: Roadmap, document: Option<string>)
    ensures GraphMissing in Lint(r, document) <==> document.None? || ExtractBlock(document.value).None?
    ensures GraphMissing in Lint(r, document) ==> Lint(r, document) == [GraphMissing]
  {
    if document.Some? && ExtractBlock(document.value).Some? {
      var g := Parse(ExtractBlock(document.value).value);
      ReadKeepsShape(SplitLines(ExtractBlock(document.value).value));
      FindingsAre(r, g, GraphMissing);
    }
  }

  // ----- which findings, exactly -------------------------------------------------------------------

  ghost predicate FirstPhase(phases: seq<Phase>, id: string, i: int) {
    0 <= i < |phases| && phases[i].id == id && forall m :: 0 <= m < i ==> phases[m].id != id
  }

  lemma {:induction false} PhaseByIdIsFirst(phases: seq<Phase>, id: string)
    ensures PhaseById(phases, id).Some? ==>
      exists i :: FirstPhase(phases, id, i) && phases[i] == PhaseById(phases, id).value
    ensures forall i :: FirstPhase(phases, id, i) ==> PhaseById(phases, id) == Some(phases[i])
  {
    if phases != [] {
      PhaseByIdIsFirst(phases[1..], id);
      if phases[0].id == id {
        assert FirstPhase(phases, id, 0);
      } else {
        forall i | FirstPhase(phases, id, i) ensures FirstPhase(phases[1..], id, i - 1) { }
        if i :| FirstPhase(phases[1..], id, i) && phases[1..][i] == PhaseById(phases[1..], id).value {
          assert FirstPhase(phases, id, i + 1);
        }
      }
    }
  }

  /** target depends on source, or requires something that a package of source covers. */
  ghost predicate ReallyDepends(r: Roadmap, source: string, target: string) {
    exists i :: FirstPhase(r.phases, target, i) && DependsOrRequires(r, source, r.phases[i])
  }

  ghost predicate DependsOrRequires(r: Roadmap, source: string, target: Phase) {
    || source in target.dependsOnPhases
    || exists w, q :: w in r.packages && w.phase == source && q in w.covers && q in target.requiresRequirements
  }

  lemma BackedIff(r: Roadmap, source: string, target: string)
    ensures Backed(r, source, target) <==> ReallyDepends(r, source, target)
  {
    PhaseByIdIsFirst(r.phases, target);
    if Backed(r, source, target) {
      var i :| FirstPhase(r.phases, target, i) && r.phases[i] == PhaseById(r.phases, target).value;
      assert DependsOrRequires(r, source, r.phases[i]);
    }
    if i :| FirstPhase(r.phases, target, i) && DependsOrRequires(r, source, r.phases[i]) {
      if w, q :| w in r.packages && w.phase == source && q in w.covers && q in r.phases[i].requiresRequirements {
        assert q in Placed(r, source);
      }
    }
  }

  /** The node is matched to this phase. */
  ghost predicate Names(r: Roadmap, g: ParsedGraph, key: string, id: string) {
    key in g.nodes && PhaseNamed(r, g.nodes[key]) == Some(id)
  }

  ghost predicate Unmatched(r: Roadmap, g: ParsedGraph, key: string) {
    key !in g.nodes || PhaseNamed(r, g.nodes[key]) == None
  }

  lemma {:induction false} NodeFindingsAre(r: Roadmap, g: ParsedGraph, keys: seq<string>, f: Finding)
    ensures f in NodeFindings(r, g, keys) <==> f.UnmatchedNode? && f.key in keys && f.key !in NodePhase(r, g)
    decreases |keys|
  {
    if keys != [] {
      var front, last := keys[..|keys| - 1], keys[|keys| - 1];
      NodeFindingsAre(r, g, front, f);
      assert keys == front + [last];
      OneMoreFinding(r, g, front, last);
    }
  }

  lemma {:induction false} UndrawnFindingsAre(phases: seq<Phase>, drawn: set<string>, f: Finding)
    ensures f in UndrawnFindings(phases, drawn) <==>
      f.UndrawnPhase? && f.id !in drawn && exists p :: p in phases && p.id == f.id
    decreases |phases|
  {
    if phases != [] {
      UndrawnFindingsAre(phases[..|phases| - 1], drawn, f);
      assert phases == phases[..|phases| - 1] + [phases[|phases| - 1]];
    }
  }

  lemma {:induction false} DottedFindingsAre(r: Roadmap, np: map<string, string>, edges: seq<Edge2>, f: Finding)
    ensures f in DottedFindings(r, np, edges) <==> exists e :: e in edges && f in DottedFinding(r, np, e)
    decreases |edges|
  {
    if edges != [] {
      DottedFindingsAre(r, np, edges[..|edges| - 1], f);
      assert edges == edges[..|edges| - 1] + [edges[|edges| - 1]];
    }
  }

  lemma MapHas<A(!new), B>(f: A -> B, s: seq<A>, y: B)
    ensures y in Map(f, s) <==> exists x :: x in s && f(x) == y
  {
    if y in Map(f, s) {
      var i :| 0 <= i < |s| && Map(f, s)[i] == y;
      assert s[i] in s && f(s[i]) == y;
    }
    if x :| x in s && f(x) == y {
      var i :| 0 <= i < |s| && s[i] == x;
      assert Map(f, s)[i] == y;
    }
  }

  /** A dotted edge of the diagram with these ends, whatever its caption. */
  ghost predicate IsDotted(g: ParsedGraph, left: string, right: string) {
    exists d :: d in g.dotted && d.0 == left && d.1 == right
  }

  lemma DottedEnds(g: ParsedGraph, left: string, right: string)
    ensures (left, right) in Map(Ends, g.dotted) <==> IsDotted(g, left, right)
  {
    MapHas(Ends, g.dotted, (left, right));
  }

  /** What an edge finding says: the first kind names the ends of a dotted edge one of which is matched to no phase; the
      second two phases that a dotted edge joins without a dependency behind it. */
  ghost predicate EdgeIsWrong(r: Roadmap, g: ParsedGraph, f: Finding) {
    match f
    case UnknownEnds(left, right) => IsDotted(g, left, right) && (Unmatched(r, g, left) || Unmatched(r, g, right))
    case Unbacked(source, target) => !ReallyDepends(r, source, target) && Joined(r, g, source, target)
    case _ => false
  }

  lemma UnknownEndsAre(r: Roadmap, g: ParsedGraph, f: Finding)
    requires f.UnknownEnds?
    ensures f in DottedFindings(r, NodePhase(r, g), Map(Ends, g.dotted)) <==> EdgeIsWrong(r, g, f)
  {
    DottedFindingsAre(r, NodePhase(r, g), Map(Ends, g.dotted), f);
    DottedEnds(g, f.left, f.right);
    assert f in DottedFinding(r, NodePhase(r, g), (f.left, f.right)) <==>
      f.left !in NodePhase(r, g) || f.right !in NodePhase(r, g);
  }

  lemma UnbackedAre(r: Roadmap, g: ParsedGraph, f: Finding)
    requires f.Unbacked?
    ensures f in DottedFindings(r, NodePhase(r, g), Map(Ends, g.dotted)) <==> EdgeIsWrong(r, g, f)
  {
    var np, edges := NodePhase(r, g), Map(Ends, g.dotted);
    DottedFindingsAre(r, np, edges, f);
    BackedIff(r, f.source, f.target);
    if f in DottedFindings(r, np, edges) {
      var e :| e in edges && f in DottedFinding(r, np, e);
      DottedEnds(g, e.0, e.1);
      assert Names(r, g, e.0, f.source) && Names(r, g, e.1, f.target) && IsDotted(g, e.0, e.1);
    }
    if EdgeIsWrong(r, g, f) {
      var left, right :| IsDotted(g, left, right) && Names(r, g, left, f.source) && Names(r, g, right, f.target);
      DottedEnds(g, left, right);
      assert f in DottedFinding(r, np, (left, right));
    }
  }

  lemma EdgeFindingsAre(r: Roadmap, g: ParsedGraph, f: Finding)
    ensures f in DottedFindings(r, NodePhase(r, g), Map(Ends, g.dotted)) <==> EdgeIsWrong(r, g, f)
  {
    if f.UnknownEnds? {
      UnknownEndsAre(r, g, f);
    } else if f.Unbacked? {
      UnbackedAre(r, g, f);
    } else {
      DottedFindingsAre(r, NodePhase(r, g), Map(Ends, g.dotted), f);
    }
  }

  ghost predicate Joined(r: Roadmap, g: ParsedGraph, source: string, target: string) {
    exists left, right :: IsDotted(g, left, right) && Names(r, g, left, source) && Names(r, g, right, target)
  }

  ghost predicate Warranted(r: Roadmap, g: ParsedGraph, f: Finding) {
    match f
    case GraphMissing => false
    case UnmatchedNode(key) => key in g.nodes && Unmatched(r, g, key)
    case UndrawnPhase(id) => (exists p :: p in r.phases && p.id == id) && forall k :: !Names(r, g, k, id)
    case GraphOrder => Resolve(NodePhase(r, g), g.solid) != Expected(r)
    case UnknownEnds(left, right) => EdgeIsWrong(r, g, f)
    case Unbacked(source, target) => EdgeIsWrong(r, g, f)
    case GraphCycle(cycle) => cycle in Cycles(EdgeGraph(r, AllEdges(r, g)))
  }

  /** Exactly what is reported of a diagram. */
  lemma FindingsAre(r: Roadmap, g: ParsedGraph, f: Finding)
    requires Shape(g)
    ensures f in LintGraph(r, g) <==> Warranted(r, g, f)
  {
    UnmatchedAre(r, g, f);
    UndrawnAre(r, g, f);
    EdgeFindingsAre(r, g, f);
    CycleFindingsAre(Cycles(EdgeGraph(r, AllEdges(r, g))), f);
    InFive(f, NodeFindings(r, g, g.keys), UndrawnFindings(r.phases, NodePhase(r, g).Values),
           if Resolve(NodePhase(r, g), g.solid) == Expected(r) then [] else [GraphOrder],
           DottedFindings(r, NodePhase(r, g), Map(Ends, g.dotted)),
           Map((c: seq<Node>) => GraphCycle(c), Cycles(EdgeGraph(r, AllEdges(r, g)))));
  }

  lemma UnmatchedAre(r: Roadmap, g: ParsedGraph, f: Finding)
    requires Shape(g)
    ensures f in NodeFindings(r, g, g.keys) <==> f.UnmatchedNode? && f.key in g.nodes && Unmatched(r, g, f.key)
  {
    NodeFindingsAre(r, g, g.keys, f);
  }

  lemma UndrawnAre(r: Roadmap, g: ParsedGraph, f: Finding)
    ensures f in UndrawnFindings(r.phases, NodePhase(r, g).Values) <==>
      f.UndrawnPhase? && (exists p :: p in r.phases && p.id == f.id) && forall k :: !Names(r, g, k, f.id)
  {
    UndrawnFindingsAre(r.phases, NodePhase(r, g).Values, f);
    DrawnAre(r, g);
  }

  lemma InFive<T>(x: T, a: seq<T>, b: seq<T>, c: seq<T>, d: seq<T>, e: seq<T>)
    ensures x in a + b + c + d + e <==> x in a || x in b || x in c || x in d || x in e
  {
  }

  lemma CycleFindingsAre(reports: seq<seq<Node>>, f: Finding)
    ensures f in Map((c: seq<Node>) => GraphCycle(c), reports) <==> f.GraphCycle? && f.cycle in reports
  {
    MapHas((c: seq<Node>) => GraphCycle(c), reports, f);
  }

  lemma DrawnAre(r: Roadmap, g: ParsedGraph)
    ensures forall id :: id in NodePhase(r, g).Values <==> exists k :: Names(r, g, k, id)
  {
    var np := NodePhase(r, g);
    forall id ensures id in np.Values <==> exists k :: Names(r, g, k, id) {
      if k :| Names(r, g, k, id) { assert np[k] == id; }
      if id in np.Values {
        var k :| k in np && np[k] == id;
        assert Names(r, g, k, id);
      }
    }
  }

  /** So an edge to a phase that requires something placed in its source draws no finding. */
  lemma RequirementsBackEdges(r: Roadmap, g: ParsedGraph, w: WorkPackage, q: string, target: string, i: nat)
    requires Shape(g) && w in r.packages && q in w.covers
    requires FirstPhase(r.phases, target, i) && q in r.phases[i].requiresRequirements
    ensures Unbacked(w.phase, target) !in LintGraph(r, g)
  {
    FindingsAre(r, g, Unbacked(w.phase, target));
    assert DependsOrRequires(r, w.phase, r.phases[i]);
  }
}
