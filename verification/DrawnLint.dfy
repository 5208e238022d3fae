/** The loop closed: graph-lint on a document whose diagram is the one the tool draws. */
module DrawnLint {
  import opened Sorting
  import opened Options
  import opened Text
  import opened Roadmap
  import opened Mermaid
  import opened GraphLint

  function ReleaseTags(phases: seq<Phase>): (r: seq<string>)
    ensures |r| == |phases| && forall i :: 0 <= i < |r| ==> r[i] == phases[i].releaseTag
  {
    seq(|phases|, i requires 0 <= i < |phases| => phases[i].releaseTag)
  }

  /** Tags tell phases apart, and each label holds its own and no other. */
  ghost predicate Tagged(r: Roadmap) {
    NoDup(ReleaseTags(r.phases)) && forall p :: p in r.phases ==> Tags(LabelOf(p)) == [p.releaseTag]
  }

  predicate VisibleId(e: Edge2) {
    Visible(Keyed(e))
  }

  lemma DistinctPhases(r: Roadmap)
    requires NoDup(Keys(r.phases))
    ensures NoDup(PhaseOrder(r))
  {
    forall i, j | 0 <= i < j < |r.phases| ensures PhaseOrder(r)[i] != PhaseOrder(r)[j] {
      assert Keys(r.phases)[i] != Keys(r.phases)[j];
    }
  }

  lemma {:induction false} ByTagOf(phases: seq<Phase>, i: nat)
    requires NoDup(ReleaseTags(phases)) && i < |phases|
    ensures phases[i].releaseTag in ByTag(phases) && ByTag(phases)[phases[i].releaseTag] == phases[i].id
    decreases |phases|
  {
    var front, last := phases[..|phases| - 1], phases[|phases| - 1];
    assert ReleaseTags(phases) == ReleaseTags(front) + [last.releaseTag];
    NoDupAppended(ReleaseTags(front), last.releaseTag);
    if i < |front| {
      ByTagOf(front, i);
      assert ReleaseTags(front)[i] in ReleaseTags(front);
    }
  }

  /** Each drawn node is matched to its phase. */
  lemma DrawnNode(r: Roadmap, i: nat)
    requires Legible(r) && Tagged(r) && i < |r.phases|
    ensures KeyOf(r.phases[i].id) in NodePhase(r, Drawn(r))
    ensures NodePhase(r, Drawn(r))[KeyOf(r.phases[i].id)] == r.phases[i].id
  {
    var p := r.phases[i];
    assert p in r.phases;
    NodesAre(r.phases);
    ByTagOf(r.phases, i);
    assert PhaseNamed(r, LabelOf(p)) == Some(p.id);
  }

  lemma DrawnIsMatched(r: Roadmap)
    requires Legible(r) && Tagged(r)
    ensures Matched(r, Drawn(r))
    ensures forall id :: id in PhaseOrder(r) ==>
      KeyOf(id) in NodePhase(r, Drawn(r)) && NodePhase(r, Drawn(r))[KeyOf(id)] == id
  {
    var g := Drawn(r);
    NodesAre(r.phases);
    forall k | k in g.nodes ensures PhaseNamed(r, g.nodes[k]).Some? {
      var i: nat :| i < |r.phases| && Keys(r.phases)[i] == k;
      DrawnNode(r, i);
    }
    forall p | p in r.phases ensures exists k :: k in g.nodes && PhaseNamed(r, g.nodes[k]) == Some(p.id) {
      var i: nat :| i < |r.phases| && r.phases[i] == p;
      DrawnNode(r, i);
      assert KeyOf(p.id) in g.nodes && PhaseNamed(r, g.nodes[KeyOf(p.id)]) == Some(p.id);
    }
    forall id | id in PhaseOrder(r) ensures KeyOf(id) in NodePhase(r, g) && NodePhase(r, g)[KeyOf(id)] == id {
      var i: nat :| i < |r.phases| && r.phases[i].id == id;
      DrawnNode(r, i);
    }
  }

  /** Reading keys back as phases undoes keying, for the edges that were read at all. */
  lemma {:induction false} ResolveUndoesKeys(r: Roadmap, np: map<string, string>, edges: seq<Edge2>)
    requires forall id :: id in PhaseOrder(r) ==> KeyOf(id) in np && np[KeyOf(id)] == id
    requires forall e :: e in edges ==> e.0 in PhaseOrder(r) && e.1 in PhaseOrder(r)
    ensures Resolve(np, Shown(Map(Keyed, edges))) == Filter(VisibleId, edges)
    decreases |edges|
  {
    if edges != [] {
      var front, last := edges[..|edges| - 1], edges[|edges| - 1];
      assert edges == front + [last] && last in edges;
      ResolveUndoesKeys(r, np, front);
      FilterAppended(VisibleId, front, last);
      MapAppended(Keyed, front, last);
      FilterAppended(Visible, Map(Keyed, front), Keyed(last));
      ResolveLast(np, Shown(Map(Keyed, front)), Keyed(last));
    }
  }

  lemma ResolveLast(np: map<string, string>, edges: seq<Edge2>, e: Edge2)
    requires e.0 in np && e.1 in np
    ensures Resolve(np, edges + [e]) == Resolve(np, edges) + [(np[e.0], np[e.1])]
    ensures Resolve(np, edges + []) == Resolve(np, edges)
  {
    assert (edges + [e])[..|edges|] == edges && edges + [] == edges;
  }

  lemma ExpectedAreDrawn(r: Roadmap)
    ensures OrderEdges(r) == Map(Keyed, Expected(r))
    ensures forall e :: e in Expected(r) ==> e.0 in PhaseOrder(r) && e.1 in PhaseOrder(r)
  {
    forall e | e in Expected(r) ensures e.0 in PhaseOrder(r) && e.1 in PhaseOrder(r) {
      var i: nat :| i < |Expected(r)| && Expected(r)[i] == e;
      assert PhaseOrder(r)[i] == e.0 && PhaseOrder(r)[i + 1] == e.1;
    }
  }

  lemma {:induction false} FindsThePhase(phases: seq<Phase>, p: Phase)
    requires p in phases && forall a, b :: a in phases && b in phases && a.id == b.id ==> a == b
    ensures PhaseById(phases, p.id) == Some(p)
  {
    if phases[0].id == p.id {
      assert phases[0] in phases;
    } else {
      assert phases == [phases[0]] + phases[1..];
      FindsThePhase(phases[1..], p);
    }
  }

  lemma CrossingIsBacked(r: Roadmap, e: Edge2)
    requires NoDup(PhaseOrder(r)) && e in Crossing(r, r.phases)
    ensures Backed(r, e.0, e.1) && e.1 in PhaseOrder(r)
  {
    CrossingIs(r, r.phases, e);
    var p :| p in r.phases && p.id == e.1 && e.0 in p.dependsOnPhases;
    IdsTellPhases(r);
    FindsThePhase(r.phases, p);
    var i: nat :| i < |r.phases| && r.phases[i] == p;
    assert PhaseOrder(r)[i] == e.1;
  }

  lemma IdsTellPhases(r: Roadmap)
    requires NoDup(PhaseOrder(r))
    ensures forall a, b :: a in r.phases && b in r.phases && a.id == b.id ==> a == b
  {
    forall a, b | a in r.phases && b in r.phases && a.id == b.id ensures a == b {
      var i: nat, j: nat :| i < |r.phases| && j < |r.phases| && r.phases[i] == a && r.phases[j] == b;
      assert PhaseOrder(r)[i] == PhaseOrder(r)[j];
    }
  }

  lemma EndsOfCaptioned(edges: seq<Edge2>)
    ensures Map(Ends, Map(Captioned, edges)) == edges
  {
  }

  /** The key of the edge's source is that of a phase which its target needs, and which comes earlier. */
  ghost predicate PointsForward(r: Roadmap, e: Edge2) {
    exists s :: s in PhaseOrder(r) && KeyOf(s) == KeyOf(e.0) && Backed(r, s, e.1) && Forward(r, (s, e.1))
  }

  lemma NodesAreDrawnPhases(r: Roadmap, key: string)
    requires NoDup(Keys(r.phases)) && key in NodePhase(r, Drawn(r))
    ensures exists id :: id in PhaseOrder(r) && KeyOf(id) == key
  {
    NodesAre(r.phases);
    var i: nat :| i < |r.phases| && Keys(r.phases)[i] == key;
    assert PhaseOrder(r)[i] in PhaseOrder(r);
  }

  lemma CrossingSoundIff(r: Roadmap, e: Edge2)
    requires Legible(r) && Tagged(r) && NoDup(PhaseOrder(r)) && e in Crossing(r, r.phases)
    ensures Sound(r, Drawn(r), Keyed(e)) <==> PointsForward(r, e)
  {
    DrawnIsMatched(r);
    CrossingIsBacked(r, e);
    if KeyOf(e.0) in NodePhase(r, Drawn(r)) {
      NodesAreDrawnPhases(r, KeyOf(e.0));
    }
  }

  /** The dotted edges of the drawing are sound exactly when those that were read point forward. */
  lemma DottedSoundIff(r: Roadmap)
    requires Legible(r) && Tagged(r) && NoDup(PhaseOrder(r))
    ensures (forall e :: e in Map(Ends, Drawn(r).dotted) ==> Sound(r, Drawn(r), e)) <==>
      forall e :: e in Crossing(r, r.phases) && VisibleId(e) ==> PointsForward(r, e)
  {
    var g, crossing := Drawn(r), Crossing(r, r.phases);
    EndsOfCaptioned(Shown(CrossEdges(r)));
    forall e | e in crossing ensures Sound(r, g, Keyed(e)) <==> PointsForward(r, e) {
      CrossingSoundIff(r, e);
    }
    ShownAreCrossing(r);
  }

  lemma ShownAreCrossing(r: Roadmap)
    ensures forall k :: k in Shown(CrossEdges(r)) <==>
      exists e :: e in Crossing(r, r.phases) && VisibleId(e) && k == Keyed(e)
  {
    var crossing := Crossing(r, r.phases);
    forall k | k in Shown(CrossEdges(r)) ensures exists e :: e in crossing && VisibleId(e) && k == Keyed(e) {
      var i: nat :| i < |crossing| && CrossEdges(r)[i] == k;
      assert crossing[i] in crossing && VisibleId(crossing[i]);
    }
    forall e | e in crossing && VisibleId(e) ensures Keyed(e) in Shown(CrossEdges(r)) {
      var i: nat :| i < |crossing| && crossing[i] == e;
      assert CrossEdges(r)[i] == Keyed(e);
      assert Keyed(e) in CrossEdges(r);
    }
  }

  lemma SolidIff(r: Roadmap)
    requires Legible(r) && Tagged(r)
    ensures Resolve(NodePhase(r, Drawn(r)), Drawn(r).solid) == Expected(r) <==>
      forall e :: e in Expected(r) ==> VisibleId(e)
  {
    DrawnIsMatched(r);
    ExpectedAreDrawn(r);
    ResolveUndoesKeys(r, NodePhase(r, Drawn(r)), Expected(r));
    FilterKeepsAll(VisibleId, Expected(r));
  }

  lemma DrawnSilentIff(r: Roadmap)
    requires Legible(r) && Tagged(r) && NoDup(PhaseOrder(r)) && Shape(Drawn(r))
    ensures LintGraph(r, Drawn(r)) == [] <==>
      && (forall e :: e in Expected(r) ==> VisibleId(e))
      && forall e :: e in Crossing(r, r.phases) && VisibleId(e) ==> PointsForward(r, e)
  {
    SilentIff(r, Drawn(r));
    DrawnIsMatched(r);
    SolidIff(r);
    DottedSoundIff(r);
  }

  lemma LintOfDrawing(r: Roadmap, document: string)
    requires Legible(r) && ExtractBlock(document) == Some(Rendered(r))
    ensures Lint(r, Some(document)) == LintGraph(r, Drawn(r)) && Shape(Drawn(r))
  {
    ParseOfRender(r);
    ParseShape(Rendered(r));
  }

  lemma KeyTellsPhase(r: Roadmap, s: string, t: string)
    requires NoDup(Keys(r.phases)) && s in PhaseOrder(r) && t in PhaseOrder(r) && KeyOf(s) == KeyOf(t)
    ensures s == t
  {
    var i: nat, j: nat :| i < |r.phases| && j < |r.phases| && PhaseOrder(r)[i] == s && PhaseOrder(r)[j] == t;
    assert Keys(r.phases)[i] == Keys(r.phases)[j];
  }

  /** For a dependency that is a phase, pointing forward is naming an earlier one. */
  lemma DeclaredPointsForwardIff(r: Roadmap, e: Edge2)
    requires NoDup(Keys(r.phases)) && e in Crossing(r, r.phases) && e.0 in PhaseOrder(r)
    ensures PointsForward(r, e) <==> PhaseIndex(r, e.0) < PhaseIndex(r, e.1)
  {
    DistinctPhases(r);
    CrossingIsBacked(r, e);
    if s :| s in PhaseOrder(r) && KeyOf(s) == KeyOf(e.0) && Backed(r, s, e.1) && Forward(r, (s, e.1)) {
      KeyTellsPhase(r, s, e.0);
    }
  }

  /** On a document that holds the drawing of a legible, tagged roadmap, graph-lint is silent exactly when no release
      step starts at a key that begins with graph, and every crossing dependency it can read has the key of a phase
      that is needed and earlier. */
  lemma LintOfDrawingIff(r: Roadmap, document: string)
    requires Legible(r) && Tagged(r) && ExtractBlock(document) == Some(Rendered(r))
    ensures Lint(r, Some(document)) == [] <==>
      && (forall e :: e in Expected(r) ==> VisibleId(e))
      && forall e :: e in Crossing(r, r.phases) && VisibleId(e) ==> PointsForward(r, e)
  {
    DistinctPhases(r);
    LintOfDrawing(r, document);
    DrawnSilentIff(r);
  }

  /** The documented case: dependencies name earlier phases and no key begins with graph. */
  lemma EarlierDependenciesAreSilent(r: Roadmap, document: string)
    requires Legible(r) && Tagged(r) && ExtractBlock(document) == Some(Rendered(r))
    requires forall p, d :: p in r.phases && d in p.dependsOnPhases ==> 0 <= PhaseIndex(r, d) < PhaseIndex(r, p.id)
    requires forall p :: p in r.phases ==> !StartsWith(KeyOf(p.id), "graph")
    ensures Lint(r, Some(document)) == []
  {
    forall e | e in Crossing(r, r.phases) ensures PointsForward(r, e) {
      CrossingIs(r, r.phases, e);
      var p :| p in r.phases && p.id == e.1 && e.0 in p.dependsOnPhases;
      assert 0 <= PhaseIndex(r, e.0) < PhaseIndex(r, p.id);
      DeclaredPointsForwardIff(r, e);
    }
    forall e | e in Expected(r) ensures VisibleId(e) {
      var i: nat :| i < |Expected(r)| && Expected(r)[i] == e;
      assert r.phases[i] in r.phases && PhaseOrder(r)[i] == r.phases[i].id;
    }
    LintOfDrawingIff(r, document);
  }
}
