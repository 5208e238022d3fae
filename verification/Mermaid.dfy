/** The phase graph as a Mermaid diagram: drawing it, reading it back, and when the two agree. */
module Mermaid {
  import opened Sorting
  import opened Options
  import opened Text
  import opened MermaidText
  import opened Roadmap

  type Edge2 = (string, string)

  /** keys is the insertion order of the dictionary of nodes. */
  datatype ParsedGraph = ParsedGraph(keys: seq<string>, nodes: map<string, string>, solid: seq<Edge2>,
                                     dotted: seq<(string, string, string)>)

  // ----- drawing ----------------------------------------------------------------------------

  predicate IsAlpha(c: char) {
    IsLower(c) || IsUpper(c)
  }

  function Underscored(s: string): (r: string)
    ensures |r| == |s| && forall i :: 0 <= i < |r| ==> r[i] == if s[i] == '-' then '_' else s[i]
  {
    seq(|s|, i requires 0 <= i < |s| => if s[i] == '-' then '_' else s[i])
  }

  /** The node key of a phase; an empty id has none, and whoever draws it must refuse it first. */
  function KeyOf(id: string): string {
    if id == "" then "" else if IsAlpha(id[0]) then Underscored(id) else "P" + id
  }

  function LabelOf(p: Phase): string {
    p.id + " " + p.name + " " + p.releaseTag
  }

  function Keys(phases: seq<Phase>): (r: seq<string>)
    ensures |r| == |phases| && forall i :: 0 <= i < |r| ==> r[i] == KeyOf(phases[i].id)
  {
    seq(|phases|, i requires 0 <= i < |phases| => KeyOf(phases[i].id))
  }

  /** The dependencies of one phase that the release order does not draw already. */
  function CrossingOf(r: Roadmap, p: Phase, dependencies: seq<string>): seq<Edge2> {
    if dependencies == [] then []
    else
      var last := dependencies[|dependencies| - 1];
      CrossingOf(r, p, dependencies[..|dependencies| - 1])
      + if PhaseIndex(r, last) == PhaseIndex(r, p.id) - 1 then [] else [(last, p.id)]
  }

  function Crossing(r: Roadmap, phases: seq<Phase>): seq<Edge2> {
    if phases == [] then []
    else
      var last := phases[|phases| - 1];
      Crossing(r, phases[..|phases| - 1]) + CrossingOf(r, last, last.dependsOnPhases)
  }

  function NodeLine(p: Phase): string {
    "  " + KeyOf(p.id) + "[\"" + LabelOf(p) + "\"]"
  }

  /** The line of an edge between node keys. */
  function SolidLine(e: Edge2): string {
    "  " + e.0 + " --> " + e.1
  }

  function DottedLine(e: Edge2): string {
    "  " + DottedText(e.0, e.1)
  }

  function Keyed(e: Edge2): Edge2 {
    (KeyOf(e.0), KeyOf(e.1))
  }

  function Map<A, B>(f: A -> B, s: seq<A>): (r: seq<B>)
    ensures |r| == |s| && forall i :: 0 <= i < |r| ==> r[i] == f(s[i])
  {
    seq(|s|, i requires 0 <= i < |s| => f(s[i]))
  }

  function OrderEdges(r: Roadmap): seq<Edge2> {
    Pairs(Keys(r.phases))
  }

  function CrossEdges(r: Roadmap): seq<Edge2> {
    Map(Keyed, Crossing(r, r.phases))
  }

  function Lines(r: Roadmap): seq<string> {
    ["graph TD"] + Map(NodeLine, r.phases) + [""] + Map(SolidLine, OrderEdges(r)) + Map(DottedLine, CrossEdges(r))
  }

  function Rendered(r: Roadmap): string {
    JoinLines(Lines(r))
  }

  /** Every id that gets drawn has a first character. */
  predicate Drawable(r: Roadmap) {
    (forall p :: p in r.phases ==> p.id != "") && Named(Crossing(r, r.phases))
  }

  lemma MapAppended<A, B>(f: A -> B, s: seq<A>, last: A)
    ensures Map(f, s + [last]) == Map(f, s) + [f(last)]
  {
  }

  /** Err is the IndexError of an id without a first character. */
  method RenderMermaid(r: Roadmap) returns (text: Result<string, string>)
    ensures text.Ok? <==> Drawable(r)
    ensures text.Ok? ==> text.value == Rendered(r)
  {
    var nodes, named := DrawNodes(r);
    if !named {
      return Err("IndexError");
    }
    var order := DrawOrder(r);
    var crossing, drawable := DrawAllCrossing(r);
    if !drawable {
      return Err("IndexError");
    }
    return Ok(JoinLines(["graph TD"] + nodes + [""] + order + crossing));
  }

  method DrawNodes(r: Roadmap) returns (lines: seq<string>, ok: bool)
    ensures ok <==> forall p :: p in r.phases ==> p.id != ""
    ensures ok ==> lines == Map(NodeLine, r.phases)
  {
    lines := [];
    for i := 0 to |r.phases|
      invariant forall p :: p in r.phases[..i] ==> p.id != ""
      invariant lines == Map(NodeLine, r.phases[..i])
    {
      var phase := r.phases[i];
      assert r.phases[..i + 1] == r.phases[..i] + [phase] && phase in r.phases;
      if phase.id == "" {
        return [], false;
      }
      lines := lines + [NodeLine(phase)];
    }
    assert r.phases[..|r.phases|] == r.phases;
    ok := true;
  }

  method DrawOrder(r: Roadmap) returns (lines: seq<string>)
    ensures lines == Map(SolidLine, OrderEdges(r))
  {
    var edges := OrderEdges(r);
    lines := [];
    for i := 0 to |edges|
      invariant lines == Map(SolidLine, edges[..i])
    {
      assert edges[..i + 1] == edges[..i] + [edges[i]];
      lines := lines + [SolidLine(edges[i])];
    }
    assert edges[..|edges|] == edges;
  }

  method DrawAllCrossing(r: Roadmap) returns (lines: seq<string>, ok: bool)
    ensures ok <==> Named(Crossing(r, r.phases))
    ensures ok ==> lines == DottedLines(Crossing(r, r.phases))
  {
    lines := [];
    for i := 0 to |r.phases|
      invariant lines == DottedLines(Crossing(r, r.phases[..i])) && Named(Crossing(r, r.phases[..i]))
    {
      OneMorePhase(r, i);
      var more, drawable := DrawCrossing(r, r.phases[i]);
      if !drawable {
        UndrawableEdge(r, i);
        return [], false;
      }
      lines := lines + more;
    }
    assert r.phases[..|r.phases|] == r.phases;
    ok := true;
  }

  /** Every source has a first character. */
  predicate Named(edges: seq<Edge2>) {
    forall e :: e in edges ==> e.0 != ""
  }

  lemma OneMorePhase(r: Roadmap, i: nat)
    requires i < |r.phases|
    ensures var before, added := Crossing(r, r.phases[..i]), CrossingOf(r, r.phases[i], r.phases[i].dependsOnPhases);
      && DottedLines(Crossing(r, r.phases[..i + 1])) == DottedLines(before) + DottedLines(added)
      && (Named(Crossing(r, r.phases[..i + 1])) <==> Named(before) && Named(added))
  {
    assert r.phases[..i + 1][..i] == r.phases[..i];
    var before, added := Crossing(r, r.phases[..i]), CrossingOf(r, r.phases[i], r.phases[i].dependsOnPhases);
    assert Crossing(r, r.phases[..i + 1]) == before + added;
    DottedLinesAppended(before, added);
    NamedAppended(before, added);
  }

  lemma NamedAppended(a: seq<Edge2>, b: seq<Edge2>)
    ensures Named(a + b) <==> Named(a) && Named(b)
  {
    if Named(a + b) {
      forall e | e in a || e in b ensures e.0 != "" {
        assert e in a + b;
      }
    }
  }

  function DottedLines(edges: seq<Edge2>): seq<string> {
    Map(DottedLine, Map(Keyed, edges))
  }

  lemma DottedLinesAppended(a: seq<Edge2>, b: seq<Edge2>)
    ensures DottedLines(a + b) == DottedLines(a) + DottedLines(b)
  {
  }

  method DrawCrossing(r: Roadmap, phase: Phase) returns (lines: seq<string>, ok: bool)
    ensures ok <==> Named(CrossingOf(r, phase, phase.dependsOnPhases))
    ensures ok ==> lines == DottedLines(CrossingOf(r, phase, phase.dependsOnPhases))
  {
    lines := [];
    var dependencies := phase.dependsOnPhases;
    for j := 0 to |dependencies|
      invariant lines == DottedLines(CrossingOf(r, phase, dependencies[..j]))
      invariant Named(CrossingOf(r, phase, dependencies[..j]))
    {
      var dependency := dependencies[j];
      assert dependencies[..j + 1][..j] == dependencies[..j];
      if PhaseIndex(r, dependency) == PhaseIndex(r, phase.id) - 1 {
        continue;
      }
      if dependency == "" {
        CrossingOfIs(r, phase, dependencies, (dependency, phase.id));
        return [], false;
      }
      DottedLinesAppended(CrossingOf(r, phase, dependencies[..j]), [(dependency, phase.id)]);
      lines := lines + [DottedLine((KeyOf(dependency), KeyOf(phase.id)))];
    }
    assert dependencies[..|dependencies|] == dependencies;
    ok := true;
  }

  lemma {:induction false} CrossingIs(r: Roadmap, phases: seq<Phase>, e: Edge2)
    ensures e in Crossing(r, phases) <==>
      exists p :: p in phases && p.id == e.1 && e.0 in p.dependsOnPhases && PhaseIndex(r, e.0) != PhaseIndex(r, e.1) - 1
    decreases |phases|
  {
    if phases != [] {
      var front, last := phases[..|phases| - 1], phases[|phases| - 1];
      assert phases == front + [last];
      CrossingIs(r, front, e);
      CrossingOfIs(r, last, last.dependsOnPhases, e);
    }
  }

  lemma {:induction false} CrossingOfIs(r: Roadmap, p: Phase, dependencies: seq<string>, e: Edge2)
    ensures e in CrossingOf(r, p, dependencies) <==>
      p.id == e.1 && e.0 in dependencies && PhaseIndex(r, e.0) != PhaseIndex(r, e.1) - 1
    decreases |dependencies|
  {
    if dependencies != [] {
      var n := |dependencies| - 1;
      CrossingOfIs(r, p, dependencies[..n], e);
      assert dependencies == dependencies[..n] + [dependencies[n]];
    }
  }

  lemma UndrawableEdge(r: Roadmap, i: nat)
    requires i < |r.phases| && exists e :: e in CrossingOf(r, r.phases[i], r.phases[i].dependsOnPhases) && e.0 == ""
    ensures exists e :: e in Crossing(r, r.phases) && e.0 == ""
  {
    var e :| e in CrossingOf(r, r.phases[i], r.phases[i].dependsOnPhases) && e.0 == "";
    CrossingOfIs(r, r.phases[i], r.phases[i].dependsOnPhases, e);
    CrossingIs(r, r.phases, e);
  }

  const FIRST := Phase("P0", "Base", [], [], "v0.1.0")
  const SECOND := Phase("P-1", "Edge", ["P0"], [], "v0.2.0")
  const THIRD := Phase("3d", "Late", ["P-1", "P0"], [], "v0.3.0")

  /** One drawing, line by line: keys without hyphens that open with a letter, labels, the release order, and a dotted
      line for the one dependency that is not the step before. */
  lemma ADrawing()
    ensures Lines(Roadmap([FIRST, SECOND, THIRD], [], map[])) == [
      "graph TD",
      "  P0[\"P0 Base v0.1.0\"]",
      "  P_1[\"P-1 Edge v0.2.0\"]",
      "  P3d[\"3d Late v0.3.0\"]",
      "",
      "  P0 --> P_1",
      "  P_1 --> P3d",
      "  P0 -." + " crosses the release order " + ".-> P3d"]
  {
    var r := Roadmap([FIRST, SECOND, THIRD], [], map[]);
    KeysOfThree();
    CrossingOfThree(r);
    LinesOfThree(r);
    FirstText();
    SecondText();
    ThirdText();
    OrderTexts();
    CrossingText();
  }

  lemma LinesOfThree(r: Roadmap)
    requires r.phases == [FIRST, SECOND, THIRD] && Crossing(r, r.phases) == [("P0", "3d")]
    ensures Lines(r) == [
      "graph TD", NodeLine(FIRST), NodeLine(SECOND), NodeLine(THIRD), "",
      SolidLine((KeyOf(FIRST.id), KeyOf(SECOND.id))), SolidLine((KeyOf(SECOND.id), KeyOf(THIRD.id))),
      DottedLine((KeyOf("P0"), KeyOf("3d")))]
  {
    assert OrderEdges(r) == [(KeyOf(FIRST.id), KeyOf(SECOND.id)), (KeyOf(SECOND.id), KeyOf(THIRD.id))];
    assert CrossEdges(r) == [(KeyOf("P0"), KeyOf("3d"))];
  }

  lemma FirstText()
    ensures NodeLine(FIRST) == "  P0[\"P0 Base v0.1.0\"]"
  {
    KeysOfThree();
  }

  lemma SecondText()
    ensures NodeLine(SECOND) == "  P_1[\"P-1 Edge v0.2.0\"]"
  {
    KeysOfThree();
  }

  lemma ThirdText()
    ensures NodeLine(THIRD) == "  P3d[\"3d Late v0.3.0\"]"
  {
    KeysOfThree();
  }

  lemma OrderTexts()
    ensures SolidLine(("P0", "P_1")) == "  P0 --> P_1" && SolidLine(("P_1", "P3d")) == "  P_1 --> P3d"
  {
  }

  lemma CrossingText()
    ensures DottedLine(("P0", "P3d")) == "  P0 -." + " crosses the release order " + ".-> P3d"
  {
    DottedParts("P0", "P3d");
    assert "  " + "P0" + " -." == "  P0 -." && ".-> " + "P3d" == ".-> P3d";
    assert " " + CROSSING + " " == " crosses the release order ";
  }

  lemma DottedParts(left: string, right: string)
    ensures DottedLine((left, right)) == "  " + left + " -." + (" " + CROSSING + " ") + (".-> " + right)
  {
  }

  lemma KeysOfThree()
    ensures KeyOf("P0") == "P0" && KeyOf("P-1") == "P_1" && KeyOf("3d") == "P3d"
  {
  }

  lemma OneMoreDependency(r: Roadmap, p: Phase, before: seq<string>, dependency: string)
    ensures CrossingOf(r, p, before + [dependency]) == CrossingOf(r, p, before)
      + if PhaseIndex(r, dependency) == PhaseIndex(r, p.id) - 1 then [] else [(dependency, p.id)]
  {
    assert (before + [dependency])[..|before|] == before;
  }

  lemma PhaseAppended(r: Roadmap, phases: seq<Phase>, p: Phase)
    ensures Crossing(r, phases + [p]) == Crossing(r, phases) + CrossingOf(r, p, p.dependsOnPhases)
  {
    assert (phases + [p])[..|phases|] == phases;
  }

  lemma IndexesOfThree(r: Roadmap)
    requires r.phases == [FIRST, SECOND, THIRD]
    ensures PhaseIndex(r, "P0") == 0 && PhaseIndex(r, "P-1") == 1 && PhaseIndex(r, "3d") == 2
  {
    assert PhaseOrder(r) == ["P0", "P-1", "3d"];
    FirstIndex(PhaseOrder(r), "P0", 0);
    FirstIndex(PhaseOrder(r), "P-1", 1);
    FirstIndex(PhaseOrder(r), "3d", 2);
  }

  lemma DependenciesOfThree(r: Roadmap)
    requires PhaseIndex(r, "P0") == 0 && PhaseIndex(r, "P-1") == 1 && PhaseIndex(r, "3d") == 2
    ensures CrossingOf(r, FIRST, FIRST.dependsOnPhases) == [] == CrossingOf(r, SECOND, SECOND.dependsOnPhases)
    ensures CrossingOf(r, THIRD, THIRD.dependsOnPhases) == [("P0", "3d")]
  {
    OneMoreDependency(r, SECOND, [], "P0");
    OneMoreDependency(r, THIRD, [], "P-1");
    OneMoreDependency(r, THIRD, ["P-1"], "P0");
    assert [] + ["P0"] == SECOND.dependsOnPhases && [] + ["P-1"] == ["P-1"]
      && ["P-1"] + ["P0"] == THIRD.dependsOnPhases;
  }

  lemma CrossingOfThree(r: Roadmap)
    requires r.phases == [FIRST, SECOND, THIRD]
    ensures Crossing(r, r.phases) == [("P0", "3d")]
  {
    IndexesOfThree(r);
    DependenciesOfThree(r);
    OnlyTheLastCrosses(r, FIRST, SECOND, THIRD);
  }

  lemma OnlyTheLastCrosses(r: Roadmap, p: Phase, q: Phase, s: Phase)
    requires CrossingOf(r, p, p.dependsOnPhases) == [] == CrossingOf(r, q, q.dependsOnPhases)
    ensures Crossing(r, [p, q, s]) == CrossingOf(r, s, s.dependsOnPhases)
  {
    var two := [p, q];
    TwoCrossNothing(r, p, q);
    PhaseAppended(r, two, s);
    assert two + [s] == [p, q, s];
  }

  lemma TwoCrossNothing(r: Roadmap, p: Phase, q: Phase)
    requires CrossingOf(r, p, p.dependsOnPhases) == [] == CrossingOf(r, q, q.dependsOnPhases)
    ensures Crossing(r, [p, q]) == []
  {
    var one := [p];
    NothingCrosses(r, [], p);
    assert [] + [p] == one;
    NothingCrosses(r, one, q);
    assert one + [q] == [p, q];
  }

  lemma NothingCrosses(r: Roadmap, phases: seq<Phase>, p: Phase)
    requires Crossing(r, phases) == [] == CrossingOf(r, p, p.dependsOnPhases)
    ensures Crossing(r, phases + [p]) == []
  {
    PhaseAppended(r, phases, p);
  }

  // ----- reading ------------------------------------------------------------------------------------

  function ReadLine(g: ParsedGraph, line: string): ParsedGraph {
    match MatchNode(line)
    case Some(node) =>
      g.(keys := if node.0 in g.nodes then g.keys else g.keys + [node.0], nodes := g.nodes[node.0 := node.1])
    case None =>
      var stripped := Strip(line);
      if Ignored(stripped) then g
      else match MatchDotted(stripped)
           case Some(m) => g.(dotted := g.dotted + [(Strip(m.0), Strip(AfterDotted(stripped)), Strip(m.1))])
           case None =>
             if Find(stripped, "-->").Some? then g.(solid := g.solid + Pairs(Stripped(Split(stripped, "-->")))) else g
  }

  function ReadLines(g: ParsedGraph, lines: seq<string>): ParsedGraph {
    if lines == [] then g else ReadLine(ReadLines(g, lines[..|lines| - 1]), lines[|lines| - 1])
  }

  const EMPTY := ParsedGraph([], map[], [], [])

  function Parse(text: string): ParsedGraph {
    ReadLines(EMPTY, SplitLines(text))
  }

  method ParseMermaid(text: string) returns (g: ParsedGraph)
    ensures g == Parse(text)
  {
    var keys: seq<string> := [];
    var nodes: map<string, string> := map[];
    var solid: seq<Edge2> := [];
    var dotted: seq<(string, string, string)> := [];
    var lines := SplitLines(text);
    for i := 0 to |lines|
      invariant ParsedGraph(keys, nodes, solid, dotted) == ReadLines(EMPTY, lines[..i])
    {
      assert lines[..i + 1][..i] == lines[..i];
      var line := lines[i];
      var node := MatchNode(line);
      if node.Some? {
        keys := if node.value.0 in nodes then keys else keys + [node.value.0];
        nodes := nodes[node.value.0 := node.value.1];
        continue;
      }
      var stripped := Strip(line);
      if Ignored(stripped) {
        continue;
      }
      var m := MatchDotted(stripped);
      if m.Some? {
        dotted := dotted + [(Strip(m.value.0), Strip(AfterDotted(stripped)), Strip(m.value.1))];
        continue;
      }
      if Find(stripped, "-->").Some? {
        var chain := Stripped(Split(stripped, "-->"));
        solid := solid + Pairs(chain);
      }
    }
    assert lines[..|lines|] == lines;
    return ParsedGraph(keys, nodes, solid, dotted);
  }

  // ----- reading what was drawn ------------------------------------------------------------------------

  /** The ids and labels are such that a line can hold them. */
  ghost predicate Legible(r: Roadmap) {
    && NoDup(Keys(r.phases))
    && (forall p :: p in r.phases ==> IsWord(KeyOf(p.id)) && IsLabel(LabelOf(p)))
    && forall e :: e in Crossing(r, r.phases) ==> IsWord(KeyOf(e.0)) && IsWord(KeyOf(e.1))
  }

  predicate Visible(e: Edge2) {
    !StartsWith(e.0, "graph")
  }

  function Shown(edges: seq<Edge2>): seq<Edge2> {
    Filter(Visible, edges)
  }

  function Captioned(e: Edge2): (string, string, string) {
    (e.0, e.1, CROSSING)
  }

  ghost predicate WordEdges(edges: seq<Edge2>) {
    forall e :: e in edges ==> IsWord(e.0) && IsWord(e.1)
  }

  function AddSolid(g: ParsedGraph, edges: seq<Edge2>): ParsedGraph {
    g.(solid := g.solid + edges)
  }

  function AddDotted(g: ParsedGraph, edges: seq<Edge2>): ParsedGraph {
    g.(dotted := g.dotted + Map(Captioned, edges))
  }

  lemma AddTwice(g: ParsedGraph, a: seq<Edge2>, b: seq<Edge2>)
    ensures AddSolid(AddSolid(g, a), b) == AddSolid(g, a + b)
    ensures AddDotted(AddDotted(g, a), b) == AddDotted(g, a + b)
    ensures AddSolid(g, []) == g && AddDotted(g, []) == g
  {
    assert Map(Captioned, a + b) == Map(Captioned, a) + Map(Captioned, b);
    assert g.dotted + Map(Captioned, a) + Map(Captioned, b) == g.dotted + (Map(Captioned, a) + Map(Captioned, b));
    assert g.solid + a + b == g.solid + (a + b);
    assert g.solid + [] == g.solid && g.dotted + Map(Captioned, []) == g.dotted;
  }

  lemma {:induction false} ReadAppend(g: ParsedGraph, a: seq<string>, b: seq<string>)
    ensures ReadLines(g, a + b) == ReadLines(ReadLines(g, a), b)
    decreases |b|
  {
    if b == [] {
      assert a + b == a;
    } else {
      var front := b[..|b| - 1];
      assert (a + b)[..|a + b| - 1] == a + front;
      ReadAppend(g, a, front);
    }
  }

  lemma PrefixInside(left: string, tail: string, what: string)
    requires tail != [] && tail[0] !in what
    ensures StartsWith(left + tail, what) <==> StartsWith(left, what)
  {
    var s := left + tail;
    assert s[|left|] == tail[0];
    assert |what| <= |left| ==> s[..|what|] == left[..|what|];
    if StartsWith(s, what) {
      assert forall i :: 0 <= i < |what| ==> s[i] == what[i];
    }
  }

  lemma NoPercent(left: string)
    ensures StartsWith(left, "%%") ==> '%' in left
  {
    if StartsWith(left, "%%") {
      assert left[..2][0] == '%';
    }
  }

  lemma SourceDecides(left: string, tail: string)
    requires IsWord(left) && tail != [] && tail[0] == ' '
    ensures Ignored(left + tail) <==> StartsWith(left, "graph")
  {
    WordTrims(left);
    PrefixInside(left, tail, "graph");
    PrefixInside(left, tail, "%%");
    NoPercent(left);
  }

  lemma EdgeLineRead(left: string, middle: string, right: string)
    requires IsWord(left) && IsWord(right) && middle != [] && middle[0] == ' '
    ensures MatchNode("  " + left + middle + right) == None
      && Strip("  " + left + middle + right) == left + middle + right
    ensures Ignored(left + middle + right) <==> StartsWith(left, "graph")
  {
    var tail := middle + right;
    EdgeIsNoNode(left, tail);
    EdgeStrips(left, middle, right);
    assert left + tail == left + middle + right && "  " + left + tail == "  " + left + middle + right;
    SourceDecides(left, tail);
  }

  lemma ReadSolid(g: ParsedGraph, e: Edge2)
    requires IsWord(e.0) && IsWord(e.1)
    ensures ReadLine(g, SolidLine(e)) == AddSolid(g, Shown([e]))
  {
    EdgeLineRead(e.0, " --> ", e.1);
    SolidReads(e.0, e.1);
    SolidFound(e.0, e.1);
    assert Pairs([e.0, e.1]) == [e];
    ShownOne(e);
    assert g.solid + [] == g.solid;
  }

  lemma ShownOne(e: Edge2)
    ensures Shown([e]) == if StartsWith(e.0, "graph") then [] else [e]
  {
    assert [e][1..] == [];
  }

  lemma SolidFound(left: string, right: string)
    requires IsWord(left)
    ensures Find(left + " --> " + right, "-->").Some?
  {
    WordTrims(left);
    FindHere(left + " ", "-->", " " + right);
    assert left + " --> " + right == (left + " ") + "-->" + (" " + right);
  }

  lemma DottedLineRead(e: Edge2)
    requires IsWord(e.0) && IsWord(e.1)
    ensures MatchNode(DottedLine(e)) == None && Strip(DottedLine(e)) == DottedText(e.0, e.1)
    ensures Ignored(DottedText(e.0, e.1)) <==> StartsWith(e.0, "graph")
  {
    DottedShape(e.0, e.1);
    var middle := " -." + ((" " + CROSSING + " ") + ".->" + " ");
    EdgeLineRead(e.0, middle, e.1);
  }

  lemma ReadDotted(g: ParsedGraph, e: Edge2)
    requires IsWord(e.0) && IsWord(e.1)
    ensures ReadLine(g, DottedLine(e)) == AddDotted(g, Shown([e]))
  {
    DottedLineRead(e);
    DottedReads(e.0, e.1);
    EndsStrip(e.0, e.1);
    CrossingStrips();
    ShownOne(e);
    assert Map(Captioned, [e]) == [Captioned(e)] && Map(Captioned, []) == [];
    assert g.dotted + [] == g.dotted;
  }

  lemma DottedShape(left: string, right: string)
    ensures DottedText(left, right) == left + (" -." + ((" " + CROSSING + " ") + ".->" + " ")) + right
    ensures DottedLine((left, right)) == "  " + left + (" -." + ((" " + CROSSING + " ") + ".->" + " ")) + right
  {
  }

  lemma ReadLast(g: ParsedGraph, lines: seq<string>, last: string)
    ensures ReadLines(g, lines + [last]) == ReadLine(ReadLines(g, lines), last)
  {
    assert (lines + [last])[..|lines|] == lines;
  }

  lemma {:induction false} ReadSolids(g: ParsedGraph, edges: seq<Edge2>)
    requires WordEdges(edges)
    ensures ReadLines(g, Map(SolidLine, edges)) == AddSolid(g, Shown(edges))
    decreases |edges|
  {
    if edges == [] {
      AddTwice(g, [], []);
    } else {
      var front, last := edges[..|edges| - 1], edges[|edges| - 1];
      assert edges == front + [last] && last in edges;
      MapAppended(SolidLine, front, last);
      FilterAppended(Visible, front, last);
      ShownOne(last);
      calc {
        ReadLines(g, Map(SolidLine, edges));
        { ReadLast(g, Map(SolidLine, front), SolidLine(last)); }
        ReadLine(ReadLines(g, Map(SolidLine, front)), SolidLine(last));
        { ReadSolids(g, front); }
        ReadLine(AddSolid(g, Shown(front)), SolidLine(last));
        { ReadSolid(AddSolid(g, Shown(front)), last); }
        AddSolid(AddSolid(g, Shown(front)), Shown([last]));
        { AddTwice(g, Shown(front), Shown([last])); }
        AddSolid(g, Shown(edges));
      }
    }
  }

  lemma {:induction false} ReadDotteds(g: ParsedGraph, edges: seq<Edge2>)
    requires WordEdges(edges)
    ensures ReadLines(g, Map(DottedLine, edges)) == AddDotted(g, Shown(edges))
    decreases |edges|
  {
    if edges == [] {
      AddTwice(g, [], []);
    } else {
      var front, last := edges[..|edges| - 1], edges[|edges| - 1];
      assert edges == front + [last] && last in edges;
      MapAppended(DottedLine, front, last);
      FilterAppended(Visible, front, last);
      ShownOne(last);
      calc {
        ReadLines(g, Map(DottedLine, edges));
        { ReadLast(g, Map(DottedLine, front), DottedLine(last)); }
        ReadLine(ReadLines(g, Map(DottedLine, front)), DottedLine(last));
        { ReadDotteds(g, front); }
        ReadLine(AddDotted(g, Shown(front)), DottedLine(last));
        { ReadDotted(AddDotted(g, Shown(front)), last); }
        AddDotted(AddDotted(g, Shown(front)), Shown([last]));
        { AddTwice(g, Shown(front), Shown([last])); }
        AddDotted(g, Shown(edges));
      }
    }
  }

  function Nodes(phases: seq<Phase>): map<string, string> {
    if phases == [] then map[]
      else Nodes(phases[..|phases| - 1])[KeyOf(phases[|phases| - 1].id) := LabelOf(phases[|phases| - 1])]
  }

  lemma {:induction false} NodesAre(phases: seq<Phase>)
    requires NoDup(Keys(phases))
    ensures forall k :: k in Nodes(phases) <==> k in Keys(phases)
    ensures forall i :: 0 <= i < |phases| ==>
      KeyOf(phases[i].id) in Nodes(phases) && Nodes(phases)[KeyOf(phases[i].id)] == LabelOf(phases[i])
    decreases |phases|
  {
    if phases != [] {
      var front, last := phases[..|phases| - 1], phases[|phases| - 1];
      assert Keys(phases) == Keys(front) + [KeyOf(last.id)];
      NoDupAppended(Keys(front), KeyOf(last.id));
      NodesAre(front);
      forall i | 0 <= i < |phases|
        ensures KeyOf(phases[i].id) in Nodes(phases) && Nodes(phases)[KeyOf(phases[i].id)] == LabelOf(phases[i])
      {
        if i < |front| {
          assert Keys(front)[i] in Keys(front) && phases[i] == front[i];
          NodeStays(front, last, i);
        }
      }
    }
  }

  lemma NodeStays(front: seq<Phase>, last: Phase, i: nat)
    requires i < |front| && KeyOf(front[i].id) != KeyOf(last.id) && KeyOf(front[i].id) in Nodes(front)
    ensures var key, nodes := KeyOf(front[i].id), Nodes(front + [last]); key in nodes && nodes[key] == Nodes(front)[key]
  {
    assert (front + [last])[..|front|] == front;
  }

  lemma {:induction false} ReadNodes(phases: seq<Phase>)
    requires NoDup(Keys(phases)) && forall p :: p in phases ==> IsWord(KeyOf(p.id)) && IsLabel(LabelOf(p))
    ensures ReadLines(EMPTY, Map(NodeLine, phases)) == ParsedGraph(Keys(phases), Nodes(phases), [], [])
    decreases |phases|
  {
    if phases != [] {
      var front, last := phases[..|phases| - 1], phases[|phases| - 1];
      assert phases == front + [last] && last in phases;
      assert Keys(phases) == Keys(front) + [KeyOf(last.id)];
      NoDupAppended(Keys(front), KeyOf(last.id));
      ReadNodes(front);
      NodesAre(front);
      MapAppended(NodeLine, front, last);
      assert Map(NodeLine, phases)[..|front|] == Map(NodeLine, front);
      NodeReads(KeyOf(last.id), LabelOf(last));
    }
  }

  lemma PlainIsNoNode(left: string, tail: string)
    requires IsWord(left) && tail != [] && tail[0] == ' '
    ensures MatchNode(left + tail) == None
  {
    WordTrims(left);
    LStripInside("", left, tail);
    WordRunIs(left, tail);
    assert "" + left + tail == left + tail && (left + tail)[|left|..] == tail;
  }

  lemma PlainStrips(s: string)
    requires Trim(s)
    ensures Strip(s) == s
  {
    StripBlanks("", s, "");
    assert "" + s + "" == s;
  }

  lemma PlainLine(g: ParsedGraph, left: string, tail: string)
    requires IsWord(left) && StartsWith(left, "graph") && Trim(left + tail) && tail != [] && tail[0] == ' '
    ensures ReadLine(g, left + tail) == g
  {
    PlainIsNoNode(left, tail);
    PlainStrips(left + tail);
    SourceDecides(left, tail);
  }

  lemma HeaderIsIgnored(g: ParsedGraph)
    ensures ReadLine(g, "graph TD") == g && ReadLine(g, "") == g
  {
    PlainLine(g, "graph", " TD");
    assert "graph" + " TD" == "graph TD";
  }

  /** A comment is passed over, whatever it holds, and so is a line of blanks. */
  lemma CommentsAreIgnored(g: ParsedGraph, before: string, rest: string, after: string)
    requires Blank(before) && Blank(after) && (rest == "" || !IsSpace(rest[|rest| - 1]))
    ensures ReadLine(g, before + ("%%" + rest) + after) == g
    ensures ReadLine(g, before) == g
  {
    var core := "%%" + rest;
    assert core[0] == '%' && core[..2] == "%%" && core[|core| - 1] == if rest == "" then '%' else rest[|rest| - 1];
    LStripInside(before, core, after);
    StripBlanks(before, core, after);
    assert MatchNode(before + core + after) == None;
    AllBlankStrips(before);
  }

  /** What the drawing reads as, spelled out. */
  ghost function Drawn(r: Roadmap): ParsedGraph {
    ParsedGraph(Keys(r.phases), Nodes(r.phases), Shown(OrderEdges(r)), Map(Captioned, Shown(CrossEdges(r))))
  }

  lemma EdgesAreWords(r: Roadmap)
    requires Legible(r)
    ensures WordEdges(OrderEdges(r)) && WordEdges(CrossEdges(r))
  {
    forall e | e in OrderEdges(r) ensures IsWord(e.0) && IsWord(e.1) {
      var i :| 0 <= i < |OrderEdges(r)| && OrderEdges(r)[i] == e;
      assert r.phases[i] in r.phases && r.phases[i + 1] in r.phases;
    }
    forall e | e in CrossEdges(r) ensures IsWord(e.0) && IsWord(e.1) {
      var i :| 0 <= i < |CrossEdges(r)| && CrossEdges(r)[i] == e;
      assert Crossing(r, r.phases)[i] in Crossing(r, r.phases);
    }
  }

  lemma ReadAll(r: Roadmap)
    requires Legible(r)
    ensures ReadLines(EMPTY, Lines(r)) == Drawn(r)
  {
    EdgesAreWords(r);
    var nodes, order, cross := Map(NodeLine, r.phases), Map(SolidLine, OrderEdges(r)), Map(DottedLine, CrossEdges(r));
    HeaderIsIgnored(EMPTY);
    assert ["graph TD"][..0] == [];
    ReadAppend(EMPTY, ["graph TD"], nodes);
    ReadNodes(r.phases);
    var g := ReadLines(EMPTY, nodes);
    HeaderIsIgnored(g);
    assert [""][..0] == [];
    ReadAppend(EMPTY, ["graph TD"] + nodes, [""]);
    ReadAppend(EMPTY, ["graph TD"] + nodes + [""], order);
    ReadSolids(g, OrderEdges(r));
    ReadAppend(EMPTY, ["graph TD"] + nodes + [""] + order, cross);
    ReadDotteds(AddSolid(g, Shown(OrderEdges(r))), CrossEdges(r));
  }

  ghost predicate OneLiners(lines: seq<string>) {
    forall i :: 0 <= i < |lines| ==> OneLine(lines[i])
  }

  lemma NodeLinesAreLines(r: Roadmap)
    requires Legible(r)
    ensures OneLiners(Map(NodeLine, r.phases))
  {
    forall i | 0 <= i < |r.phases| ensures OneLine(NodeLine(r.phases[i])) {
      assert r.phases[i] in r.phases;
      NodeIsOneLine(KeyOf(r.phases[i].id), LabelOf(r.phases[i]));
    }
  }

  lemma EdgeLinesAreLines(edges: seq<Edge2>)
    requires WordEdges(edges)
    ensures OneLiners(Map(SolidLine, edges)) && OneLiners(Map(DottedLine, edges))
  {
    forall i | 0 <= i < |edges| ensures OneLine(SolidLine(edges[i])) && OneLine(DottedLine(edges[i])) {
      assert edges[i] in edges;
      EdgeIsOneLine(edges[i]);
    }
  }

  lemma LinesAreLines(r: Roadmap)
    requires Legible(r)
    ensures OneLiners(Lines(r))
  {
    EdgesAreWords(r);
    NodeLinesAreLines(r);
    EdgeLinesAreLines(OrderEdges(r));
    EdgeLinesAreLines(CrossEdges(r));
    HeadersAreLines();
    OneLinersJoin(["graph TD"], Map(NodeLine, r.phases), [""], Map(SolidLine, OrderEdges(r)),
      Map(DottedLine, CrossEdges(r)));
  }

  lemma HeadersAreLines()
    ensures OneLiners(["graph TD"]) && OneLiners([""])
  {
  }

  lemma OneLinersJoin(a: seq<string>, b: seq<string>, c: seq<string>, d: seq<string>, e: seq<string>)
    requires OneLiners(a) && OneLiners(b) && OneLiners(c) && OneLiners(d) && OneLiners(e)
    ensures OneLiners(a + b + c + d + e)
  {
  }

  lemma NodeIsOneLine(key: string, text: string)
    requires IsWord(key) && IsLabel(text)
    ensures OneLine("  " + key + "[\"" + text + "\"]")
  {
    WordTrims(key);
  }

  lemma EdgeIsOneLine(e: Edge2)
    requires IsWord(e.0) && IsWord(e.1)
    ensures OneLine(SolidLine(e)) && OneLine(DottedLine(e))
  {
    WordTrims(e.0);
    WordTrims(e.1);
    OneLineJoins("  ", e.0, " --> ", e.1);
    DottedShape(e.0, e.1);
    OneLineJoins("  ", e.0, " -." + ((" " + CROSSING + " ") + ".->" + " "), e.1);
  }

  lemma OneLineJoins(a: string, b: string, c: string, d: string)
    requires OneLine(a) && OneLine(b) && OneLine(c) && OneLine(d)
    ensures OneLine(a + b + c + d)
  {
  }

  /** Reading a legible drawing gives its nodes and labels, and its edges except those that leave a node whose key
      begins with the word graph. */
  lemma ParseOfRender(r: Roadmap)
    requires Legible(r)
    ensures Parse(Rendered(r)) == Drawn(r)
  {
    LinesAreLines(r);
    SplitJoined(Lines(r));
    ReadAll(r);
  }

  // ----- what can be drawn and come back ------------------------------------------------------------------

  /** Every phase has its node, under its key and with its label, in order, and nothing else is a node. */
  ghost predicate PhasesComeBack(r: Roadmap) {
    var g := Parse(Rendered(r));
    && g.keys == Keys(r.phases)
    && forall i :: 0 <= i < |r.phases| ==>
         KeyOf(r.phases[i].id) in g.nodes && g.nodes[KeyOf(r.phases[i].id)] == LabelOf(r.phases[i])
  }

  ghost predicate EdgesComeBack(r: Roadmap) {
    Parse(Rendered(r)).solid == OrderEdges(r) && Parse(Rendered(r)).dotted == Map(Captioned, CrossEdges(r))
  }

  /** Every dependency that is drawn across the release order names a phase. */
  predicate DeclaredCrossings(r: Roadmap) {
    forall e :: e in Crossing(r, r.phases) ==> e.0 in PhaseOrder(r)
  }

  lemma {:induction false} LineHasNoEnd(s: string)
    ensures OneLine(s[..LineLength(s)])
  {
    if s != [] && !IsLineEnd(s[0]) {
      LineHasNoEnd(s[1..]);
    }
  }

  lemma {:induction false} SplitIsLines(s: string)
    ensures OneLiners(SplitLines(s))
    decreases |s|
  {
    if s != [] {
      LineHasNoEnd(s);
      var n := LineLength(s);
      if n == |s| {
        assert s[..n] == s;
      } else {
        SplitIsLines(s[n + (if s[n] == '\r' && n + 1 < |s| && s[n + 1] == '\n' then 2 else 1)..]);
      }
    }
  }

  lemma {:induction false} LStripIsSuffix(s: string)
    ensures |LStrip(s)| <= |s| && LStrip(s) == s[|s| - |LStrip(s)|..]
  {
    if s != [] && IsSpace(s[0]) {
      LStripIsSuffix(s[1..]);
    }
  }

  lemma {:induction false} WordRunChars(s: string)
    ensures forall i :: 0 <= i < WordRun(s) ==> IsWordChar(s[i])
  {
    if s != [] && IsWordChar(s[0]) {
      WordRunChars(s[1..]);
    }
  }

  lemma {:induction false} FindIsFirst(s: string, what: char, m: nat)
    requires Find(s, [what]) == Some(m)
    ensures what !in s[..m]
  {
    if !StartsWith(s, [what]) {
      FindIsFirst(s[1..], what, m - 1);
      assert s[..m] == [s[0]] + s[1..][..m - 1];
      assert s[..1] == [s[0]];
    }
  }

  lemma PieceOfLine(line: string, piece: string, at: nat)
    requires OneLine(line) && at + |piece| <= |line| && piece == line[at..][..|piece|]
    ensures OneLine(piece)
  {
    forall i | 0 <= i < |piece| ensures !IsLineEnd(piece[i]) {
      assert piece[i] == line[at + i];
    }
  }

  lemma BodyIsPiece(line: string, n: nat, m: nat)
    requires var t := LStrip(line); n + 2 + m <= |t|
    ensures |LStrip(line)| <= |line| && LStrip(line)[n..][2..][..m] == line[|line| - |LStrip(line)| + n + 2..][..m]
  {
    LStripIsSuffix(line);
  }

  /** Whatever line is read as a node, its key is a word and its label one line without a quote. */
  lemma NodesAreLegible(line: string)
    requires OneLine(line) && MatchNode(line).Some?
    ensures IsWord(MatchNode(line).value.0) && IsLabel(MatchNode(line).value.1)
  {
    var t := LStrip(line);
    var n := WordRun(t);
    WordRunChars(t);
    var body := t[n..][2..];
    var m := Find(body, "\"").value;
    FindIsFirst(body, '"', m);
    BodyIsPiece(line, n, m);
    PieceOfLine(line, body[..m], |line| - |t| + n + 2);
  }

  lemma {:induction false} ReadIsLegible(lines: seq<string>)
    requires OneLiners(lines)
    ensures var g := ReadLines(EMPTY, lines);
      && NoDup(g.keys) && (forall k :: k in g.keys <==> k in g.nodes)
      && forall k :: k in g.nodes ==> IsWord(k) && IsLabel(g.nodes[k])
    decreases |lines|
  {
    if lines != [] {
      var front, line := lines[..|lines| - 1], lines[|lines| - 1];
      ReadIsLegible(front);
      if MatchNode(line).Some? {
        NodesAreLegible(line);
        NoDupAppended(ReadLines(EMPTY, front).keys, MatchNode(line).value.0);
      }
    }
  }

  lemma ComingBackIsLegible(r: Roadmap)
    requires DeclaredCrossings(r) && PhasesComeBack(r)
    ensures Legible(r)
  {
    SplitIsLines(Rendered(r));
    ReadIsLegible(SplitLines(Rendered(r)));
    forall p | p in r.phases ensures IsWord(KeyOf(p.id)) && IsLabel(LabelOf(p)) {
      var i :| 0 <= i < |r.phases| && r.phases[i] == p;
    }
    forall e | e in Crossing(r, r.phases) ensures IsWord(KeyOf(e.0)) && IsWord(KeyOf(e.1)) {
      CrossingIs(r, r.phases, e);
      var i :| 0 <= i < |r.phases| && PhaseOrder(r)[i] == e.0;
      assert r.phases[i] in r.phases;
    }
  }

  lemma LegibleComesBack(r: Roadmap)
    requires Legible(r)
    ensures PhasesComeBack(r)
    ensures EdgesComeBack(r) <==> forall e :: e in OrderEdges(r) || e in CrossEdges(r) ==> Visible(e)
  {
    ParseOfRender(r);
    NodesAre(r.phases);
    FilterKeepsAll(Visible, OrderEdges(r));
    FilterKeepsAll(Visible, CrossEdges(r));
    SameLength(CrossEdges(r));
  }

  /** The phases come back from the drawing exactly when it is legible: different keys that are words, and labels of one
      line without a quote. */
  lemma PhasesComeBackIff(r: Roadmap)
    requires DeclaredCrossings(r)
    ensures PhasesComeBack(r) <==> Legible(r)
  {
    if PhasesComeBack(r) { ComingBackIsLegible(r); }
    if Legible(r) { LegibleComesBack(r); }
  }

  /** The diagram read back is all that was drawn, phases, release order and exactly the crossing dependencies, if and
      only if it is legible and no edge leaves a node whose key begins with graph: such a line is taken for the
      header. */
  lemma RoundTripIff(r: Roadmap)
    requires DeclaredCrossings(r)
    ensures PhasesComeBack(r) && EdgesComeBack(r) <==>
      Legible(r) && forall e :: e in OrderEdges(r) || e in CrossEdges(r) ==> Visible(e)
  {
    PhasesComeBackIff(r);
    if Legible(r) { LegibleComesBack(r); }
  }

  /** A quote in a name is enough: the phases do not come back. */
  lemma QuotedNamesDoNotComeBack(r: Roadmap, p: Phase)
    requires DeclaredCrossings(r) && p in r.phases && '"' in p.name
    ensures !PhasesComeBack(r)
  {
    PhasesComeBackIff(r);
    assert '"' in LabelOf(p);
  }

  lemma SameLength(edges: seq<Edge2>)
    ensures Map(Captioned, Shown(edges)) == Map(Captioned, edges) <==> Shown(edges) == edges
  {
    if Map(Captioned, Shown(edges)) == Map(Captioned, edges) {
      forall i | 0 <= i < |edges| ensures Shown(edges)[i] == edges[i] {
        assert Map(Captioned, Shown(edges))[i] == Map(Captioned, edges)[i];
      }
    }
  }
}
