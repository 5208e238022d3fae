/** The roadmap's phases and work packages: the dependency rules of validation and the topological waves. */
module Roadmap {
  import opened Sorting
  import opened Options
  import opened Digraph
  import opened Dag

  datatype Status = Planned | InProgress | Done | Reordered

  datatype Phase = Phase(id: string, name: string, dependsOnPhases: seq<string>,
                         requiresRequirements: seq<string>, releaseTag: string)

  datatype WorkPackage = WorkPackage(id: string, title: string, phase: string, wave: nat, covers: seq<string>,
                                     dependsOn: seq<string>, gates: seq<string>, brick: string, status: Status)

  /** tiers is the requirement register, reduced to the tier each requirement carries. */
  datatype Roadmap = Roadmap(phases: seq<Phase>, packages: seq<WorkPackage>, tiers: map<string, string>)

  function PhaseOrder(r: Roadmap): (ids: seq<string>)
    ensures |ids| == |r.phases| && forall i :: 0 <= i < |ids| ==> ids[i] == r.phases[i].id
  {
    seq(|r.phases|, i requires 0 <= i < |r.phases| => r.phases[i].id)
  }

  function PhaseById(phases: seq<Phase>, id: string): (phase: Option<Phase>)
    ensures phase.Some? ==> phase.value in phases && phase.value.id == id
    ensures phase.None? ==> forall p :: p in phases ==> p.id != id
  {
    if phases == [] then None else if phases[0].id == id then Some(phases[0]) else PhaseById(phases[1..], id)
  }

  /** -1 for a phase that is not declared. */
  function PhaseIndex(r: Roadmap, phase: string): int {
    if phase in PhaseOrder(r) then IndexOf(PhaseOrder(r), phase) else -1
  }

  /** A dictionary assignment: the key keeps its first position, the value is the last one written. */
  function Assigned(g: Graph, key: Node, targets: seq<Node>): Graph {
    Graph(if key in g.targets then g.keys else g.keys + [key], g.targets[key := targets])
  }

  function DependencyGraph(packages: seq<WorkPackage>): Graph {
    if packages == [] then Graph([], map[])
    else
      var last := packages[|packages| - 1];
      Assigned(DependencyGraph(packages[..|packages| - 1]), last.id, last.dependsOn)
  }

  function ById(packages: seq<WorkPackage>): map<string, WorkPackage> {
    if packages == [] then map[]
    else ById(packages[..|packages| - 1])[packages[|packages| - 1].id := packages[|packages| - 1]]
  }

  /** Writing one package into both dictionaries keeps them about the same packages. */
  lemma AssignedMirrors(g: Graph, byId: map<string, WorkPackage>, last: WorkPackage)
    requires Valid(g) && g.targets.Keys == byId.Keys && forall id :: id in byId ==> g.targets[id] == byId[id].dependsOn
    ensures var g', byId' := Assigned(g, last.id, last.dependsOn), byId[last.id := last];
      && Valid(g') && g'.targets.Keys == byId'.Keys
      && forall id :: id in byId' ==> g'.targets[id] == byId'[id].dependsOn
  {
  }

  lemma {:induction false} GraphMirrorsById(packages: seq<WorkPackage>)
    ensures Valid(DependencyGraph(packages))
    ensures DependencyGraph(packages).targets.Keys == ById(packages).Keys
    ensures forall id :: id in ById(packages) ==>
      DependencyGraph(packages).targets[id] == ById(packages)[id].dependsOn
      && ById(packages)[id] in packages && ById(packages)[id].id == id
    ensures forall p :: p in packages ==> p.id in ById(packages)
  {
    if packages != [] {
      var init, last := packages[..|packages| - 1], packages[|packages| - 1];
      GraphMirrorsById(init);
      AssignedMirrors(DependencyGraph(init), ById(init), last);
      assert packages == init + [last];
    }
  }

  datatype Rule = WpDep | WpPhaseOrder | WpWave | WpCycle

  datatype Finding = Finding(rule: Rule, ids: seq<string>)

  /** What one dependency of one package earns. */
  function DependencyFinding(r: Roadmap, byId: map<string, WorkPackage>, p: WorkPackage,
        dependency: string): seq<Finding> {
    if dependency !in byId then [Finding(WpDep, [p.id, dependency])]
    else
      var other := byId[dependency];
      var here, there := PhaseIndex(r, p.phase), PhaseIndex(r, other.phase);
      if there > here then [Finding(WpPhaseOrder, [p.id, dependency])]
      else if there == here && other.wave >= p.wave then [Finding(WpWave, [p.id, dependency])]
      else []
  }

  function PackageFindings(r: Roadmap, byId: map<string, WorkPackage>, p: WorkPackage,
        dependencies: seq<string>): seq<Finding> {
    if dependencies == [] then []
    else PackageFindings(r, byId, p, dependencies[..|dependencies| - 1])
         + DependencyFinding(r, byId, p, dependencies[|dependencies| - 1])
  }

  function OrderFindings(r: Roadmap, byId: map<string, WorkPackage>, packages: seq<WorkPackage>): seq<Finding> {
    if packages == [] then []
    else
      var last := packages[|packages| - 1];
      OrderFindings(r, byId, packages[..|packages| - 1]) + PackageFindings(r, byId, last, last.dependsOn)
  }

  function CycleFindings(reports: seq<seq<Node>>): (findings: seq<Finding>)
    ensures |findings| == |reports|
    ensures forall i :: 0 <= i < |findings| ==> findings[i] == Finding(WpCycle, reports[i])
  {
    seq(|reports|, i requires 0 <= i < |reports| => Finding(WpCycle, reports[i]))
  }

  function DependencyFindings(r: Roadmap): seq<Finding> {
    GraphMirrorsById(r.packages);
    OrderFindings(r, ById(r.packages), r.packages) + CycleFindings(Cycles(DependencyGraph(r.packages)))
  }

  method IndexPackages(packages: seq<WorkPackage>) returns (byId: map<string, WorkPackage>, edges: Graph)
    ensures byId == ById(packages) && edges == DependencyGraph(packages)
  {
    byId, edges := map[], Graph([], map[]);
    for i := 0 to |packages|
      invariant byId == ById(packages[..i]) && edges == DependencyGraph(packages[..i])
    {
      assert packages[..i + 1][..i] == packages[..i];
      byId := byId[packages[i].id := packages[i]];
      edges := Assigned(edges, packages[i].id, packages[i].dependsOn);
    }
    assert packages[..|packages|] == packages;
  }

  method CheckPackage(r: Roadmap, byId: map<string, WorkPackage>, p: WorkPackage) returns (findings: seq<Finding>)
    ensures findings == PackageFindings(r, byId, p, p.dependsOn)
  {
    findings := [];
    for j := 0 to |p.dependsOn|
      invariant findings == PackageFindings(r, byId, p, p.dependsOn[..j])
    {
      assert p.dependsOn[..j + 1][..j] == p.dependsOn[..j];
      var dependency := p.dependsOn[j];
      if dependency !in byId {
        findings := findings + [Finding(WpDep, [p.id, dependency])];
        continue;
      }
      var other := byId[dependency];
      var here, there := PhaseIndex(r, p.phase), PhaseIndex(r, other.phase);
      if there > here {
        findings := findings + [Finding(WpPhaseOrder, [p.id, dependency])];
      } else if there == here && other.wave >= p.wave {
        findings := findings + [Finding(WpWave, [p.id, dependency])];
      }
    }
    assert p.dependsOn[..|p.dependsOn|] == p.dependsOn;
  }

  method ValidateDependencies(r: Roadmap) returns (findings: seq<Finding>)
    ensures findings == DependencyFindings(r)
  {
    var byId, edges := IndexPackages(r.packages);
    findings := [];
    for i := 0 to |r.packages|
      invariant findings == OrderFindings(r, byId, r.packages[..i])
    {
      assert r.packages[..i + 1][..i] == r.packages[..i];
      var more := CheckPackage(r, byId, r.packages[i]);
      findings := findings + more;
    }
    assert r.packages[..|r.packages|] == r.packages;
    GraphMirrorsById(r.packages);
    var reports := FindCycles(edges);
    findings := findings + CycleFindings(reports);
  }

  ghost predicate Reports(findings: seq<Finding>, rule: Rule) {
    exists f :: f in findings && f.rule == rule
  }

  /** (phase index, wave), compared as Python compares pairs. */
  ghost predicate EarlierSlot(r: Roadmap, a: WorkPackage, b: WorkPackage) {
    || PhaseIndex(r, a.phase) < PhaseIndex(r, b.phase)
    || (PhaseIndex(r, a.phase) == PhaseIndex(r, b.phase) && a.wave < b.wave)
  }

  ghost predicate SlotsFall(r: Roadmap) {
    var byId := ById(r.packages);
    forall p, d :: p in r.packages && d in p.dependsOn && d in byId ==> EarlierSlot(r, byId[d], p)
  }

  lemma {:induction false} PackageReports(r: Roadmap, byId: map<string, WorkPackage>, p: WorkPackage,
        dependencies: seq<string>, f: Finding)
    ensures f in PackageFindings(r, byId, p, dependencies) <==>
      exists d :: d in dependencies && f in DependencyFinding(r, byId, p, d)
  {
    if dependencies != [] {
      var init, last := dependencies[..|dependencies| - 1], dependencies[|dependencies| - 1];
      assert dependencies == init + [last];
      PackageReports(r, byId, p, init, f);
    }
  }

  lemma {:induction false} AllReports(r: Roadmap, byId: map<string, WorkPackage>, packages: seq<WorkPackage>,
        f: Finding)
    ensures f in OrderFindings(r, byId, packages) <==>
      exists p, d :: p in packages && d in p.dependsOn && f in DependencyFinding(r, byId, p, d)
  {
    if packages != [] {
      var init, last := packages[..|packages| - 1], packages[|packages| - 1];
      assert packages == init + [last];
      AllReports(r, byId, init, f);
      PackageReports(r, byId, last, last.dependsOn, f);
    }
  }

  // ----- what is reported, package by package --------------------------------------------------

  /** What the id resolves to: the last package that carries it. */
  ghost predicate Carries(packages: seq<WorkPackage>, id: string, p: WorkPackage) {
    exists k :: LastAt(packages, id, p, k)
  }

  ghost predicate LastAt(packages: seq<WorkPackage>, id: string, p: WorkPackage, k: int) {
    0 <= k < |packages| && packages[k] == p && p.id == id && forall m :: k < m < |packages| ==> packages[m].id != id
  }

  lemma {:induction false} ByIdCarries(packages: seq<WorkPackage>, id: string, p: WorkPackage)
    ensures id in ById(packages) && ById(packages)[id] == p <==> Carries(packages, id, p)
    decreases |packages|
  {
    if packages != [] {
      var n := |packages| - 1;
      ByIdCarries(packages[..n], id, p);
      if packages[n].id == id {
        assert packages[n] == p ==> LastAt(packages, id, p, n);
      } else {
        if k :| LastAt(packages[..n], id, p, k) { assert LastAt(packages, id, p, k); }
        if k :| LastAt(packages, id, p, k) { assert LastAt(packages[..n], id, p, k); }
      }
    }
  }

  /** The place of a phase in the release order: that of the first phase with the id, -1 where none has it. */
  ghost predicate StandsAt(r: Roadmap, phase: string, at: int) {
    if at == -1 then forall p :: p in r.phases ==> p.id != phase
    else 0 <= at < |r.phases| && r.phases[at].id == phase && forall m :: 0 <= m < at ==> r.phases[m].id != phase
  }

  lemma PhaseIndexIs(r: Roadmap, phase: string, at: int)
    ensures StandsAt(r, phase, at) <==> at == PhaseIndex(r, phase)
  {
    assert phase in PhaseOrder(r) <==> exists p :: p in r.phases && p.id == phase by {
      forall p | p in r.phases && p.id == phase ensures phase in PhaseOrder(r) {
        var i :| 0 <= i < |r.phases| && r.phases[i] == p;
        assert PhaseOrder(r)[i] == phase;
      }
    }
    if 0 <= at < |r.phases| && r.phases[at].id == phase && forall m :: 0 <= m < at ==> r.phases[m].id != phase {
      FirstIndex(PhaseOrder(r), phase, at);
    }
  }

  ghost predicate DependsOn(r: Roadmap, p: WorkPackage, id: string, dependency: string) {
    p in r.packages && p.id == id && dependency in p.dependsOn
  }

  ghost predicate InLaterPhase(r: Roadmap, q: WorkPackage, p: WorkPackage) {
    exists there, here :: StandsAt(r, q.phase, there) && StandsAt(r, p.phase, here) && there > here
  }

  ghost predicate InSamePhase(r: Roadmap, q: WorkPackage, p: WorkPackage) {
    exists at :: StandsAt(r, q.phase, at) && StandsAt(r, p.phase, at)
  }

  lemma PhasesCompare(r: Roadmap, q: WorkPackage, p: WorkPackage)
    ensures InLaterPhase(r, q, p) <==> PhaseIndex(r, q.phase) > PhaseIndex(r, p.phase)
    ensures InSamePhase(r, q, p) <==> PhaseIndex(r, q.phase) == PhaseIndex(r, p.phase)
  {
    var there, here := PhaseIndex(r, q.phase), PhaseIndex(r, p.phase);
    PhaseIndexIs(r, q.phase, there);
    PhaseIndexIs(r, p.phase, here);
    if at, other :| StandsAt(r, q.phase, at) && StandsAt(r, p.phase, other) && at > other {
      PhaseIndexIs(r, q.phase, at);
      PhaseIndexIs(r, p.phase, other);
    }
    if at :| StandsAt(r, q.phase, at) && StandsAt(r, p.phase, at) {
      PhaseIndexIs(r, q.phase, at);
      PhaseIndexIs(r, p.phase, at);
    }
  }

  ghost predicate Earned(r: Roadmap, f: Finding) {
    exists p, d :: p in r.packages && d in p.dependsOn && f in DependencyFinding(r, ById(r.packages), p, d)
  }

  lemma ReportedIff(r: Roadmap, f: Finding)
    requires f.rule != WpCycle
    ensures f in DependencyFindings(r) <==> Earned(r, f)
  {
    GraphMirrorsById(r.packages);
    AllReports(r, ById(r.packages), r.packages, f);
    assert f !in CycleFindings(Cycles(DependencyGraph(r.packages)));
  }

  ghost predicate Missing(r: Roadmap, id: string, dependency: string) {
    (exists p :: DependsOn(r, p, id, dependency)) && forall q :: q in r.packages ==> q.id != dependency
  }

  lemma MissingEarnedIff(r: Roadmap, id: string, dependency: string)
    ensures Earned(r, Finding(WpDep, [id, dependency])) <==> Missing(r, id, dependency)
  {
    var f := Finding(WpDep, [id, dependency]);
    IdsAre(r.packages);
    if Earned(r, f) {
      var p, d :| p in r.packages && d in p.dependsOn && f in DependencyFinding(r, ById(r.packages), p, d);
      assert [id, dependency][0] == p.id && [id, dependency][1] == d;
      assert DependsOn(r, p, id, dependency);
    }
    if Missing(r, id, dependency) {
      var p :| DependsOn(r, p, id, dependency);
      assert f in DependencyFinding(r, ById(r.packages), p, dependency);
    }
  }

  lemma {:induction false} IdsAre(packages: seq<WorkPackage>)
    ensures forall id :: id in ById(packages) <==> exists p :: p in packages && p.id == id
  {
    if packages != [] {
      var init, last := packages[..|packages| - 1], packages[|packages| - 1];
      IdsAre(init);
      assert packages == init + [last];
    }
  }

  /** A dependency is reported missing exactly when a package with that id lists it and no package has it. */
  lemma MissingReportedIff(r: Roadmap, id: string, dependency: string)
    ensures Finding(WpDep, [id, dependency]) in DependencyFindings(r) <==>
      (exists p :: DependsOn(r, p, id, dependency)) && forall q :: q in r.packages ==> q.id != dependency
  {
    ReportedIff(r, Finding(WpDep, [id, dependency]));
    MissingEarnedIff(r, id, dependency);
  }

  ghost predicate Breaks(r: Roadmap, rule: Rule, p: WorkPackage, q: WorkPackage) {
    if rule == WpPhaseOrder then InLaterPhase(r, q, p) else InSamePhase(r, q, p) && q.wave >= p.wave
  }

  ghost predicate BrokenBy(r: Roadmap, rule: Rule, id: string, dependency: string) {
    exists p, q :: DependsOn(r, p, id, dependency) && Carries(r.packages, dependency, q) && Breaks(r, rule, p, q)
  }

  lemma PairEarnedIff(r: Roadmap, rule: Rule, id: string, dependency: string)
    requires rule == WpPhaseOrder || rule == WpWave
    ensures Earned(r, Finding(rule, [id, dependency])) <==> BrokenBy(r, rule, id, dependency)
  {
    var f, byId := Finding(rule, [id, dependency]), ById(r.packages);
    if Earned(r, f) {
      var p, d :| p in r.packages && d in p.dependsOn && f in DependencyFinding(r, byId, p, d);
      assert [id, dependency][0] == p.id && [id, dependency][1] == d;
      ByIdCarries(r.packages, dependency, byId[dependency]);
      PhasesCompare(r, byId[dependency], p);
      assert DependsOn(r, p, id, dependency) && Breaks(r, rule, p, byId[dependency]);
    }
    if BrokenBy(r, rule, id, dependency) {
      var p, q :| DependsOn(r, p, id, dependency) && Carries(r.packages, dependency, q) && Breaks(r, rule, p, q);
      ByIdCarries(r.packages, dependency, q);
      PhasesCompare(r, q, p);
      assert f in DependencyFinding(r, byId, p, dependency);
    }
  }

  /** The two order rules carry exactly the pairs in which the dependency's phase ships later, or is the same with a
      wave that is not lower. */
  lemma OrderReportedIff(r: Roadmap, id: string, dependency: string)
    ensures Finding(WpPhaseOrder, [id, dependency]) in DependencyFindings(r) <==>
      exists p, q :: DependsOn(r, p, id, dependency) && Carries(r.packages, dependency, q) && InLaterPhase(r, q, p)
    ensures Finding(WpWave, [id, dependency]) in DependencyFindings(r) <==>
      exists p, q :: DependsOn(r, p, id, dependency) && Carries(r.packages, dependency, q)
        && InSamePhase(r, q, p) && q.wave >= p.wave
  {
    ReportedIff(r, Finding(WpPhaseOrder, [id, dependency]));
    ReportedIff(r, Finding(WpWave, [id, dependency]));
    PairEarnedIff(r, WpPhaseOrder, id, dependency);
    PairEarnedIff(r, WpWave, id, dependency);
    BrokenMeans(r, id, dependency);
  }

  lemma BrokenMeans(r: Roadmap, id: string, dependency: string)
    ensures BrokenBy(r, WpPhaseOrder, id, dependency) <==>
      exists p, q :: DependsOn(r, p, id, dependency) && Carries(r.packages, dependency, q) && InLaterPhase(r, q, p)
    ensures BrokenBy(r, WpWave, id, dependency) <==>
      exists p, q :: DependsOn(r, p, id, dependency) && Carries(r.packages, dependency, q)
        && InSamePhase(r, q, p) && q.wave >= p.wave
  {
    assert forall p, q :: Breaks(r, WpPhaseOrder, p, q) <==> InLaterPhase(r, q, p);
    assert forall p, q :: Breaks(r, WpWave, p, q) <==> InSamePhase(r, q, p) && q.wave >= p.wave;
  }

  lemma EarnedIsAPair(r: Roadmap, f: Finding)
    requires Earned(r, f)
    ensures f.rule != WpCycle && exists p, d :: p in r.packages && d in p.dependsOn && f.ids == [p.id, d]
  {
    var p, d :| p in r.packages && d in p.dependsOn && f in DependencyFinding(r, ById(r.packages), p, d);
    assert f.ids == [p.id, d];
  }

  /** Every finding of the other three rules is about one pair of a package and a dependency it lists. */
  lemma FindingsArePairs(r: Roadmap, f: Finding)
    requires f in DependencyFindings(r) && f.rule != WpCycle
    ensures exists p, d :: p in r.packages && d in p.dependsOn && f.ids == [p.id, d]
  {
    ReportedIff(r, f);
    EarnedIsAPair(r, f);
  }

  /** Neither order rule fires exactly when the slot strictly falls along every resolved dependency. */
  lemma CleanIffSlotsFall(r: Roadmap)
    ensures (!Reports(DependencyFindings(r), WpPhaseOrder) && !Reports(DependencyFindings(r), WpWave)) <==> SlotsFall(r)
  {
    var byId, findings := ById(r.packages), DependencyFindings(r);
    if !Reports(findings, WpPhaseOrder) && !Reports(findings, WpWave) {
      forall p, d | p in r.packages && d in p.dependsOn && d in byId ensures EarlierSlot(r, byId[d], p) {
        if !EarlierSlot(r, byId[d], p) {
          ReportedIff(r, DependencyFinding(r, byId, p, d)[0]);
        }
      }
    } else {
      var f :| f in findings && (f.rule == WpPhaseOrder || f.rule == WpWave);
      ReportedIff(r, f);
      var p, d :| p in r.packages && d in p.dependsOn && f in DependencyFinding(r, byId, p, d);
      assert !EarlierSlot(r, byId[d], p);
    }
  }

  /** A cycle finding appears exactly when the dependency graph has a closed walk. */
  lemma CycleFindingIffCyclic(r: Roadmap)
    ensures Reports(DependencyFindings(r), WpCycle) <==> !Acyclic(DependencyGraph(r.packages))
  {
    GraphMirrorsById(r.packages);
    var g := DependencyGraph(r.packages);
    CyclesEmptyIffAcyclic(g);
    NoCycleAmongOrder(r);
    ReportsInEither(OrderFindings(r, ById(r.packages), r.packages), CycleFindings(Cycles(g)), WpCycle);
    var cycles := CycleFindings(Cycles(g));
    assert cycles != [] ==> cycles[0] in cycles;
  }

  lemma NoCycleAmongOrder(r: Roadmap)
    ensures !Reports(OrderFindings(r, ById(r.packages), r.packages), WpCycle)
  {
    forall f | f in OrderFindings(r, ById(r.packages), r.packages) ensures f.rule != WpCycle {
      AllReports(r, ById(r.packages), r.packages, f);
    }
  }

  lemma ReportsInEither(a: seq<Finding>, b: seq<Finding>, rule: Rule)
    ensures Reports(a + b, rule) <==> Reports(a, rule) || Reports(b, rule)
  {
    if f :| f in a && f.rule == rule { assert f in a + b; }
    if f :| f in b && f.rule == rule { assert f in a + b; }
  }

  function WidestWave(packages: seq<WorkPackage>): (w: nat)
    ensures forall p :: p in packages ==> p.wave <= w
  {
    if packages == [] then 0
    else var w := WidestWave(packages[1..]); if packages[0].wave > w then packages[0].wave else w
  }

  lemma LexicographicRank(i: int, j: int, v: nat, w: nat, width: nat)
    requires v < width && w < width
    requires i < j || (i == j && v < w)
    ensures i * width + v < j * width + w
  {
    if i < j {
      assert j * width >= (i + 1) * width == i * width + width;
    }
  }

  lemma FallingSlotsAreAcyclic(r: Roadmap)
    requires SlotsFall(r)
    ensures Acyclic(DependencyGraph(r.packages))
  {
    GraphMirrorsById(r.packages);
    var g, byId, width := DependencyGraph(r.packages), ById(r.packages), WidestWave(r.packages) + 1;
    var rank: map<Node, int> := map id | id in byId :: PhaseIndex(r, byId[id].phase) * width + byId[id].wave;
    forall u, v | Edge(g, u, v) ensures rank[v] < rank[u] {
      var p, q := byId[u], byId[v];
      assert p in r.packages && q in r.packages && v in p.dependsOn;
      assert EarlierSlot(r, q, p);
      LexicographicRank(PhaseIndex(r, q.phase), PhaseIndex(r, p.phase), q.wave, p.wave, width);
    }
    RankedIsAcyclic(g, rank);
  }

  /** A roadmap without order or wave findings has no cycle finding either. */
  lemma CleanOrderHasNoCycle(r: Roadmap)
    requires !Reports(DependencyFindings(r), WpPhaseOrder) && !Reports(DependencyFindings(r), WpWave)
    ensures !Reports(DependencyFindings(r), WpCycle)
  {
    CleanIffSlotsFall(r);
    FallingSlotsAreAcyclic(r);
    CycleFindingIffCyclic(r);
  }

  ghost predicate PackagesOf(byId: map<string, WorkPackage>, ids: seq<Node>, packages: seq<WorkPackage>) {
    |packages| == |ids| && forall i :: 0 <= i < |ids| ==> ids[i] in byId && packages[i] == byId[ids[i]]
  }

  /** The waves of the dependency graph with each id replaced by its package. */
  ghost predicate LayersOf(r: Roadmap, layers: seq<seq<WorkPackage>>, ids: seq<seq<Node>>) {
    && IsWaves(DependencyGraph(r.packages), ids) && |layers| == |ids|
    && forall k :: 0 <= k < |ids| ==> PackagesOf(ById(r.packages), ids[k], layers[k])
  }

  ghost predicate IsLayering(r: Roadmap, layers: seq<seq<WorkPackage>>) {
    exists ids :: LayersOf(r, layers, ids)
  }

  method TopologicalWaves(r: Roadmap) returns (layers: seq<seq<WorkPackage>>)
    ensures IsLayering(r, layers)
  {
    GraphMirrorsById(r.packages);
    var byId := ById(r.packages);
    var g := DependencyGraph(r.packages);
    var waves := Waves(g);
    forall k, i | 0 <= k < |waves| && 0 <= i < |waves[k]| ensures waves[k][i] in byId {
      WavesRespectDependencies(g, waves, k, waves[k][i]);
    }
    layers := seq(|waves|, k requires 0 <= k < |waves| =>
      seq(|waves[k]|, i requires 0 <= i < |waves[k]| => byId[waves[k][i]]));
    assert LayersOf(r, layers, waves);
  }

  ghost predicate InLayer(layers: seq<seq<WorkPackage>>, p: WorkPackage, k: nat) {
    k < |layers| && p in layers[k]
  }

  ghost predicate DistinctIds(packages: seq<WorkPackage>) {
    forall i, j :: 0 <= i < j < |packages| ==> packages[i].id != packages[j].id
  }

  lemma {:induction false} DistinctIdsResolve(packages: seq<WorkPackage>)
    requires DistinctIds(packages)
    ensures forall p :: p in packages ==> p.id in ById(packages) && ById(packages)[p.id] == p
  {
    if packages != [] {
      var init := packages[..|packages| - 1];
      DistinctIdsResolve(init);
      assert packages == init + [packages[|packages| - 1]];
    }
  }

  lemma IdInLayer(r: Roadmap, layers: seq<seq<WorkPackage>>, ids: seq<seq<Node>>, p: WorkPackage, k: nat)
    requires LayersOf(r, layers, ids) && k < |ids|
    requires DistinctIds(r.packages) && p in r.packages
    ensures p.id in ids[k] <==> InLayer(layers, p, k)
  {
    GraphMirrorsById(r.packages);
    DistinctIdsResolve(r.packages);
    if p.id in ids[k] {
      var i :| 0 <= i < |ids[k]| && ids[k][i] == p.id;
      assert layers[k][i] == p;
    }
  }

  lemma LayerHoldsOnce(r: Roadmap, layer: seq<WorkPackage>, ids: seq<Node>, p: WorkPackage)
    requires PackagesOf(ById(r.packages), ids, layer) && NoDup(ids) && p in layer
    ensures multiset(layer)[p] == 1
  {
    GraphMirrorsById(r.packages);
    forall i, j | 0 <= i < j < |layer| ensures layer[i] != layer[j] {
      assert ids[i] != ids[j] && layer[i].id == ids[i] && layer[j].id == ids[j];
    }
    MultiplicityAtMostOne(layer, p);
  }

  lemma DependencyInEarlierLayer(r: Roadmap, layers: seq<seq<WorkPackage>>, ids: seq<seq<Node>>, p: WorkPackage, k: nat,
        q: WorkPackage)
    requires LayersOf(r, layers, ids) && DistinctIds(r.packages)
    requires p in r.packages && InLayer(layers, p, k) && q in r.packages && q.id in p.dependsOn
    ensures exists j: nat :: j < k && InLayer(layers, q, j)
  {
    GraphMirrorsById(r.packages);
    DistinctIdsResolve(r.packages);
    IdInLayer(r, layers, ids, p, k);
    WavesRespectDependencies(DependencyGraph(r.packages), ids, k, p.id);
    assert Edge(DependencyGraph(r.packages), p.id, q.id);
    var j :| 0 <= j < k && q.id in ids[j];
    IdInLayer(r, layers, ids, q, j);
  }

  lemma OnlyOneLayer(r: Roadmap, layers: seq<seq<WorkPackage>>, ids: seq<seq<Node>>, p: WorkPackage, j: nat, k: nat)
    requires LayersOf(r, layers, ids) && DistinctIds(r.packages)
    requires p in r.packages && InLayer(layers, p, j) && InLayer(layers, p, k)
    ensures j == k && multiset(layers[k])[p] == 1
  {
    IdInLayer(r, layers, ids, p, j);
    IdInLayer(r, layers, ids, p, k);
    WavesRespectDependencies(DependencyGraph(r.packages), ids, k, p.id);
    assert IsLayer(DependencyGraph(r.packages), ids[k], k);
    LayerHoldsOnce(r, layers[k], ids[k], p);
  }

  /** On a roadmap the order rules accept, every package is in exactly one layer, after all its resolved
      dependencies. */
  lemma CleanRoadmapIsLayeredOnce(r: Roadmap, layers: seq<seq<WorkPackage>>, p: WorkPackage)
    requires IsLayering(r, layers)
    requires !Reports(DependencyFindings(r), WpPhaseOrder) && !Reports(DependencyFindings(r), WpWave)
    requires DistinctIds(r.packages) && p in r.packages
    ensures exists k: nat :: InLayer(layers, p, k)
    ensures forall j: nat, k: nat :: InLayer(layers, p, j) && InLayer(layers, p, k) ==> j == k
    ensures forall k: nat :: InLayer(layers, p, k) ==> multiset(layers[k])[p] == 1
    ensures forall k: nat, q :: InLayer(layers, p, k) && q in r.packages && q.id in p.dependsOn ==>
      exists j: nat :: j < k && InLayer(layers, q, j)
  {
    var ids :| LayersOf(r, layers, ids);
    CleanIffSlotsFall(r);
    FallingSlotsAreAcyclic(r);
    WavesCoverIffAcyclic(DependencyGraph(r.packages), ids);
    GraphMirrorsById(r.packages);
    assert Layered(ids, p.id);
    var at: nat :| at < |ids| && p.id in ids[at];
    IdInLayer(r, layers, ids, p, at);
    forall j: nat, k: nat | InLayer(layers, p, j) && InLayer(layers, p, k) ensures j == k
      && multiset(layers[k])[p] == 1 {
      OnlyOneLayer(r, layers, ids, p, j, k);
    }
    forall k: nat, q | InLayer(layers, p, k) && q in r.packages && q.id in p.dependsOn
      ensures exists j: nat :: j < k && InLayer(layers, q, j)
    {
      DependencyInEarlierLayer(r, layers, ids, p, k, q);
    }
  }
}
