/** The tracker as a projection of the roadmap: the plan, what applying it does, and when the two converge. */
module Sync {
  import opened Sorting
  import opened Options
  import opened Text
  import opened Decimals
  import opened Roadmap

  datatype Milestone = Milestone(title: string, description: string)

  datatype Issue = Issue(title: string, body: string, labels: set<string>, milestone: string, open: bool)

  /** The repository's tracker; a milestone or an issue is named by its position, in order of creation. */
  datatype Tracker = Tracker(milestones: seq<Milestone>, labels: set<string>, issues: seq<Issue>)

  /** The configured titles and the generated bodies, as functions of what they describe. */
  datatype Projection = Projection(milestoneTitle: Phase -> string, milestoneBody: Phase -> string,
                                   issueTitle: WorkPackage -> string, issueBody: WorkPackage -> string)

  datatype Kind = MilestoneKind | LabelKind | IssueKind

  datatype Operation =
    | CreateMilestone(title: string, description: string)
    | DescribeMilestone(number: nat, description: string)
    | CreateLabel(name: string)
    | OpenIssue(title: string, body: string, milestone: string, labels: seq<string>)
    | AddLabels(number: nat, labels: seq<string>)
    | RewriteBody(number: nat, body: string)
    | CloseIssue(number: nat)

  function KindOf(op: Operation): Kind {
    match op
    case CreateMilestone(_, _) => MilestoneKind
    case DescribeMilestone(_, _) => MilestoneKind
    case CreateLabel(_) => LabelKind
    case _ => IssueKind
  }

  // ----- labels --------------------------------------------------------------

  const PREFIXES := ["phase:", "req:", "tier:", "brick:", "gate:", "wave:"]

  predicate IsTaxonomy(l: string) {
    exists i :: 0 <= i < |PREFIXES| && StartsWith(l, PREFIXES[i])
  }

  /** Every label a package gets, as the set the source sorts. */
  function LabelSet(r: Roadmap, p: WorkPackage): set<string> {
    {"phase:" + p.phase, "wave:" + Print(p.wave)}
    + (set c | c in p.covers :: "req:" + c)
    + (set gate | gate in p.gates :: "gate:" + gate)
    + (if p.brick != "" then {"brick:" + p.brick} else {})
    + (set c | c in p.covers && c in r.tiers :: "tier:" + r.tiers[c])
    + (if p.status == Reordered then {"moved"} else {})
  }

  function LabelsFor(r: Roadmap, p: WorkPackage): seq<string> {
    SortedSet(LabelSet(r, p))
  }

  method ComputeLabels(r: Roadmap, p: WorkPackage) returns (sorted: seq<string>)
    ensures sorted == LabelsFor(r, p)
  {
    var labels := {"phase:" + p.phase, "wave:" + Print(p.wave)};
    labels := labels + (set c | c in p.covers :: "req:" + c);
    labels := labels + (set gate | gate in p.gates :: "gate:" + gate);
    if p.brick != "" {
      labels := labels + {"brick:" + p.brick};
    }
    ghost var before := labels;
    for i := 0 to |p.covers|
      invariant labels == before + set c | c in p.covers[..i] && c in r.tiers :: "tier:" + r.tiers[c]
    {
      if p.covers[i] in r.tiers {
        labels := labels + {"tier:" + r.tiers[p.covers[i]]};
      }
    }
    assert p.covers[..|p.covers|] == p.covers;
    if p.status == Reordered {
      labels := labels + {"moved"};
    }
    assert labels == LabelSet(r, p);
    sorted := SortedSet(labels);
  }

  /** The labels that a plan compares are those with one of six prefixes. */
  lemma TaxonomyIs(l: string)
    ensures IsTaxonomy(l) <==>
      || StartsWith(l, "phase:") || StartsWith(l, "wave:") || StartsWith(l, "req:")
      || StartsWith(l, "gate:") || StartsWith(l, "brick:") || StartsWith(l, "tier:")
  {
    if StartsWith(l, "phase:") { assert PREFIXES[0] == "phase:"; }
    if StartsWith(l, "req:") { assert PREFIXES[1] == "req:"; }
    if StartsWith(l, "tier:") { assert PREFIXES[2] == "tier:"; }
    if StartsWith(l, "brick:") { assert PREFIXES[3] == "brick:"; }
    if StartsWith(l, "gate:") { assert PREFIXES[4] == "gate:"; }
    if StartsWith(l, "wave:") { assert PREFIXES[5] == "wave:"; }
  }

  lemma PrefixIsTaxonomy(i: nat, rest: string)
    requires i < |PREFIXES|
    ensures IsTaxonomy(PREFIXES[i] + rest)
  {
    assert (PREFIXES[i] + rest)[..|PREFIXES[i]|] == PREFIXES[i];
  }

  lemma MovedIsNoTaxonomy()
    ensures !IsTaxonomy("moved")
  {
    forall i | 0 <= i < |PREFIXES| ensures !StartsWith("moved", PREFIXES[i]) {
      assert PREFIXES[i][0] != 'm' && "moved"[0] == 'm';
    }
  }

  /** A reordered package is the one case with a label outside the taxonomy the tracker is compared on. */
  lemma OnlyMovedIsOutside(r: Roadmap, p: WorkPackage)
    ensures (forall l :: l in LabelSet(r, p) ==> IsTaxonomy(l)) <==> p.status != Reordered
  {
    MovedIsNoTaxonomy();
    forall l | l in LabelSet(r, p) && l != "moved" ensures IsTaxonomy(l) {
      if l == "phase:" + p.phase {
        PrefixIsTaxonomy(0, p.phase);
      } else if l == "wave:" + Print(p.wave) {
        PrefixIsTaxonomy(5, Print(p.wave));
      } else if c :| c in p.covers && l == "req:" + c {
        PrefixIsTaxonomy(1, c);
      } else if c :| c in p.covers && c in r.tiers && l == "tier:" + r.tiers[c] {
        PrefixIsTaxonomy(2, r.tiers[c]);
      } else if gate :| gate in p.gates && l == "gate:" + gate {
        PrefixIsTaxonomy(4, gate);
      } else {
        PrefixIsTaxonomy(3, p.brick);
      }
    }
    if p.status != Reordered && "moved" in LabelSet(r, p) {
      MovedOnlyWhenReordered(r, p);
    }
  }

  lemma MovedOnlyWhenReordered(r: Roadmap, p: WorkPackage)
    requires p.status != Reordered
    ensures "moved" !in LabelSet(r, p)
  {
    assert forall s: string :: ("phase:" + s)[0] == 'p' && ("wave:" + s)[0] == 'w' && ("req:" + s)[0] == 'r';
    assert forall s: string :: ("tier:" + s)[0] == 't' && ("gate:" + s)[0] == 'g' && ("brick:" + s)[0] == 'b';
  }

  /** Which field earned a label: by its first letter the label is that field's. */
  lemma LabelHeads(r: Roadmap, p: WorkPackage, l: string)
    requires l in LabelSet(r, p)
    ensures l != []
    ensures l[0] == 'p' ==> l == "phase:" + p.phase
    ensures l[0] == 'w' ==> l == "wave:" + Print(p.wave)
    ensures l[0] == 'r' ==> exists c :: c in p.covers && l == "req:" + c
    ensures l[0] == 'g' ==> exists gate :: gate in p.gates && l == "gate:" + gate
    ensures l[0] == 'b' ==> p.brick != "" && l == "brick:" + p.brick
    ensures l[0] == 't' ==> exists c :: c in p.covers && c in r.tiers && l == "tier:" + r.tiers[c]
    ensures l[0] == 'm' ==> p.status == Reordered
  {
    assert forall s: string :: ("phase:" + s)[0] == 'p' && ("wave:" + s)[0] == 'w' && ("req:" + s)[0] == 'r';
    assert forall s: string :: ("tier:" + s)[0] == 't' && ("gate:" + s)[0] == 'g' && ("brick:" + s)[0] == 'b';
  }

  lemma SameTail(prefix: string, x: string, y: string)
    requires prefix + x == prefix + y
    ensures x == y
  {
    assert (prefix + x)[|prefix|..] == x && (prefix + y)[|prefix|..] == y;
  }

  /** From a label, the field of the package that earned it. */
  lemma LabelsSay(r: Roadmap, p: WorkPackage, x: string)
    ensures "phase:" + x in LabelSet(r, p) <==> x == p.phase
    ensures "wave:" + x in LabelSet(r, p) <==> x == Print(p.wave)
    ensures "brick:" + x in LabelSet(r, p) <==> x == p.brick && x != ""
    ensures "moved" in LabelSet(r, p) <==> p.status == Reordered
  {
    if "phase:" + x in LabelSet(r, p) {
      LabelHeads(r, p, "phase:" + x);
      SameTail("phase:", x, p.phase);
    }
    if "wave:" + x in LabelSet(r, p) {
      LabelHeads(r, p, "wave:" + x);
      SameTail("wave:", x, Print(p.wave));
    }
    if "brick:" + x in LabelSet(r, p) {
      LabelHeads(r, p, "brick:" + x);
      SameTail("brick:", x, p.brick);
    }
    if "moved" in LabelSet(r, p) { LabelHeads(r, p, "moved"); }
  }

  lemma RequirementLabelsSay(r: Roadmap, p: WorkPackage, x: string)
    ensures "req:" + x in LabelSet(r, p) <==> x in p.covers
    ensures "gate:" + x in LabelSet(r, p) <==> x in p.gates
    ensures "tier:" + x in LabelSet(r, p) <==> exists c :: c in p.covers && c in r.tiers && r.tiers[c] == x
  {
    if "req:" + x in LabelSet(r, p) {
      LabelHeads(r, p, "req:" + x);
      var c :| c in p.covers && "req:" + x == "req:" + c;
      SameTail("req:", x, c);
    }
    if "gate:" + x in LabelSet(r, p) {
      LabelHeads(r, p, "gate:" + x);
      var gate :| gate in p.gates && "gate:" + x == "gate:" + gate;
      SameTail("gate:", x, gate);
    }
    if "tier:" + x in LabelSet(r, p) {
      LabelHeads(r, p, "tier:" + x);
      var c :| c in p.covers && c in r.tiers && "tier:" + x == "tier:" + r.tiers[c];
      SameTail("tier:", x, r.tiers[c]);
    }
  }

  // ----- the plan --------------------------------------------------------------

  /** The position a title resolves to: the listing is newest first and the dictionary keeps the last one read. */
  function FindTitle(titles: seq<string>, title: string): (at: Option<nat>)
    ensures at.Some? ==> at.value < |titles| && titles[at.value] == title && title !in titles[..at.value]
    ensures at.None? <==> title !in titles
  {
    if title in titles then Some(IndexOf(titles, title)) else None
  }

  function IssueTitles(issues: seq<Issue>): (titles: seq<string>)
    ensures |titles| == |issues| && forall i :: 0 <= i < |titles| ==> titles[i] == issues[i].title
  {
    seq(|issues|, i requires 0 <= i < |issues| => issues[i].title)
  }

  function MilestoneTitles(milestones: seq<Milestone>): (titles: seq<string>)
    ensures |titles| == |milestones| && forall i :: 0 <= i < |titles| ==> titles[i] == milestones[i].title
  {
    seq(|milestones|, i requires 0 <= i < |milestones| => milestones[i].title)
  }

  function FindIssue(issues: seq<Issue>, title: string): (at: Option<nat>)
    ensures at.Some? ==> at.value < |issues|
  {
    FindTitle(IssueTitles(issues), title)
  }

  function FindMilestone(milestones: seq<Milestone>, title: string): (at: Option<nat>)
    ensures at.Some? ==> at.value < |milestones|
  {
    FindTitle(MilestoneTitles(milestones), title)
  }

  function MilestoneOps(t: Tracker, c: Projection, phase: Phase): seq<Operation> {
    var title, body := c.milestoneTitle(phase), c.milestoneBody(phase);
    match FindMilestone(t.milestones, title)
    case None => [CreateMilestone(title, body)]
    case Some(n) => if Differs(t.milestones[n].description, body) then [DescribeMilestone(n, body)] else []
  }

  function AllMilestoneOps(t: Tracker, c: Projection, phases: seq<Phase>): seq<Operation> {
    if phases == [] then []
    else AllMilestoneOps(t, c, phases[..|phases| - 1]) + MilestoneOps(t, c, phases[|phases| - 1])
  }

  function WantedLabels(r: Roadmap, packages: seq<WorkPackage>): set<string> {
    set p, l | p in packages && l in LabelSet(r, p) :: l
  }

  function LabelOps(labels: seq<string>): (ops: seq<Operation>)
    ensures |ops| == |labels| && forall i :: 0 <= i < |ops| ==> ops[i] == CreateLabel(labels[i])
  {
    seq(|labels|, i requires 0 <= i < |labels| => CreateLabel(labels[i]))
  }

  function Taxonomy(labels: set<string>): set<string> {
    set l | l in labels && IsTaxonomy(l)
  }

  function IssueOps(t: Tracker, r: Roadmap, c: Projection, p: WorkPackage, phase: Phase): seq<Operation> {
    var title, body, labels := c.issueTitle(p), c.issueBody(p), LabelsFor(r, p);
    match FindIssue(t.issues, title)
    case None => [OpenIssue(title, body, c.milestoneTitle(phase), labels)]
    case Some(n) => IssueEdits(n, t.issues[n], labels, body, p.status == Done)
  }

  predicate Differs(a: string, b: string) {
    Strip(a) != Strip(b)
  }

  /** A core without blanks at its ends, or nothing at all. */
  predicate IsCore(s: string) {
    s == "" || Trim(s)
  }

  lemma CoreStrips(before: string, s: string, after: string)
    requires Blank(before) && IsCore(s) && Blank(after)
    ensures Strip(before + s + after) == s
  {
    if s == "" {
      AllBlankStrips(before + after);
      assert before + s + after == before + after;
    } else {
      StripBlanks(before, s, after);
    }
  }

  /** Texts differ for the tracker exactly when they differ between the blanks at their ends. */
  lemma DiffersIff(u: string, s: string, v: string, x: string, t: string, y: string)
    requires Blank(u) && IsCore(s) && Blank(v) && Blank(x) && IsCore(t) && Blank(y)
    ensures Differs(u + s + v, x + t + y) <==> s != t
  {
    CoreStrips(u, s, v);
    CoreStrips(x, t, y);
  }

  predicate NeedsLabels(issue: Issue, labels: seq<string>) {
    SortedSet(Taxonomy(issue.labels)) != labels
  }

  function IssueEdits(n: nat, issue: Issue, labels: seq<string>, body: string, done: bool): seq<Operation> {
    When(NeedsLabels(issue, labels), AddLabels(n, labels))
    + When(Differs(issue.body, body), RewriteBody(n, body))
    + When(done && issue.open, CloseIssue(n))
  }

  /** None is the KeyError of a package whose phase no phase declares. */
  function AllIssueOps(t: Tracker, r: Roadmap, c: Projection, packages: seq<WorkPackage>): Option<seq<Operation>> {
    if packages == [] then Some([])
    else
      var last := packages[|packages| - 1];
      match (AllIssueOps(t, r, c, packages[..|packages| - 1]), PhaseById(r.phases, last.phase))
      case (Some(ops), Some(phase)) => Some(ops + IssueOps(t, r, c, last, phase))
      case _ => None
  }

  function Plan(t: Tracker, r: Roadmap, c: Projection): Option<seq<Operation>> {
    match AllIssueOps(t, r, c, r.packages)
    case None => None
    case Some(issueOps) =>
      Some(AllMilestoneOps(t, c, r.phases)
           + LabelOps(SortedSet(WantedLabels(r, r.packages) - t.labels))
           + issueOps)
  }

  method PlanMilestones(t: Tracker, c: Projection, phases: seq<Phase>) returns (operations: seq<Operation>)
    ensures operations == AllMilestoneOps(t, c, phases)
  {
    operations := [];
    for i := 0 to |phases|
      invariant operations == AllMilestoneOps(t, c, phases[..i])
    {
      assert phases[..i + 1][..i] == phases[..i];
      var title, body := c.milestoneTitle(phases[i]), c.milestoneBody(phases[i]);
      var existing := FindMilestone(t.milestones, title);
      if existing.None? {
        operations := operations + [CreateMilestone(title, body)];
      } else if Differs(t.milestones[existing.value].description, body) {
        operations := operations + [DescribeMilestone(existing.value, body)];
      }
    }
    assert phases[..|phases|] == phases;
  }

  method AppendWhen(operations: seq<Operation>, condition: bool, op: Operation) returns (more: seq<Operation>)
    ensures more == operations + When(condition, op)
  {
    more := operations;
    if condition {
      more := more + [op];
    }
  }

  method PlanEdits(n: nat, issue: Issue, labels: seq<string>, body: string, done: bool)
        returns (operations: seq<Operation>)
    ensures operations == IssueEdits(n, issue, labels, body, done)
  {
    operations := AppendWhen([], NeedsLabels(issue, labels), AddLabels(n, labels));
    operations := AppendWhen(operations, Differs(issue.body, body), RewriteBody(n, body));
    operations := AppendWhen(operations, done && issue.open, CloseIssue(n));
  }

  method PlanIssue(t: Tracker, r: Roadmap, c: Projection, p: WorkPackage, phase: Phase)
        returns (operations: seq<Operation>)
    ensures operations == IssueOps(t, r, c, p, phase)
  {
    var title, body := c.issueTitle(p), c.issueBody(p);
    var labels := ComputeLabels(r, p);
    var existing := FindIssue(t.issues, title);
    if existing.None? {
      return [OpenIssue(title, body, c.milestoneTitle(phase), labels)];
    }
    operations := PlanEdits(existing.value, t.issues[existing.value], labels, body, p.status == Done);
  }

  method PlanIssues(t: Tracker, r: Roadmap, c: Projection) returns (operations: Option<seq<Operation>>)
    ensures operations == AllIssueOps(t, r, c, r.packages)
  {
    var ops := [];
    for i := 0 to |r.packages|
      invariant AllIssueOps(t, r, c, r.packages[..i]) == Some(ops)
    {
      assert r.packages[..i + 1][..i] == r.packages[..i];
      var phase := PhaseById(r.phases, r.packages[i].phase);
      if phase.None? {
        NoneIsFinal(t, r, c, i + 1);
        return None;
      }
      var more := PlanIssue(t, r, c, r.packages[i], phase.value);
      ops := ops + more;
    }
    assert r.packages[..|r.packages|] == r.packages;
    return Some(ops);
  }

  lemma {:induction false} NoneIsFinal(t: Tracker, r: Roadmap, c: Projection, n: nat)
    requires n <= |r.packages| && AllIssueOps(t, r, c, r.packages[..n]).None?
    ensures AllIssueOps(t, r, c, r.packages).None?
    decreases |r.packages| - n
  {
    if n < |r.packages| {
      assert r.packages[..n + 1][..n] == r.packages[..n];
      NoneIsFinal(t, r, c, n + 1);
    } else {
      assert r.packages[..n] == r.packages;
    }
  }

  method CollectLabels(r: Roadmap) returns (wanted: set<string>)
    ensures wanted == WantedLabels(r, r.packages)
  {
    wanted := {};
    for i := 0 to |r.packages|
      invariant wanted == WantedLabels(r, r.packages[..i])
    {
      var labels := ComputeLabels(r, r.packages[i]);
      SortedSetCorrect(LabelSet(r, r.packages[i]));
      assert Elems(labels) == LabelSet(r, r.packages[i]);
      OneMoreWanted(r, r.packages, i);
      wanted := wanted + Elems(labels);
    }
    assert r.packages[..|r.packages|] == r.packages;
  }

  /** How far the reads of the tracker get: no repository, offline, no gh or an unreadable list end them. */
  datatype Reach = NoTracker | NoMilestones | NoLabels | NoIssues | Everything

  /** unexplained holds the titles of issues that no package explains; skipped says that some read was not made. */
  datatype SyncPlan = SyncPlan(operations: seq<Operation>, unexplained: seq<string>, skipped: bool)

  predicate HasRequirement(labels: set<string>) {
    exists l :: l in labels && StartsWith(l, "req:")
  }

  lemma RequirementIs(labels: set<string>)
    ensures HasRequirement(labels) <==> exists rest :: "req:" + rest in labels
  {
    if l :| l in labels && StartsWith(l, "req:") { assert l == "req:" + l[4..]; }
    if rest :| "req:" + rest in labels { assert ("req:" + rest)[..4] == "req:"; }
  }

  /** The issue the dictionary by title keeps. */
  function IssueOf(t: Tracker, title: string): Option<Issue> {
    match FindIssue(t.issues, title) case None => None case Some(n) => Some(t.issues[n])
  }

  function PlannedTitles(c: Projection, packages: seq<WorkPackage>): set<string> {
    set p | p in packages :: c.issueTitle(p)
  }

  predicate Explained(t: Tracker, r: Roadmap, c: Projection, title: string) {
    title in PlannedTitles(c, r.packages) || IssueOf(t, title).None? || !HasRequirement(IssueOf(t, title).value.labels)
  }

  function Unexplained(t: Tracker, r: Roadmap, c: Projection): seq<string> {
    Filter((title: string) => !Explained(t, r, c, title), SortedSet(Elems(IssueTitles(t.issues))))
  }

  function MissingLabels(t: Tracker, r: Roadmap): seq<Operation> {
    LabelOps(SortedSet(WantedLabels(r, r.packages) - t.labels))
  }

  /** None is the error of a package whose phase nobody declares, which comes up once the issues are read. */
  function PlanWithin(t: Tracker, r: Roadmap, c: Projection, reach: Reach): Option<SyncPlan> {
    match reach
    case NoTracker => Some(SyncPlan([], [], true))
    case NoMilestones => Some(SyncPlan([], [], true))
    case NoLabels => Some(SyncPlan(AllMilestoneOps(t, c, r.phases), [], true))
    case NoIssues => Some(SyncPlan(AllMilestoneOps(t, c, r.phases) + MissingLabels(t, r), [], true))
    case Everything =>
      match Plan(t, r, c)
      case None => None
      case Some(operations) => Some(SyncPlan(operations, Unexplained(t, r, c), false))
  }

  method BuildPlan(t: Tracker, r: Roadmap, c: Projection, reach: Reach) returns (plan: Option<SyncPlan>)
    ensures plan == PlanWithin(t, r, c, reach)
  {
    if reach == NoTracker || reach == NoMilestones {
      return Some(SyncPlan([], [], true));
    }
    var operations := PlanMilestones(t, c, r.phases);
    if reach == NoLabels {
      return Some(SyncPlan(operations, [], true));
    }
    var wanted := CollectLabels(r);
    operations := operations + LabelOps(SortedSet(wanted - t.labels));
    if reach == NoIssues {
      return Some(SyncPlan(operations, [], true));
    }
    var issueOps := PlanIssues(t, r, c);
    if issueOps.None? {
      return None;
    }
    operations := operations + issueOps.value;
    var unexplained := CollectUnexplained(t, r, c);
    return Some(SyncPlan(operations, unexplained, false));
  }

  method CollectUnexplained(t: Tracker, r: Roadmap, c: Projection) returns (unexplained: seq<string>)
    ensures unexplained == Unexplained(t, r, c)
  {
    var titles := SortedSet(Elems(IssueTitles(t.issues)));
    var planned := PlannedTitles(c, r.packages);
    unexplained := [];
    for i := 0 to |titles|
      invariant unexplained == Filter((title: string) => !Explained(t, r, c, title), titles[..i])
    {
      var title := titles[i];
      assert titles[..i + 1] == titles[..i] + [title];
      FilterAppended((title: string) => !Explained(t, r, c, title), titles[..i], title);
      var entry := IssueOf(t, title);
      if title in planned || entry.None? || !HasRequirement(entry.value.labels) {
        continue;
      }
      unexplained := unexplained + [title];
    }
    assert titles[..|titles|] == titles;
  }

  lemma OneMoreWanted(r: Roadmap, packages: seq<WorkPackage>, i: nat)
    requires i < |packages|
    ensures WantedLabels(r, packages[..i + 1]) == WantedLabels(r, packages[..i]) + LabelSet(r, packages[i])
  {
    assert packages[..i + 1] == packages[..i] + [packages[i]];
  }

  // ----- applying it --------------------------------------------------------------

  /** One gh call: None is a non-zero exit. Creating what exists or naming what does not is refused. */
  function Perform(t: Tracker, op: Operation): Option<Tracker> {
    match op
    case CreateMilestone(title, description) =>
      if FindMilestone(t.milestones, title).Some? then None
      else Some(t.(milestones := t.milestones + [Milestone(title, description)]))
    case DescribeMilestone(n, description) =>
      if n >= |t.milestones| then None
      else Some(t.(milestones := t.milestones[n := t.milestones[n].(description := description)]))
    case CreateLabel(name) =>
      if name in t.labels then None else Some(t.(labels := t.labels + {name}))
    case OpenIssue(title, body, milestone, labels) =>
      if FindMilestone(t.milestones, milestone).None? || !(Elems(labels) <= t.labels) then None
      else Some(t.(issues := t.issues + [Issue(title, body, Elems(labels), milestone, true)]))
    case AddLabels(n, labels) =>
      if n >= |t.issues| || !(Elems(labels) <= t.labels) then None
      else Some(t.(issues := t.issues[n := t.issues[n].(labels := t.issues[n].labels + Elems(labels))]))
    case RewriteBody(n, body) =>
      if n >= |t.issues| then None else Some(t.(issues := t.issues[n := t.issues[n].(body := body)]))
    case CloseIssue(n) =>
      if n >= |t.issues| then None else Some(t.(issues := t.issues[n := t.issues[n].(open := false)]))
  }

  /** None is a person at a checkout, who may do everything; a named context never touches an issue. */
  predicate Permitted(context: Option<string>, allowed: seq<string>, op: Operation) {
    context.None? || (context.value in allowed && KindOf(op) != IssueKind)
  }

  /** Runs the operations in order; one that is refused or fails is recorded and changes nothing. */
  function Apply(t: Tracker, ops: seq<Operation>, context: Option<string>,
        allowed: seq<string>): (r: (Tracker, seq<Operation>))
    decreases |ops|
  {
    if ops == [] then (t, [])
    else if !Permitted(context, allowed, ops[0]) || Perform(t, ops[0]).None? then
      var (last, refused) := Apply(t, ops[1..], context, allowed);
      (last, [ops[0]] + refused)
    else Apply(Perform(t, ops[0]).value, ops[1..], context, allowed)
  }

  /** The outcome of the rest of a plan, behind what was refused already. */
  function After(refused: seq<Operation>, rest: (Tracker, seq<Operation>)): (Tracker, seq<Operation>) {
    (rest.0, refused + rest.1)
  }

  lemma AfterOne(refused: seq<Operation>, op: Operation, rest: (Tracker, seq<Operation>))
    ensures After(refused + [op], rest) == After(refused, (rest.0, [op] + rest.1))
  {
    assert refused + [op] + rest.1 == refused + ([op] + rest.1);
  }

  /** The remote tracker, which every call changes in place. */
  class Repository {
    var state: Tracker

    constructor (initial: Tracker)
      ensures state == initial
    {
      state := initial;
    }

    method Run(op: Operation) returns (ok: bool)
      modifies this
      ensures ok == Perform(old(state), op).Some?
      ensures state == if ok then Perform(old(state), op).value else old(state)
    {
      var next := Perform(state, op);
      ok := next.Some?;
      if ok {
        state := next.value;
      }
    }

    /** Without gh on the path nothing runs, and every operation is returned. */
    method ApplyPlan(installed: bool, operations: seq<Operation>, context: Option<string>, allowed: seq<string>)
        returns (refused: seq<Operation>)
      modifies this
      ensures installed ==> (state, refused) == Apply(old(state), operations, context, allowed)
      ensures !installed ==> state == old(state) && refused == operations
    {
      if !installed {
        return operations;
      }
      refused := [];
      ghost var whole := Apply(state, operations, context, allowed);
      assert operations[0..] == operations && After([], whole) == whole by {
        assert [] + whole.1 == whole.1;
      }
      for i := 0 to |operations|
        invariant whole == After(refused, Apply(state, operations[i..], context, allowed))
      {
        var operation := operations[i];
        assert operations[i..][0] == operation && operations[i..][1..] == operations[i + 1..];
        AfterOne(refused, operation, Apply(state, operations[i + 1..], context, allowed));
        if !Permitted(context, allowed, operation) {
          refused := refused + [operation];
          continue;
        }
        var ok := Run(operation);
        if !ok {
          refused := refused + [operation];
        }
      }
      assert operations[|operations|..] == [];
      assert refused + [] == refused;
    }
  }
}
