/** When repeated sync rounds reach a tracker that needs nothing more, and what a round does on the way. */
module Convergence {
  import opened Sorting
  import opened Options
  import opened Roadmap
  import opened Sync

  // ----- running operations ---------------------------------------------------------

  /** By a person at a checkout: every operation is permitted. */
  function Run(t: Tracker, ops: seq<Operation>): (Tracker, seq<Operation>) {
    Apply(t, ops, None, [])
  }

  ghost predicate Runs(t: Tracker, ops: seq<Operation>, last: Tracker) {
    Run(t, ops) == (last, [])
  }

  lemma {:induction false} RunsConcat(t: Tracker, a: seq<Operation>, mid: Tracker, b: seq<Operation>, last: Tracker)
    requires Runs(t, a, mid) && Runs(mid, b, last)
    ensures Runs(t, a + b, last)
    decreases |a|
  {
    if a == [] {
      assert a + b == b;
    } else {
      assert (a + b)[1..] == a[1..] + b;
      RunsConcat(Perform(t, a[0]).value, a[1..], mid, b, last);
    }
  }

  lemma RunsOne(t: Tracker, op: Operation, last: Tracker)
    requires Perform(t, op) == Some(last)
    ensures Runs(t, [op], last)
  {
    assert [op][1..] == [];
    assert Run(last, []) == (last, []);
  }

  lemma RunsWhen(t: Tracker, condition: bool, op: Operation, last: Tracker)
    requires if condition then Perform(t, op) == Some(last) else last == t
    ensures Runs(t, When(condition, op), last)
  {
    if condition {
      RunsOne(t, op, last);
    }
  }

  // ----- what a title resolves to -----------------------------------------------------

  function DescriptionOf(t: Tracker, title: string): Option<string> {
    match FindMilestone(t.milestones, title) case None => None case Some(n) => Some(t.milestones[n].description)
  }

  lemma FirstUnique(titles: seq<string>, title: string, n: nat)
    requires n < |titles| && titles[n] == title && title !in titles[..n]
    ensures FindTitle(titles, title) == Some(n)
  {
    var m := FindTitle(titles, title).value;
  }

  lemma FindInLonger(titles: seq<string>, longer: seq<string>, title: string)
    requires titles <= longer && title in titles
    ensures FindTitle(longer, title) == FindTitle(titles, title)
  {
    var n := FindTitle(titles, title).value;
    assert longer[..n] == titles[..n];
    FirstUnique(longer, title, n);
  }

  lemma FindAppended(titles: seq<string>, added: string, title: string)
    ensures FindTitle(titles + [added], title) ==
      if title in titles then FindTitle(titles, title) else if title == added then Some(|titles|) else None
  {
    if title in titles {
      FindInLonger(titles, titles + [added], title);
    } else if title == added {
      assert (titles + [added])[..|titles|] == titles;
      FirstUnique(titles + [added], title, |titles|);
    }
  }

  // ----- milestones ---------------------------------------------------------------------

  function AfterDescription(existing: Option<string>, body: string): string {
    if existing.Some? && !Differs(existing.value, body) then existing.value else body
  }

  ghost predicate MilestonesEvolve(before: Tracker, after: Tracker) {
    && MilestoneTitles(before.milestones) <= MilestoneTitles(after.milestones)
    && before.labels == after.labels && before.issues == after.issues
  }

  lemma MilestoneRuns(t0: Tracker, t: Tracker, c: Projection, phase: Phase) returns (last: Tracker)
    requires MilestonesEvolve(t0, t)
    requires DescriptionOf(t, c.milestoneTitle(phase)) == DescriptionOf(t0, c.milestoneTitle(phase))
    ensures Runs(t, MilestoneOps(t0, c, phase), last) && MilestonesEvolve(t0, last)
    ensures DescriptionOf(last, c.milestoneTitle(phase)) ==
      Some(AfterDescription(DescriptionOf(t0, c.milestoneTitle(phase)), c.milestoneBody(phase)))
    ensures forall title :: title != c.milestoneTitle(phase) ==> DescriptionOf(last, title) == DescriptionOf(t, title)
  {
    var title, body := c.milestoneTitle(phase), c.milestoneBody(phase);
    match FindMilestone(t0.milestones, title) {
      case None =>
        last := t.(milestones := t.milestones + [Milestone(title, body)]);
        assert MilestoneTitles(last.milestones) == MilestoneTitles(t.milestones) + [title];
        forall other ensures DescriptionOf(last, other) == if other == title then Some(body)
          else DescriptionOf(t, other) {
          FindAppended(MilestoneTitles(t.milestones), title, other);
        }
        RunsOne(t, CreateMilestone(title, body), last);
      case Some(n) =>
        FindInLonger(MilestoneTitles(t0.milestones), MilestoneTitles(t.milestones), title);
        if Differs(t0.milestones[n].description, body) {
          last := t.(milestones := t.milestones[n := t.milestones[n].(description := body)]);
          assert MilestoneTitles(last.milestones) == MilestoneTitles(t.milestones);
          forall other | other != title ensures DescriptionOf(last, other) == DescriptionOf(t, other) {
          }
          RunsOne(t, DescribeMilestone(n, body), last);
        } else {
          last := t;
        }
    }
  }

  ghost predicate DistinctMilestones(c: Projection, phases: seq<Phase>) {
    forall i, j :: 0 <= i < j < |phases| ==> c.milestoneTitle(phases[i]) != c.milestoneTitle(phases[j])
  }

  ghost predicate NamesMilestone(c: Projection, phases: seq<Phase>, title: string) {
    exists p :: p in phases && c.milestoneTitle(p) == title
  }

  ghost predicate MilestoneIs(t0: Tracker, t: Tracker, c: Projection, p: Phase) {
    DescriptionOf(t, c.milestoneTitle(p)) ==
    Some(AfterDescription(DescriptionOf(t0, c.milestoneTitle(p)), c.milestoneBody(p)))
  }

  ghost predicate MilestonesAre(t0: Tracker, t: Tracker, c: Projection, phases: seq<Phase>) {
    && (forall p :: p in phases ==> MilestoneIs(t0, t, c, p))
    && (forall title :: !NamesMilestone(c, phases, title) ==> DescriptionOf(t, title) == DescriptionOf(t0, title))
  }

  lemma {:induction false} AllMilestonesRun(t0: Tracker, c: Projection, phases: seq<Phase>) returns (last: Tracker)
    requires DistinctMilestones(c, phases)
    ensures Runs(t0, AllMilestoneOps(t0, c, phases), last)
    ensures MilestonesEvolve(t0, last) && MilestonesAre(t0, last, c, phases)
  {
    if phases == [] {
      last := t0;
    } else {
      var init, phase := phases[..|phases| - 1], phases[|phases| - 1];
      assert phases == init + [phase];
      var mid := AllMilestonesRun(t0, c, init);
      assert !NamesMilestone(c, init, c.milestoneTitle(phase));
      last := MilestoneRuns(t0, mid, c, phase);
      RunsConcat(t0, AllMilestoneOps(t0, c, init), mid, MilestoneOps(t0, c, phase), last);
      forall title | !NamesMilestone(c, phases, title) ensures DescriptionOf(last, title) == DescriptionOf(t0, title) {
        assert phase in phases;
        assert !NamesMilestone(c, init, title);
      }
    }
  }

  // ----- labels ----------------------------------------------------------------------------

  lemma {:induction false} LabelsRun(t: Tracker, labels: seq<string>) returns (last: Tracker)
    requires NoDup(labels) && forall l :: l in labels ==> l !in t.labels
    ensures Runs(t, LabelOps(labels), last) && last == t.(labels := t.labels + Elems(labels))
    decreases |labels|
  {
    if labels == [] {
      last := t;
    } else {
      var next := t.(labels := t.labels + {labels[0]});
      assert LabelOps(labels)[0] == CreateLabel(labels[0]) && LabelOps(labels)[1..] == LabelOps(labels[1..]);
      assert Perform(t, CreateLabel(labels[0])) == Some(next);
      last := LabelsRun(next, labels[1..]);
      assert {labels[0]} + Elems(labels[1..]) == Elems(labels);
    }
  }

  // ----- issues ------------------------------------------------------------------------------

  function Edited(issue: Issue, r: Roadmap, p: WorkPackage, body: string): Issue {
    issue.(labels := if NeedsLabels(issue, LabelsFor(r, p)) then issue.labels + LabelSet(r, p) else issue.labels,
           body := if Differs(issue.body, body) then body else issue.body,
           open := issue.open && p.status != Done)
  }

  function AfterIssue(existing: Option<Issue>, r: Roadmap, c: Projection, p: WorkPackage, milestone: string): Issue {
    match existing
    case None => Issue(c.issueTitle(p), c.issueBody(p), LabelSet(r, p), milestone, true)
    case Some(issue) => Edited(issue, r, p, c.issueBody(p))
  }

  ghost predicate IssuesEvolve(before: Tracker, after: Tracker) {
    && IssueTitles(before.issues) <= IssueTitles(after.issues)
    && before.labels == after.labels && before.milestones == after.milestones
  }

  lemma LabelsForElems(r: Roadmap, p: WorkPackage)
    ensures Elems(LabelsFor(r, p)) == LabelSet(r, p)
  {
    SortedSetCorrect(LabelSet(r, p));
  }

  function WithIssue(t: Tracker, n: nat, issue: Issue): Tracker
    requires n < |t.issues|
  {
    t.(issues := t.issues[n := issue])
  }

  lemma EditRuns(t: Tracker, n: nat, issue: Issue, condition: bool, op: Operation, next: Issue)
    requires n < |t.issues|
    requires condition ==> Perform(WithIssue(t, n, issue), op) == Some(WithIssue(WithIssue(t, n, issue), n, next))
    requires !condition ==> next == issue
    ensures Runs(WithIssue(t, n, issue), When(condition, op), WithIssue(t, n, next))
  {
    assert WithIssue(WithIssue(t, n, issue), n, next) == WithIssue(t, n, next);
    RunsWhen(WithIssue(t, n, issue), condition, op, WithIssue(t, n, next));
  }

  function Labelled(issue: Issue, r: Roadmap, p: WorkPackage): Issue {
    if NeedsLabels(issue, LabelsFor(r, p)) then issue.(labels := issue.labels + LabelSet(r, p)) else issue
  }

  function Rewritten(issue: Issue, body: string): Issue {
    if Differs(issue.body, body) then issue.(body := body) else issue
  }

  lemma RelabelRuns(t: Tracker, n: nat, issue: Issue, r: Roadmap, p: WorkPackage)
    requires n < |t.issues| && LabelSet(r, p) <= t.labels
    ensures Runs(WithIssue(t, n, issue), When(NeedsLabels(issue, LabelsFor(r, p)), AddLabels(n, LabelsFor(r, p))),
                 WithIssue(t, n, Labelled(issue, r, p)))
  {
    RelabelPerforms(t, n, issue, r, p);
    EditRuns(t, n, issue, NeedsLabels(issue, LabelsFor(r, p)), AddLabels(n, LabelsFor(r, p)), Labelled(issue, r, p));
  }

  lemma RelabelPerforms(t: Tracker, n: nat, issue: Issue, r: Roadmap, p: WorkPackage)
    requires n < |t.issues| && LabelSet(r, p) <= t.labels
    ensures var here := WithIssue(t, n, issue);
      Perform(here, AddLabels(n, LabelsFor(r, p))) ==
        Some(WithIssue(here, n, issue.(labels := issue.labels + LabelSet(r, p))))
  {
    LabelsForElems(r, p);
  }

  lemma RewriteRuns(t: Tracker, n: nat, issue: Issue, body: string)
    requires n < |t.issues|
    ensures Runs(WithIssue(t, n, issue), When(Differs(issue.body, body), RewriteBody(n, body)),
                 WithIssue(t, n, Rewritten(issue, body)))
  {
    EditRuns(t, n, issue, Differs(issue.body, body), RewriteBody(n, body), Rewritten(issue, body));
  }

  lemma CloseRuns(t: Tracker, n: nat, issue: Issue, close: bool)
    requires n < |t.issues|
    ensures Runs(WithIssue(t, n, issue), When(close, CloseIssue(n)),
                 WithIssue(t, n, if close then issue.(open := false) else issue))
  {
    EditRuns(t, n, issue, close, CloseIssue(n), if close then issue.(open := false) else issue);
  }

  lemma EditsRun(t: Tracker, n: nat, r: Roadmap, p: WorkPackage, body: string)
    requires n < |t.issues| && LabelSet(r, p) <= t.labels
    ensures Runs(t, IssueEdits(n, t.issues[n], LabelsFor(r, p), body, p.status == Done),
                 WithIssue(t, n, Edited(t.issues[n], r, p, body)))
  {
    var issue := t.issues[n];
    var a := Labelled(issue, r, p);
    var b := Rewritten(a, body);
    var close := p.status == Done && issue.open;
    assert WithIssue(t, n, issue) == t;
    RelabelRuns(t, n, issue, r, p);
    RewriteRuns(t, n, a, body);
    CloseRuns(t, n, b, close);
    assert Edited(issue, r, p, body) == if close then b.(open := false) else b;
    var relabel := When(NeedsLabels(issue, LabelsFor(r, p)), AddLabels(n, LabelsFor(r, p)));
    var rewrite := When(Differs(a.body, body), RewriteBody(n, body));
    RunsConcat(t, relabel, WithIssue(t, n, a), rewrite, WithIssue(t, n, b));
    RunsConcat(t, relabel + rewrite, WithIssue(t, n, b), When(close, CloseIssue(n)),
      WithIssue(t, n, Edited(issue, r, p, body)));
  }

  lemma IssueAdded(t: Tracker, added: Issue)
    requires IssueOf(t, added.title) == None
    ensures var last := t.(issues := t.issues + [added]);
      && IssueTitles(last.issues) == IssueTitles(t.issues) + [added.title]
      && forall other :: IssueOf(last, other) == if other == added.title then Some(added) else IssueOf(t, other)
  {
    var last := t.(issues := t.issues + [added]);
    assert IssueTitles(last.issues) == IssueTitles(t.issues) + [added.title];
    forall other ensures IssueOf(last, other) == if other == added.title then Some(added) else IssueOf(t, other) {
      FindAppended(IssueTitles(t.issues), added.title, other);
    }
  }

  lemma IssueOpens(t: Tracker, added: Issue, labels: seq<string>)
    requires added.open && added.labels == Elems(labels) && added.labels <= t.labels
    requires FindMilestone(t.milestones, added.milestone).Some?
    ensures Runs(t, [OpenIssue(added.title, added.body, added.milestone, labels)], t.(issues := t.issues + [added]))
  {
    RunsOne(t, OpenIssue(added.title, added.body, added.milestone, labels), t.(issues := t.issues + [added]));
  }

  /** The operations of one issue run from t to last: that issue is as planned, every other one as it was. */
  ghost predicate IssueRan(t0: Tracker, t: Tracker, r: Roadmap, c: Projection, p: WorkPackage, phase: Phase,
        last: Tracker) {
    && Runs(t, IssueOps(t0, r, c, p, phase), last) && IssuesEvolve(t0, last)
    && IssueOf(last, c.issueTitle(p)) ==
      Some(AfterIssue(IssueOf(t0, c.issueTitle(p)), r, c, p, c.milestoneTitle(phase)))
    && forall title :: title != c.issueTitle(p) ==> IssueOf(last, title) == IssueOf(t, title)
  }

  lemma NewIssueRuns(t0: Tracker, t: Tracker, r: Roadmap, c: Projection, p: WorkPackage, phase: Phase, added: Issue)
    requires IssuesEvolve(t0, t) && IssueOf(t, c.issueTitle(p)) == IssueOf(t0, c.issueTitle(p)) == None
    requires LabelSet(r, p) <= t.labels && FindMilestone(t.milestones, c.milestoneTitle(phase)).Some?
    requires added == Issue(c.issueTitle(p), c.issueBody(p), LabelSet(r, p), c.milestoneTitle(phase), true)
    ensures IssueRan(t0, t, r, c, p, phase, t.(issues := t.issues + [added]))
  {
    IssueAdded(t, added);
    LabelsForElems(r, p);
    IssueOpens(t, added, LabelsFor(r, p));
  }

  lemma OldIssueRuns(t0: Tracker, t: Tracker, r: Roadmap, c: Projection, p: WorkPackage, phase: Phase, n: nat)
    requires IssuesEvolve(t0, t) && IssueOf(t, c.issueTitle(p)) == IssueOf(t0, c.issueTitle(p))
    requires LabelSet(r, p) <= t.labels && FindIssue(t0.issues, c.issueTitle(p)) == Some(n) && n < |t.issues|
    ensures IssueRan(t0, t, r, c, p, phase, WithIssue(t, n, Edited(t.issues[n], r, p, c.issueBody(p))))
  {
    FindInLonger(IssueTitles(t0.issues), IssueTitles(t.issues), c.issueTitle(p));
    EditsRun(t, n, r, p, c.issueBody(p));
    IssueEdited(t, n, Edited(t.issues[n], r, p, c.issueBody(p)));
  }

  lemma IssueRuns(t0: Tracker, t: Tracker, r: Roadmap, c: Projection, p: WorkPackage, phase: Phase)
        returns (last: Tracker)
    requires IssuesEvolve(t0, t) && IssueOf(t, c.issueTitle(p)) == IssueOf(t0, c.issueTitle(p))
    requires LabelSet(r, p) <= t.labels && FindMilestone(t.milestones, c.milestoneTitle(phase)).Some?
    ensures IssueRan(t0, t, r, c, p, phase, last)
  {
    match FindIssue(t0.issues, c.issueTitle(p)) {
      case None =>
        var added := Issue(c.issueTitle(p), c.issueBody(p), LabelSet(r, p), c.milestoneTitle(phase), true);
        last := t.(issues := t.issues + [added]);
        NewIssueRuns(t0, t, r, c, p, phase, added);
      case Some(n) =>
        assert n < |IssueTitles(t0.issues)| <= |IssueTitles(t.issues)|;
        last := WithIssue(t, n, Edited(t.issues[n], r, p, c.issueBody(p)));
        OldIssueRuns(t0, t, r, c, p, phase, n);
    }
  }

  lemma IssueEdited(t: Tracker, n: nat, issue: Issue)
    requires FindIssue(t.issues, issue.title) == Some(n) && t.issues[n].title == issue.title
    ensures var last := WithIssue(t, n, issue);
      && IssueTitles(last.issues) == IssueTitles(t.issues) && IssueOf(last, issue.title) == Some(issue)
      && forall other :: other != issue.title ==> IssueOf(last, other) == IssueOf(t, other)
  {
    assert IssueTitles(WithIssue(t, n, issue).issues) == IssueTitles(t.issues);
  }

  ghost predicate DistinctIssues(c: Projection, packages: seq<WorkPackage>) {
    forall i, j :: 0 <= i < j < |packages| ==> c.issueTitle(packages[i]) != c.issueTitle(packages[j])
  }

  ghost predicate NamesIssue(c: Projection, packages: seq<WorkPackage>, title: string) {
    exists p :: p in packages && c.issueTitle(p) == title
  }

  ghost predicate PhasesDeclared(r: Roadmap, packages: seq<WorkPackage>) {
    forall p :: p in packages ==> PhaseById(r.phases, p.phase).Some?
  }

  function MilestoneOfPackage(r: Roadmap, c: Projection, p: WorkPackage): string
    requires PhaseById(r.phases, p.phase).Some?
  {
    c.milestoneTitle(PhaseById(r.phases, p.phase).value)
  }

  ghost predicate IssueIs(t0: Tracker, t: Tracker, r: Roadmap, c: Projection, p: WorkPackage) {
    PhaseById(r.phases, p.phase).Some? &&
    IssueOf(t, c.issueTitle(p)) == Some(AfterIssue(IssueOf(t0, c.issueTitle(p)), r, c, p, MilestoneOfPackage(r, c, p)))
  }

  ghost predicate IssuesAre(t0: Tracker, t: Tracker, r: Roadmap, c: Projection, packages: seq<WorkPackage>) {
    && (forall p :: p in packages ==> IssueIs(t0, t, r, c, p))
    && (forall title :: !NamesIssue(c, packages, title) ==> IssueOf(t, title) == IssueOf(t0, title))
  }

  /** What every issue operation of the packages names is there. */
  ghost predicate ReadyForIssues(t: Tracker, r: Roadmap, c: Projection, packages: seq<WorkPackage>) {
    && PhasesDeclared(r, packages)
    && forall p :: p in packages ==>
         LabelSet(r, p) <= t.labels && FindMilestone(t.milestones, MilestoneOfPackage(r, c, p)).Some?
  }

  lemma {:induction false} AllIssuesRun(t0: Tracker, t: Tracker, r: Roadmap, c: Projection, packages: seq<WorkPackage>)
      returns (last: Tracker)
    requires DistinctIssues(c, packages) && ReadyForIssues(t, r, c, packages) && t.issues == t0.issues
    ensures AllIssueOps(t0, r, c, packages).Some?
    ensures Runs(t, AllIssueOps(t0, r, c, packages).value, last)
    ensures IssuesEvolve(t, last) && IssuesAre(t0, last, r, c, packages)
  {
    if packages == [] {
      last := t;
    } else {
      var init, p := packages[..|packages| - 1], packages[|packages| - 1];
      ReadyForInit(t, r, c, packages);
      var mid := AllIssuesRun(t0, t, r, c, init);
      var phase := PhaseById(r.phases, p.phase).value;
      last := LastIssueRuns(t0, t, mid, r, c, packages, phase);
      RunsConcat(t, AllIssueOps(t0, r, c, init).value, mid, IssueOps(t0, r, c, p, phase), last);
      OneMoreIssue(t0, mid, last, r, c, packages);
    }
  }

  lemma ReadyForInit(t: Tracker, r: Roadmap, c: Projection, packages: seq<WorkPackage>)
    requires packages != [] && DistinctIssues(c, packages) && ReadyForIssues(t, r, c, packages)
    ensures var init := packages[..|packages| - 1]; DistinctIssues(c, init) && ReadyForIssues(t, r, c, init)
    ensures PhaseById(r.phases, packages[|packages| - 1].phase).Some?
  {
    var init, p := packages[..|packages| - 1], packages[|packages| - 1];
    assert packages == init + [p] && p in packages;
    assert forall q :: q in init ==> q in packages;
  }

  lemma LastIssueRuns(t0: Tracker, t: Tracker, mid: Tracker, r: Roadmap, c: Projection, packages: seq<WorkPackage>,
        phase: Phase)
      returns (last: Tracker)
    requires packages != [] && DistinctIssues(c, packages) && ReadyForIssues(t, r, c, packages) && t.issues == t0.issues
    requires IssuesEvolve(t, mid) && IssuesAre(t0, mid, r, c, packages[..|packages| - 1])
    requires PhaseById(r.phases, packages[|packages| - 1].phase) == Some(phase)
    ensures var p := packages[|packages| - 1];
      && Runs(mid, IssueOps(t0, r, c, p, phase), last) && IssuesEvolve(t, last) && IssueIs(t0, last, r, c, p)
      && forall title :: title != c.issueTitle(p) ==> IssueOf(last, title) == IssueOf(mid, title)
  {
    var init, p := packages[..|packages| - 1], packages[|packages| - 1];
    assert p in packages;
    assert !NamesIssue(c, init, c.issueTitle(p));
    assert IssueOf(mid, c.issueTitle(p)) == IssueOf(t, c.issueTitle(p));
    assert IssueOps(t, r, c, p, phase) == IssueOps(t0, r, c, p, phase);
    last := IssueRuns(t, mid, r, c, p, phase);
  }

  /** The issues of all but the last package are as they should be; the last one comes right without touching the
      others. */
  lemma OneMoreIssue(t0: Tracker, mid: Tracker, last: Tracker, r: Roadmap, c: Projection, packages: seq<WorkPackage>)
    requires packages != [] && DistinctIssues(c, packages) && IssuesAre(t0, mid, r, c, packages[..|packages| - 1])
    requires var p := packages[|packages| - 1];
      && IssueIs(t0, last, r, c, p)
      && forall title :: title != c.issueTitle(p) ==> IssueOf(last, title) == IssueOf(mid, title)
    ensures IssuesAre(t0, last, r, c, packages)
  {
    var init, p := packages[..|packages| - 1], packages[|packages| - 1];
    assert packages == init + [p] && p in packages;
    forall q | q in packages ensures IssueIs(t0, last, r, c, q) {
      if q != p {
        assert q in init && IssueIs(t0, mid, r, c, q);
        DistinctFromLast(c, packages, q);
      }
    }
    forall title | !NamesIssue(c, packages, title) ensures IssueOf(last, title) == IssueOf(t0, title) {
      assert !NamesIssue(c, init, title);
    }
  }

  lemma DistinctFromLast(c: Projection, packages: seq<WorkPackage>, q: WorkPackage)
    requires packages != [] && DistinctIssues(c, packages) && q in packages[..|packages| - 1]
    ensures c.issueTitle(q) != c.issueTitle(packages[|packages| - 1])
  {
  }

  // ----- one round ------------------------------------------------------------------------------

  /** Titles tell phases apart and packages apart, and every package names a declared phase. */
  ghost predicate Addressable(r: Roadmap, c: Projection) {
    DistinctMilestones(c, r.phases) && DistinctIssues(c, r.packages) && PhasesDeclared(r, r.packages)
  }

  /** A round by a person: plan, then apply with no context. */
  function Round(t: Tracker, r: Roadmap, c: Projection): Tracker {
    match Plan(t, r, c) case None => t case Some(ops) => Run(t, ops).0
  }

  /** A plan is refused as a whole exactly when some package names a phase nobody declares. */
  lemma {:induction false} IssuesPlannedIffDeclared(t: Tracker, r: Roadmap, c: Projection, packages: seq<WorkPackage>)
    ensures AllIssueOps(t, r, c, packages).Some? <==> PhasesDeclared(r, packages)
  {
    if packages != [] {
      IssuesPlannedIffDeclared(t, r, c, packages[..|packages| - 1]);
      assert packages == packages[..|packages| - 1] + [packages[|packages| - 1]];
    }
  }

  /** No operation of a plan is refused or fails, and the tracker it leaves is described title by title. */
  lemma RoundRuns(t: Tracker, r: Roadmap, c: Projection)
    requires Addressable(r, c)
    ensures Plan(t, r, c).Some? && Runs(t, Plan(t, r, c).value, Round(t, r, c))
    ensures Round(t, r, c).labels == t.labels + WantedLabels(r, r.packages)
    ensures MilestonesAre(t, Round(t, r, c), c, r.phases) && IssuesAre(t, Round(t, r, c), r, c, r.packages)
  {
    var wanted := WantedLabels(r, r.packages);
    var missing := SortedSet(wanted - t.labels);
    SortedSetCorrect(wanted - t.labels);
    var t1 := AllMilestonesRun(t, c, r.phases);
    var t2 := LabelsRun(t1, missing);
    assert t2.labels == t.labels + wanted;
    RunsConcat(t, AllMilestoneOps(t, c, r.phases), t1, LabelOps(missing), t2);
    forall p | p in r.packages ensures LabelSet(r, p) <= t2.labels
      && FindMilestone(t2.milestones, MilestoneOfPackage(r, c, p)).Some? {
      var phase := PhaseById(r.phases, p.phase).value;
      assert MilestoneIs(t, t1, c, phase);
      assert forall l :: l in LabelSet(r, p) ==> l in wanted;
    }
    var t3 := AllIssuesRun(t, t2, r, c, r.packages);
    RunsConcat(t, AllMilestoneOps(t, c, r.phases) + LabelOps(missing), t2, AllIssueOps(t, r, c, r.packages).value, t3);
    assert MilestonesAre(t, t3, c, r.phases) by {
      assert t3.milestones == t1.milestones;
      forall p | p in r.phases ensures MilestoneIs(t, t3, c, p) { assert MilestoneIs(t, t1, c, p); }
      forall title | !NamesMilestone(c, r.phases, title) ensures DescriptionOf(t3, title) == DescriptionOf(t, title) {
        assert DescriptionOf(t1, title) == DescriptionOf(t, title);
      }
    }
  }

  // ----- the empty plan --------------------------------------------------------------------------

  ghost predicate MilestoneSettled(t: Tracker, c: Projection, p: Phase) {
    DescriptionOf(t, c.milestoneTitle(p)).Some?
      && !Differs(DescriptionOf(t, c.milestoneTitle(p)).value, c.milestoneBody(p))
  }

  ghost predicate IssueSettled(existing: Option<Issue>, r: Roadmap, c: Projection, p: WorkPackage) {
    && existing.Some? && !NeedsLabels(existing.value, LabelsFor(r, p))
    && !Differs(existing.value.body, c.issueBody(p)) && !(p.status == Done && existing.value.open)
  }

  lemma {:induction false} NoMilestoneOps(t: Tracker, c: Projection, phases: seq<Phase>)
    ensures AllMilestoneOps(t, c, phases) == [] <==> forall p :: p in phases ==> MilestoneSettled(t, c, p)
  {
    if phases != [] {
      var init, last := phases[..|phases| - 1], phases[|phases| - 1];
      NoMilestoneOps(t, c, init);
      assert phases == init + [last];
      NoMilestoneOp(t, c, last);
    }
  }

  lemma NoMilestoneOp(t: Tracker, c: Projection, p: Phase)
    ensures MilestoneOps(t, c, p) == [] <==> MilestoneSettled(t, c, p)
  {
  }

  lemma NoIssueOps(t: Tracker, r: Roadmap, c: Projection, p: WorkPackage, phase: Phase)
    ensures IssueOps(t, r, c, p, phase) == [] <==> IssueSettled(IssueOf(t, c.issueTitle(p)), r, c, p)
  {
  }

  lemma {:induction false} NoIssueOpsAtAll(t: Tracker, r: Roadmap, c: Projection, packages: seq<WorkPackage>)
    requires PhasesDeclared(r, packages)
    ensures AllIssueOps(t, r, c, packages) == Some([]) <==>
      forall p :: p in packages ==> IssueSettled(IssueOf(t, c.issueTitle(p)), r, c, p)
  {
    if packages != [] {
      var init, last := packages[..|packages| - 1], packages[|packages| - 1];
      NoIssueOpsAtAll(t, r, c, init);
      IssuesPlannedIffDeclared(t, r, c, packages);
      IssuesPlannedIffDeclared(t, r, c, init);
      assert packages == init + [last];
      NoIssueOps(t, r, c, last, PhaseById(r.phases, last.phase).value);
    }
  }

  lemma NoLabelOps(missing: set<string>)
    ensures LabelOps(SortedSet(missing)) == [] <==> missing == {}
  {
    SortedSetCorrect(missing);
    if l :| l in missing {
      assert l in SortedSet(missing);
    }
  }

  lemma SumEmpty(a: seq<Operation>, b: seq<Operation>, c: seq<Operation>)
    ensures a + b + c == [] <==> a == [] && b == [] && c == []
  {
  }

  /** An empty plan means milestones, labels and issues all carry what the roadmap says. */
  lemma PlanEmptyIffSettled(t: Tracker, r: Roadmap, c: Projection)
    requires PhasesDeclared(r, r.packages)
    ensures Plan(t, r, c) == Some([]) <==>
      && (forall p :: p in r.phases ==> MilestoneSettled(t, c, p))
      && WantedLabels(r, r.packages) <= t.labels
      && (forall p :: p in r.packages ==> IssueSettled(IssueOf(t, c.issueTitle(p)), r, c, p))
  {
    var missing := WantedLabels(r, r.packages) - t.labels;
    EmptyDifference(WantedLabels(r, r.packages), t.labels);
    NoMilestoneOps(t, c, r.phases);
    NoLabelOps(missing);
    NoIssueOpsAtAll(t, r, c, r.packages);
    IssuesPlannedIffDeclared(t, r, c, r.packages);
    SumEmpty(AllMilestoneOps(t, c, r.phases), LabelOps(SortedSet(missing)), AllIssueOps(t, r, c, r.packages).value);
  }

  // ----- convergence ------------------------------------------------------------------------------

  /** The issue a package already has carries no taxonomy label the package no longer earns. */
  ghost predicate NoStaleLabel(t: Tracker, r: Roadmap, c: Projection, p: WorkPackage) {
    IssueOf(t, c.issueTitle(p)).Some? ==> Taxonomy(IssueOf(t, c.issueTitle(p)).value.labels) <= LabelSet(r, p)
  }

  ghost predicate CanSettle(t: Tracker, r: Roadmap, c: Projection) {
    forall p :: p in r.packages ==> p.status != Reordered && NoStaleLabel(t, r, c, p)
  }

  /** Labels are compared through the taxonomy prefixes, so this is when the comparison comes out equal. */
  lemma NeedsLabelsMeans(issue: Issue, r: Roadmap, p: WorkPackage)
    ensures NeedsLabels(issue, LabelsFor(r, p)) <==> Taxonomy(issue.labels) != LabelSet(r, p)
  {
    SortedSetCorrect(Taxonomy(issue.labels));
    SortedSetCorrect(LabelSet(r, p));
    if Taxonomy(issue.labels) != LabelSet(r, p) && !NeedsLabels(issue, LabelsFor(r, p)) {
      assert forall l :: l in Taxonomy(issue.labels) <==> l in LabelSet(r, p);
    }
  }

  lemma LabelsAfterRound(existing: Option<Issue>, r: Roadmap, c: Projection, p: WorkPackage, milestone: string)
    ensures var issue := AfterIssue(existing, r, c, p, milestone);
      (Taxonomy(issue.labels) == LabelSet(r, p)) <==>
      (p.status != Reordered && (existing.Some? ==> Taxonomy(existing.value.labels) <= LabelSet(r, p)))
  {
    OnlyMovedIsOutside(r, p);
    var labels, issue := LabelSet(r, p), AfterIssue(existing, r, c, p, milestone);
    if existing.Some? {
      NeedsLabelsMeans(existing.value, r, p);
      TaxonomyOfUnion(existing.value.labels, labels);
    }
    if p.status == Reordered {
      var l :| l in labels && !IsTaxonomy(l);
      assert l !in Taxonomy(issue.labels);
    } else {
      assert Taxonomy(labels) == labels;
    }
  }

  lemma TaxonomyOfUnion(a: set<string>, b: set<string>)
    ensures Taxonomy(a + b) == Taxonomy(a) + Taxonomy(b)
  {
  }

  lemma SettledAfterTwo(existing: Option<Issue>, r: Roadmap, c: Projection, p: WorkPackage, m: string)
    ensures var twice := AfterIssue(Some(AfterIssue(existing, r, c, p, m)), r, c, p, m);
      IssueSettled(Some(twice), r, c, p) <==>
      (p.status != Reordered && (existing.Some? ==> Taxonomy(existing.value.labels) <= LabelSet(r, p)))
  {
    var once := AfterIssue(existing, r, c, p, m);
    var twice := AfterIssue(Some(once), r, c, p, m);
    LabelsAfterRound(existing, r, c, p, m);
    LabelsAfterRound(Some(once), r, c, p, m);
    NeedsLabelsMeans(twice, r, p);
    StaleStays(existing, r, c, p, m);
  }

  /** A round neither removes a stale label nor adds one. */
  lemma StaleStays(existing: Option<Issue>, r: Roadmap, c: Projection, p: WorkPackage, m: string)
    ensures Taxonomy(AfterIssue(existing, r, c, p, m).labels) <= LabelSet(r, p) <==>
      (existing.Some? ==> Taxonomy(existing.value.labels) <= LabelSet(r, p))
  {
    if existing.Some? {
      TaxonomyOfUnion(existing.value.labels, LabelSet(r, p));
    }
  }

  lemma CanSettleStays(t: Tracker, r: Roadmap, c: Projection)
    requires Addressable(r, c)
    ensures CanSettle(Round(t, r, c), r, c) <==> CanSettle(t, r, c)
  {
    RoundRuns(t, r, c);
    forall p | p in r.packages ensures NoStaleLabel(Round(t, r, c), r, c, p) <==> NoStaleLabel(t, r, c, p) {
      assert IssueIs(t, Round(t, r, c), r, c, p);
      StaleStays(IssueOf(t, c.issueTitle(p)), r, c, p, MilestoneOfPackage(r, c, p));
    }
  }

  lemma MilestonesSettle(t: Tracker, r: Roadmap, c: Projection, p: Phase)
    requires Addressable(r, c) && p in r.phases
    ensures MilestoneSettled(Round(t, r, c), c, p)
  {
    RoundRuns(t, r, c);
    assert MilestoneIs(t, Round(t, r, c), c, p);
  }

  lemma IssueSettles(t: Tracker, r: Roadmap, c: Projection, p: WorkPackage)
    requires Addressable(r, c) && p in r.packages
    ensures IssueSettled(IssueOf(Round(Round(t, r, c), r, c), c.issueTitle(p)), r, c, p) <==>
      p.status != Reordered && NoStaleLabel(t, r, c, p)
  {
    var t1 := Round(t, r, c);
    RoundRuns(t, r, c);
    RoundRuns(t1, r, c);
    assert IssueIs(t, t1, r, c, p) && IssueIs(t1, Round(t1, r, c), r, c, p);
    SettledAfterTwo(IssueOf(t, c.issueTitle(p)), r, c, p, MilestoneOfPackage(r, c, p));
  }

  /** From any tracker, the plan after two rounds is empty exactly when no package is reordered and no label is
      stale. */
  lemma TwoRoundsConverge(t: Tracker, r: Roadmap, c: Projection)
    requires Addressable(r, c)
    ensures Plan(Round(Round(t, r, c), r, c), r, c) == Some([]) <==> CanSettle(t, r, c)
  {
    var t2 := Round(Round(t, r, c), r, c);
    PlanEmptyIffSettled(t2, r, c);
    assert WantedLabels(r, r.packages) <= t2.labels by {
      RoundRuns(Round(t, r, c), r, c);
    }
    forall p | p in r.phases ensures MilestoneSettled(t2, c, p) {
      MilestonesSettle(Round(t, r, c), r, c, p);
    }
    forall p | p in r.packages
      ensures IssueSettled(IssueOf(t2, c.issueTitle(p)), r, c, p) <==> p.status != Reordered && NoStaleLabel(t, r, c, p)
    {
      IssueSettles(t, r, c, p);
    }
  }

  function Rounds(t: Tracker, r: Roadmap, c: Projection, n: nat): Tracker
    decreases n
  {
    if n == 0 then t else Rounds(Round(t, r, c), r, c, n - 1)
  }

  /** More rounds change nothing about the answer: two settle the tracker or no number does. */
  lemma {:induction false} ConvergesInTwoOrNever(t: Tracker, r: Roadmap, c: Projection, n: nat)
    requires Addressable(r, c) && n >= 2
    ensures Plan(Rounds(t, r, c, n), r, c) == Some([]) <==> CanSettle(t, r, c)
    decreases n
  {
    var t1 := Round(t, r, c);
    if n == 2 {
      TwoRoundsConverge(t, r, c);
      assert Rounds(t, r, c, 2) == Rounds(t1, r, c, 1) == Rounds(Round(t1, r, c), r, c, 0);
    } else {
      ConvergesInTwoOrNever(t1, r, c, n - 1);
      CanSettleStays(t, r, c);
    }
  }

  // ----- unattended contexts ------------------------------------------------------------------------

  /** A named context leaves every issue as it was; one the configuration does not allow changes nothing at all. */
  lemma {:induction false} ContextsNeverTouchIssues(t: Tracker, ops: seq<Operation>, context: string,
        allowed: seq<string>)
    ensures Apply(t, ops, Some(context), allowed).0.issues == t.issues
    ensures context !in allowed ==> Apply(t, ops, Some(context), allowed) == (t, ops)
    ensures forall op :: op in ops && KindOf(op) == IssueKind ==> op in Apply(t, ops, Some(context), allowed).1
    decreases |ops|
  {
    if ops != [] {
      var next := if Permitted(Some(context), allowed, ops[0]) && Perform(t, ops[0]).Some? then Perform(t, ops[0]).value
        else t;
      ContextsNeverTouchIssues(next, ops[1..], context, allowed);
      assert ops == [ops[0]] + ops[1..];
    }
  }

  predicate OfIssues(op: Operation) {
    op.OpenIssue? || op.AddLabels? || op.RewriteBody? || op.CloseIssue?
  }

  /** Short of the issues an allowed context may do all that a person may, with the same outcome. */
  lemma {:induction false} AllowedContextActsAlike(t: Tracker, ops: seq<Operation>, context: string,
        allowed: seq<string>)
    requires context in allowed && forall op :: op in ops ==> !OfIssues(op)
    ensures Apply(t, ops, Some(context), allowed) == Apply(t, ops, None, [])
    decreases |ops|
  {
    if ops != [] {
      assert ops[0] in ops;
      var next := if Perform(t, ops[0]).Some? then Perform(t, ops[0]).value else t;
      AllowedContextActsAlike(next, ops[1..], context, allowed);
    }
  }

  lemma {:induction false} NamedContextRefusesIssues(t: Tracker, ops: seq<Operation>, context: string,
        allowed: seq<string>)
    requires forall op :: op in ops ==> OfIssues(op)
    ensures Apply(t, ops, Some(context), allowed) == (t, ops)
    decreases |ops|
  {
    if ops != [] {
      assert ops[0] in ops && [ops[0]] + ops[1..] == ops;
      NamedContextRefusesIssues(t, ops[1..], context, allowed);
    }
  }

  lemma {:induction false} IssueOperationsKeepTheRest(t: Tracker, ops: seq<Operation>)
    requires forall op :: op in ops ==> OfIssues(op)
    ensures var last := Apply(t, ops, None, []).0; last.milestones == t.milestones && last.labels == t.labels
    decreases |ops|
  {
    if ops != [] {
      assert ops[0] in ops;
      IssueOperationsKeepTheRest(if Perform(t, ops[0]).Some? then Perform(t, ops[0]).value else t, ops[1..]);
    }
  }

  lemma {:induction false} ApplyConcat(t: Tracker, a: seq<Operation>, b: seq<Operation>, context: Option<string>,
        allowed: seq<string>)
    ensures var first := Apply(t, a, context, allowed);
      Apply(t, a + b, context, allowed) == After(first.1, Apply(first.0, b, context, allowed))
    decreases |a|
  {
    if a == [] {
      assert a + b == b && [] + Apply(t, b, context, allowed).1 == Apply(t, b, context, allowed).1;
    } else {
      assert (a + b)[1..] == a[1..] + b;
      var runs := Permitted(context, allowed, a[0]) && Perform(t, a[0]).Some?;
      var next := if runs then Perform(t, a[0]).value else t;
      ApplyConcat(next, a[1..], b, context, allowed);
      if !runs {
        var first := Apply(t, a[1..], context, allowed);
        AfterCons(a[0], first.1, Apply(first.0, b, context, allowed));
      }
    }
  }

  lemma AfterCons(op: Operation, refused: seq<Operation>, rest: (Tracker, seq<Operation>))
    ensures After([op] + refused, rest) == (rest.0, [op] + After(refused, rest).1)
  {
    assert [op] + refused + rest.1 == [op] + (refused + rest.1);
  }

  lemma {:induction false} MilestoneOpsAre(t: Tracker, c: Projection, phases: seq<Phase>)
    ensures forall op :: op in AllMilestoneOps(t, c, phases) ==> op.CreateMilestone? || op.DescribeMilestone?
  {
    if phases != [] { MilestoneOpsAre(t, c, phases[..|phases| - 1]); }
  }

  lemma {:induction false} IssueOpsAre(t: Tracker, r: Roadmap, c: Projection, packages: seq<WorkPackage>)
    ensures var ops := AllIssueOps(t, r, c, packages); ops.Some? ==> forall op :: op in ops.value ==> OfIssues(op)
  {
    if packages != [] { IssueOpsAre(t, r, c, packages[..|packages| - 1]); }
  }

  /** A round by an allowed context: milestones and labels are those a person's round leaves, the issues are as they
      were, and just the plan's operations on issues are refused. */
  lemma AllowedRound(t: Tracker, r: Roadmap, c: Projection, context: string, allowed: seq<string>)
    requires Addressable(r, c) && context in allowed
    ensures Plan(t, r, c).Some? && AllIssueOps(t, r, c, r.packages).Some?
    ensures var done := Apply(t, Plan(t, r, c).value, Some(context), allowed);
      && done.0.milestones == Round(t, r, c).milestones && done.0.labels == Round(t, r, c).labels
      && done.0.issues == t.issues && done.1 == AllIssueOps(t, r, c, r.packages).value
  {
    RoundRuns(t, r, c);
    var rest, ops := PlanInParts(t, r, c);
    AllowedRunsTheRest(t, rest, ops, Round(t, r, c), context, allowed);
  }

  lemma PlanInParts(t: Tracker, r: Roadmap, c: Projection) returns (rest: seq<Operation>, ops: seq<Operation>)
    requires Plan(t, r, c).Some?
    ensures AllIssueOps(t, r, c, r.packages) == Some(ops) && Plan(t, r, c) == Some(rest + ops)
    ensures (forall op :: op in rest ==> !OfIssues(op)) && forall op :: op in ops ==> OfIssues(op)
  {
    rest, ops := AllMilestoneOps(t, c, r.phases) + MissingLabels(t, r), AllIssueOps(t, r, c, r.packages).value;
    MilestoneOpsAre(t, c, r.phases);
    IssueOpsAre(t, r, c, r.packages);
  }

  lemma AllowedRunsTheRest(t: Tracker, rest: seq<Operation>, ops: seq<Operation>, last: Tracker, context: string,
        allowed: seq<string>)
    requires context in allowed && Runs(t, rest + ops, last)
    requires (forall op :: op in rest ==> !OfIssues(op)) && forall op :: op in ops ==> OfIssues(op)
    ensures var done := Apply(t, rest + ops, Some(context), allowed);
      && done.0.milestones == last.milestones && done.0.labels == last.labels
      && done.0.issues == t.issues && done.1 == ops
  {
    var before := Apply(t, rest, None, []);
    ApplyConcat(t, rest, ops, None, []);
    ApplyConcat(t, rest, ops, Some(context), allowed);
    AllowedContextActsAlike(t, rest, context, allowed);
    IssueOperationsKeepTheRest(before.0, ops);
    NamedContextRefusesIssues(before.0, ops, context, allowed);
    ContextsNeverTouchIssues(t, rest, context, allowed);
    assert before.1 == [] && [] + ops == ops;
  }

  // ----- plans that end early --------------------------------------------------------------------------

  /** A read that fails ends the plan there: before the milestones are known it is empty, before the labels it holds
      the plan's operations on milestones, before the issues those on milestones and labels; nothing is called
      unexplained. */
  lemma EarlyEndsArePrefixes(t: Tracker, r: Roadmap, c: Projection, reach: Reach)
    requires PlanWithin(t, r, c, Everything).Some?
    ensures var full, early := PlanWithin(t, r, c, Everything).value, PlanWithin(t, r, c, reach);
      && early.Some? && early.value.operations <= full.operations
      && (early.value.skipped <==> reach != Everything)
      && (reach != Everything ==> early.value.unexplained == [])
      && var left := full.operations[|early.value.operations|..];
         match reach
         case Everything => left == []
         case NoIssues => forall op :: op in full.operations ==> (op in left <==> OfIssues(op))
         case NoLabels => forall op :: op in full.operations ==> (op in left <==> OfIssues(op) || op.CreateLabel?)
         case _ => early.value.operations == []
  {
    MilestoneOpsAre(t, c, r.phases);
    IssueOpsAre(t, r, c, r.packages);
    LeftByKind(AllMilestoneOps(t, c, r.phases), MissingLabels(t, r), AllIssueOps(t, r, c, r.packages).value);
  }

  lemma LeftByKind(milestones: seq<Operation>, labels: seq<Operation>, ops: seq<Operation>)
    requires forall op :: op in milestones ==> op.CreateMilestone? || op.DescribeMilestone?
    requires (forall op :: op in labels ==> op.CreateLabel?) && forall op :: op in ops ==> OfIssues(op)
    ensures var full := milestones + labels + ops;
      && milestones <= full && milestones + labels <= full && full[|full|..] == []
      && (forall op :: op in full ==> (op in full[|milestones|..] <==> OfIssues(op) || op.CreateLabel?))
      && (forall op :: op in full ==> (op in full[|milestones + labels|..] <==> OfIssues(op)))
  {
    var full := milestones + labels + ops;
    assert full[|milestones|..] == labels + ops && full[|milestones + labels|..] == ops;
  }

  /** Only a plan that gets as far as the issues fails for want of a phase, and then exactly if a package names none. */
  lemma EarlyEndsNeverFail(t: Tracker, r: Roadmap, c: Projection, reach: Reach)
    ensures PlanWithin(t, r, c, reach).None? <==>
      reach == Everything && exists p :: p in r.packages && forall q :: q in r.phases ==> q.id != p.phase
  {
    IssuesPlannedIffDeclared(t, r, c, r.packages);
  }

  // ----- what no plan does ---------------------------------------------------------------------------

  /** Nothing is deleted: what was there is still there, in its place, with at least its labels, and what was closed
      stays closed. */
  ghost predicate OnlyAdds(t: Tracker, u: Tracker) {
    && t.labels <= u.labels
    && MilestoneTitles(t.milestones) <= MilestoneTitles(u.milestones)
    && IssueTitles(t.issues) <= IssueTitles(u.issues)
    && |t.issues| <= |u.issues|
    && forall n :: 0 <= n < |t.issues| ==> IssueKept(t.issues[n], u.issues[n])
  }

  predicate IssueKept(before: Issue, after: Issue) {
    before.labels <= after.labels && before.milestone == after.milestone && (after.open ==> before.open)
  }

  lemma PerformOnlyAdds(t: Tracker, op: Operation)
    requires Perform(t, op).Some?
    ensures OnlyAdds(t, Perform(t, op).value)
  {
    var u := Perform(t, op).value;
    match op
    case CreateMilestone(title, _) => assert MilestoneTitles(u.milestones) == MilestoneTitles(t.milestones) + [title];
    case DescribeMilestone(_, _) => assert MilestoneTitles(u.milestones) == MilestoneTitles(t.milestones);
    case CreateLabel(_) =>
    case OpenIssue(title, _, _, _) => assert IssueTitles(u.issues) == IssueTitles(t.issues) + [title];
    case AddLabels(_, _) => assert IssueTitles(u.issues) == IssueTitles(t.issues);
    case RewriteBody(_, _) => assert IssueTitles(u.issues) == IssueTitles(t.issues);
    case CloseIssue(_) => assert IssueTitles(u.issues) == IssueTitles(t.issues);
  }

  lemma AddsOnAdds(t: Tracker, u: Tracker, v: Tracker)
    requires OnlyAdds(t, u) && OnlyAdds(u, v)
    ensures OnlyAdds(t, v)
  {
    forall n | 0 <= n < |t.issues| ensures IssueKept(t.issues[n], v.issues[n]) {
      assert IssueKept(t.issues[n], u.issues[n]) && IssueKept(u.issues[n], v.issues[n]);
    }
  }

  /** Whatever is applied, by whomever, nothing on the tracker is deleted, unlabelled or reopened. */
  lemma {:induction false} NothingIsDeleted(t: Tracker, ops: seq<Operation>, context: Option<string>,
        allowed: seq<string>)
    ensures OnlyAdds(t, Apply(t, ops, context, allowed).0)
    decreases |ops|
  {
    if ops != [] {
      if !Permitted(context, allowed, ops[0]) || Perform(t, ops[0]).None? {
        NothingIsDeleted(t, ops[1..], context, allowed);
      } else {
        var u := Perform(t, ops[0]).value;
        PerformOnlyAdds(t, ops[0]);
        NothingIsDeleted(u, ops[1..], context, allowed);
        AddsOnAdds(t, u, Apply(u, ops[1..], context, allowed).0);
      }
    }
  }

  lemma ExplainedStays(t: Tracker, r: Roadmap, c: Projection, title: string)
    requires Addressable(r, c)
    ensures Explained(Round(t, r, c), r, c, title) <==> Explained(t, r, c, title)
  {
    RoundRuns(t, r, c);
    if title !in PlannedTitles(c, r.packages) {
      assert !NamesIssue(c, r.packages, title);
      assert IssueOf(Round(t, r, c), title) == IssueOf(t, title);
    }
  }

  /** An issue no package explains is reported round after round: rounds neither remove nor add one. */
  lemma UnexplainedStays(t: Tracker, r: Roadmap, c: Projection, title: string)
    requires Addressable(r, c)
    ensures title in Unexplained(t, r, c) <==>
      && IssueOf(t, title).Some? && (exists rest :: "req:" + rest in IssueOf(t, title).value.labels)
      && forall p :: p in r.packages ==> c.issueTitle(p) != title
    ensures title in Unexplained(Round(t, r, c), r, c) <==> title in Unexplained(t, r, c)
  {
    ExplainedStays(t, r, c, title);
    if IssueOf(t, title).Some? { RequirementIs(IssueOf(t, title).value.labels); }
    SortedSetCorrect(Elems(IssueTitles(t.issues)));
    SortedSetCorrect(Elems(IssueTitles(Round(t, r, c).issues)));
  }
}
