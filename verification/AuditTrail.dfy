/** Any number of sessions over one audit log and one clock: what every run of them keeps. */
module AuditTrail {
  import opened Options
  import opened Decimals
  import opened Json
  import opened Envelope
  import opened EventLog
  import opened Producer
  import opened Autonomy

  /** The clock, the shared log with the next number it gives, and what each session holds. */
  datatype System = System(now: nat, seqNo: nat, log: seq<Entry>, locals: map<string, Local>)

  datatype Action = Advance(ticks: nat) | Act(session: string, op: Op)

  type Deployment = map<string, Config>

  /** Sessions are told apart by their ids. */
  ghost predicate Deployed(d: Deployment) {
    forall sid :: sid in d ==> d[sid].sessionId == sid
  }

  function Start(d: Deployment): System {
    System(0, 0, [], map sid | sid in d :: Idle())
  }

  function Take(d: Deployment, sys: System, a: Action): System {
    match a
    case Advance(ticks) => sys.(now := sys.now + ticks)
    case Act(sid, op) =>
      if sid !in d || sid !in sys.locals then sys
      else
        var r := Do(d[sid], sys.locals[sid], sys.now, sys.seqNo, op);
        System(sys.now, sys.seqNo + |r.emitted|, sys.log + r.emitted, sys.locals[sid := r.local])
  }

  function Run(d: Deployment, sys: System, actions: seq<Action>): System {
    if actions == [] then sys else Take(d, Run(d, sys, actions[..|actions| - 1]), actions[|actions| - 1])
  }

  /** A grant that reaches approve has passed its own validators. */
  ghost predicate WellTyped(actions: seq<Action>) {
    forall a :: a in actions && a.Act? && a.op.Approve? ==> Constructible(a.op.grant)
  }

  // ----- reading authority back from the log ---------------------------------------------

  function Replayed(before: Option<Decision>, e: Entry, sid: string): Option<Decision> {
    match e.payload
    case Decided(session, grant, _, _) => if session == sid && grant.Some? then grant else before
    case Expired(session, _, _) => if session == sid then None else before
    case _ => before
  }

  /** The grant the log shows as live for a session, from its decided and expired events alone. */
  function Replay(log: seq<Entry>, sid: string): Option<Decision> {
    if log == [] then None else Replayed(Replay(log[..|log| - 1], sid), log[|log| - 1], sid)
  }

  lemma ReplayOne(log: seq<Entry>, e: Entry, sid: string)
    ensures Replay(log + [e], sid) == Replayed(Replay(log, sid), e, sid)
  {
    assert (log + [e])[..|log|] == log;
  }

  lemma ReplayTwo(log: seq<Entry>, e: Entry, f: Entry, sid: string)
    ensures Replay(log + [e, f], sid) == Replayed(Replayed(Replay(log, sid), e, sid), f, sid)
  {
    assert log + [e, f] == (log + [e]) + [f];
    calc {
      Replay((log + [e]) + [f], sid);
      { ReplayOne(log + [e], f, sid); }
      Replayed(Replay(log + [e], sid), f, sid);
      { ReplayOne(log, e, sid); }
      Replayed(Replayed(Replay(log, sid), e, sid), f, sid);
    }
  }

  function Live(l: Local): Option<Decision> {
    match l.grant case None => None case Some(g) => Some(DecisionOf(g))
  }

  // ----- what every call keeps --------------------------------------------------------------

  /** The limits a live grant is under. */
  ghost predicate Bounded(c: Config, l: Local) {
    match l.grant
    case None => l.questions == 0
    case Some(g) =>
      Constructible(g) && g.sessionId == c.sessionId && l.questions < g.questions <= c.maxQuestions
      && (g.tier == L3 ==> c.allowWriteTools)
  }

  /** A decided event grants no more than the deployment allows, counted from the moment it was taken. */
  ghost predicate WithinLimits(c: Config, e: Entry) {
    e.payload.Decided? && e.payload.grant.Some? ==>
      var g := e.payload.grant.value;
      && g.expiresAt <= e.simTs + c.maxSimSeconds * c.tickHz && 1 <= g.questions <= c.maxQuestions
      && (g.tier == L3 ==> c.allowWriteTools) && g.approver.human && e.payload.approver == g.approver
  }

  /** A change above L1 names the authority that the log before it shows, which covers the tool. */
  ghost predicate Backed(live: Option<Decision>, e: Entry) {
    e.payload.Changed? && e.payload.tier != L1 ==>
      && live.Some? && e.payload.authority ==
        Some(Authority(live.value.grantId, live.value.approver, live.value.decisionId))
      && e.payload.tier == live.value.tier && e.payload.change.tool in live.value.scope
      && live.value.approver.human && e.simTs < live.value.expiresAt
  }

  function SessionOf(p: Payload): string {
    match p
    case Requested(s, _, _, _, _, _, _) => s
    case Decided(s, _, _, _) => s
    case Expired(s, _, _) => s
    case Changed(s, _, _, _) => s
  }

  /** One call by the session sid, starting from a log that replays to what it holds. */
  lemma DoKeeps(c: Config, l: Local, now: nat, no: nat, op: Op, log: seq<Entry>)
    requires Bounded(c, l) && Live(l) == Replay(log, c.sessionId)
    requires op.Approve? ==> Constructible(op.grant)
    ensures var r := Do(c, l, now, no, op);
      Bounded(c, r.local) && Live(r.local) == Replay(log + r.emitted, c.sessionId) && |r.emitted| <= 2
  {
    DoBounded(c, l, now, no, op);
    DoReplays(c, l, now, no, op);
    ReplayMore(c, log, Do(c, l, now, no, op).emitted);
  }

  /** What one call's events, two at most, make of the grant before it. */
  function ReplayedAll(before: Option<Decision>, more: seq<Entry>, sid: string): Option<Decision>
    requires |more| <= 2
  {
    if more == [] then before
    else if |more| == 1 then Replayed(before, more[0], sid)
    else Replayed(Replayed(before, more[0], sid), more[1], sid)
  }

  lemma DoBounded(c: Config, l: Local, now: nat, no: nat, op: Op)
    requires Bounded(c, l) && (op.Approve? ==> Constructible(op.grant))
    ensures Bounded(c, Do(c, l, now, no, op).local) && |Do(c, l, now, no, op).emitted| <= 2
  {
  }

  lemma DoReplays(c: Config, l: Local, now: nat, no: nat, op: Op)
    requires Bounded(c, l) && |Do(c, l, now, no, op).emitted| <= 2
    ensures Live(Do(c, l, now, no, op).local) == ReplayedAll(Live(l), Do(c, l, now, no, op).emitted, c.sessionId)
  {
  }

  lemma ReplayMore(c: Config, log: seq<Entry>, more: seq<Entry>)
    requires |more| <= 2
    ensures Replay(log + more, c.sessionId) == ReplayedAll(Replay(log, c.sessionId), more, c.sessionId)
  {
    if more == [] {
      assert log + [] == log;
    } else if |more| == 1 {
      assert more == [more[0]];
      ReplayOne(log, more[0], c.sessionId);
    } else {
      assert more == [more[0], more[1]];
      ReplayTwo(log, more[0], more[1], c.sessionId);
    }
  }

  /** Everything a call appends is its session's own, at the present instant, within limits and backed. */
  lemma DoEmits(c: Config, l: Local, now: nat, no: nat, op: Op, log: seq<Entry>, k: nat)
    requires Bounded(c, l) && Live(l) == Replay(log, c.sessionId)
    requires op.Approve? ==> Constructible(op.grant)
    requires k < |Do(c, l, now, no, op).emitted|
    ensures var r := Do(c, l, now, no, op); var e := r.emitted[k];
      && SessionOf(e.payload) == c.sessionId && e.simTs == now && WithinLimits(c, e)
      && Backed(Replay(log + r.emitted[..k], c.sessionId), e)
  {
    var r := Do(c, l, now, no, op);
    DoStamps(c, l, now, no, op, k);
    DoBacked(c, l, now, no, op, k);
    if k == 0 {
      assert log + r.emitted[..0] == log;
    } else {
      DoBounded(c, l, now, no, op);
      assert r.emitted[..1] == [r.emitted[0]];
      ReplayOne(log, r.emitted[0], c.sessionId);
    }
  }

  lemma DoStamps(c: Config, l: Local, now: nat, no: nat, op: Op, k: nat)
    requires Bounded(c, l) && (op.Approve? ==> Constructible(op.grant)) && k < |Do(c, l, now, no, op).emitted|
    ensures var e := Do(c, l, now, no, op).emitted[k];
      SessionOf(e.payload) == c.sessionId && e.simTs == now && WithinLimits(c, e)
  {
  }

  /** The second event of a call finds what the first one left. */
  lemma DoBacked(c: Config, l: Local, now: nat, no: nat, op: Op, k: nat)
    requires Bounded(c, l) && (op.Approve? ==> Constructible(op.grant)) && k < |Do(c, l, now, no, op).emitted|
    ensures var es := Do(c, l, now, no, op).emitted;
      Backed(if k == 0 then Live(l) else Replayed(Live(l), es[0], c.sessionId), es[k])
  {
  }

  lemma {:induction false} OthersUnmoved(log: seq<Entry>, more: seq<Entry>, sid: string)
    requires forall e :: e in more ==> SessionOf(e.payload) != sid
    ensures Replay(log + more, sid) == Replay(log, sid)
  {
    if more == [] {
      assert log + more == log;
    } else {
      var n := |more| - 1;
      OthersUnmoved(log, more[..n], sid);
      assert log + more == (log + more[..n]) + [more[n]];
      assert more[n] in more;
      ReplayOne(log + more[..n], more[n], sid);
    }
  }

  // ----- invariants of a run ------------------------------------------------------------------

  /** The trail reconstructs each session's authority, and each authority is within its limits. */
  ghost predicate SessionsHold(d: Deployment, sys: System) {
    && sys.locals.Keys == d.Keys
    && forall sid :: sid in d ==> Bounded(d[sid], sys.locals[sid]) && Live(sys.locals[sid]) == Replay(sys.log, sid)
  }

  ghost predicate EntryHolds(d: Deployment, log: seq<Entry>, i: nat)
    requires i < |log|
  {
    var sid := SessionOf(log[i].payload);
    sid in d && WithinLimits(d[sid], log[i]) && Backed(Replay(log[..i], sid), log[i])
  }

  ghost predicate LogHolds(d: Deployment, sys: System) {
    && (forall i :: 0 <= i < |sys.log| ==> EntryHolds(d, sys.log, i) && sys.log[i].simTs <= sys.now)
    && (forall i, j :: 0 <= i < j < |sys.log| ==> sys.log[i].simTs <= sys.log[j].simTs)
  }

  lemma TakeKeepsSessions(d: Deployment, sys: System, a: Action)
    requires Deployed(d) && SessionsHold(d, sys)
    requires a.Act? && a.op.Approve? ==> Constructible(a.op.grant)
    ensures SessionsHold(d, Take(d, sys, a))
  {
    if a.Act? && a.session in d {
      var next := Take(d, sys, a);
      var r := Do(d[a.session], sys.locals[a.session], sys.now, sys.seqNo, a.op);
      DoKeeps(d[a.session], sys.locals[a.session], sys.now, sys.seqNo, a.op, sys.log);
      forall sid | sid in d ensures Bounded(d[sid], next.locals[sid])
        && Live(next.locals[sid]) == Replay(next.log, sid) {
        if sid != a.session {
          forall e | e in r.emitted ensures SessionOf(e.payload) != sid {
            var k :| 0 <= k < |r.emitted| && r.emitted[k] == e;
            DoEmits(d[a.session], sys.locals[a.session], sys.now, sys.seqNo, a.op, sys.log, k);
          }
          OthersUnmoved(sys.log, r.emitted, sid);
        }
      }
    }
  }

  lemma OldEntryHolds(d: Deployment, log: seq<Entry>, more: seq<Entry>, i: nat)
    requires i < |log| && EntryHolds(d, log, i)
    ensures EntryHolds(d, log + more, i)
  {
    assert (log + more)[..i] == log[..i];
  }

  lemma LogExtends(d: Deployment, sys: System, more: seq<Entry>, next: System)
    requires LogHolds(d, sys) && next.log == sys.log + more && next.now == sys.now
    requires forall i :: |sys.log| <= i < |next.log| ==> EntryHolds(d, next.log, i) && next.log[i].simTs == sys.now
    ensures LogHolds(d, next)
  {
    forall i | 0 <= i < |sys.log| ensures EntryHolds(d, next.log, i) && next.log[i].simTs <= next.now {
      OldEntryHolds(d, sys.log, more, i);
    }
  }

  lemma TakeKeepsLog(d: Deployment, sys: System, a: Action)
    requires Deployed(d) && SessionsHold(d, sys) && LogHolds(d, sys)
    requires a.Act? && a.op.Approve? ==> Constructible(a.op.grant)
    ensures LogHolds(d, Take(d, sys, a))
  {
    if a.Act? && a.session in d {
      var more := TakenEntriesHold(d, sys, a);
      LogExtends(d, sys, more, Take(d, sys, a));
    }
  }

  lemma TakenEntriesHold(d: Deployment, sys: System, a: Action) returns (more: seq<Entry>)
    requires Deployed(d) && SessionsHold(d, sys) && a.Act? && a.session in d
      && (a.op.Approve? ==> Constructible(a.op.grant))
    ensures var next := Take(d, sys, a);
      && next.log == sys.log + more && next.now == sys.now
      && forall i :: |sys.log| <= i < |next.log| ==> EntryHolds(d, next.log, i) && next.log[i].simTs == sys.now
  {
    more := Do(d[a.session], sys.locals[a.session], sys.now, sys.seqNo, a.op).emitted;
    var next := Take(d, sys, a);
    assert next.log == sys.log + more;
    forall i | |sys.log| <= i < |next.log| ensures EntryHolds(d, next.log, i) && next.log[i].simTs == sys.now {
      assert i == |sys.log| + (i - |sys.log|);
      TakenEntryHolds(d, sys, a, i - |sys.log|);
    }
  }

  lemma TakenEntryHolds(d: Deployment, sys: System, a: Action, k: nat)
    requires Deployed(d) && SessionsHold(d, sys) && a.Act? && a.session in d
      && (a.op.Approve? ==> Constructible(a.op.grant))
    requires k < |Do(d[a.session], sys.locals[a.session], sys.now, sys.seqNo, a.op).emitted|
    ensures var next := Take(d, sys, a);
      |next.log| > |sys.log| + k && EntryHolds(d, next.log, |sys.log| + k) && next.log[|sys.log| + k].simTs == sys.now
  {
    var next := Take(d, sys, a);
    var r := Do(d[a.session], sys.locals[a.session], sys.now, sys.seqNo, a.op);
    assert next.log[..|sys.log| + k] == sys.log + r.emitted[..k];
    DoEmits(d[a.session], sys.locals[a.session], sys.now, sys.seqNo, a.op, sys.log, k);
  }

  lemma {:induction false} RunKeeps(d: Deployment, actions: seq<Action>)
    requires Deployed(d) && WellTyped(actions)
    ensures SessionsHold(d, Run(d, Start(d), actions)) && LogHolds(d, Run(d, Start(d), actions))
  {
    if actions != [] {
      var init, a := actions[..|actions| - 1], actions[|actions| - 1];
      assert a in actions;
      RunKeeps(d, init);
      TakeKeepsSessions(d, Run(d, Start(d), init), a);
      TakeKeepsLog(d, Run(d, Start(d), init), a);
    }
  }

  // ----- main results ---------------------------------------------------------------------------

  /** Whatever the interleaving, a session's live grant is the replay of its own decided and expired events. */
  lemma TrailReconstructsAuthority(d: Deployment, actions: seq<Action>, sid: string)
    requires Deployed(d) && WellTyped(actions) && sid in d
    ensures var sys := Run(d, Start(d), actions); sid in sys.locals && Live(sys.locals[sid]) == Replay(sys.log, sid)
  {
    RunKeeps(d, actions);
  }

  /** Every change above L1, in any run, carries the grant that the log before it shows as live, approved by a human. */
  lemma ElevatedChangesAreBacked(d: Deployment, actions: seq<Action>, i: nat)
    requires Deployed(d) && WellTyped(actions) && i < |Run(d, Start(d), actions).log|
    requires var e := Run(d, Start(d), actions).log[i]; e.payload.Changed? && e.payload.tier != L1
    ensures var log := Run(d, Start(d), actions).log; var p := log[i].payload; var live := Replay(log[..i], p.session);
      && live.Some? && p.authority == Some(Authority(live.value.grantId, live.value.approver, live.value.decisionId))
      && p.tier == live.value.tier && p.change.tool in live.value.scope && live.value.approver.human
      && log[i].simTs < live.value.expiresAt
  {
    RunKeeps(d, actions);
    assert EntryHolds(d, Run(d, Start(d), actions).log, i);
  }

  /** No decision outlives the configured limits, and L3 is granted only where writes are enabled. */
  lemma DecisionsAreWithinLimits(d: Deployment, actions: seq<Action>, i: nat)
    requires Deployed(d) && WellTyped(actions) && i < |Run(d, Start(d), actions).log|
    ensures var e := Run(d, Start(d), actions).log[i];
      SessionOf(e.payload) in d && WithinLimits(d[SessionOf(e.payload)], e)
  {
    RunKeeps(d, actions);
    assert EntryHolds(d, Run(d, Start(d), actions).log, i);
  }

  lemma OnlyApproveInstalls(c: Config, l: Local, now: nat, no: nat, op: Op)
    ensures var r := Do(c, l, now, no, op).local; r.grant.Some? ==> r.grant == l.grant || op == Approve(r.grant.value)
  {
  }

  lemma TakeInstalls(d: Deployment, sys: System, a: Action, sid: string)
    requires sid in sys.locals
    ensures var next := Take(d, sys, a).locals;
      && sid in next
      && (next[sid].grant.Some? ==>
        next[sid].grant == sys.locals[sid].grant || a == Act(sid, Approve(next[sid].grant.value)))
  {
    if a.Act? && a.session == sid && sid in d {
      OnlyApproveInstalls(d[sid], sys.locals[sid], sys.now, sys.seqNo, a.op);
    }
  }

  lemma {:induction false} InstalledByApprove(d: Deployment, actions: seq<Action>, sid: string)
    requires sid in d
    ensures var last := Run(d, Start(d), actions).locals;
      && sid in last
      && (last[sid].grant.Some? ==> Act(sid, Approve(last[sid].grant.value)) in actions)
  {
    if actions != [] {
      var init, a := actions[..|actions| - 1], actions[|actions| - 1];
      assert actions == init + [a];
      InstalledByApprove(d, init, sid);
      TakeInstalls(d, Run(d, Start(d), init), a, sid);
    }
  }

  /** A grant somebody approved for this session: a human, and not the one who asked. */
  ghost predicate SecondParty(actions: seq<Action>, sid: string, g: Grant) {
    Act(sid, Approve(g)) in actions && g.approver.human && g.approver.id != g.requestedBy.id
  }

  /** The grant a session holds was approved for it, by a human other than its requester. */
  lemma LiveGrantWasApproved(d: Deployment, actions: seq<Action>, sid: string)
    requires Deployed(d) && WellTyped(actions) && sid in d
    ensures var last := Run(d, Start(d), actions).locals;
      && sid in last
      && (last[sid].grant.Some? ==> SecondParty(actions, sid, last[sid].grant.value))
  {
    RunKeeps(d, actions);
    InstalledByApprove(d, actions, sid);
  }

  function AuthorityUnder(g: Grant): Authority {
    Authority(g.grantId, g.approver, g.decisionId)
  }

  lemma ChangeUnderGrant(c: Config, l: Local, now: nat, no: nat, op: Op, k: nat)
    requires k < |Do(c, l, now, no, op).emitted|
    requires var p := Do(c, l, now, no, op).emitted[k].payload; p.Changed? && p.tier != L1
    ensures l.grant.Some? && Do(c, l, now, no, op).emitted[k].payload.authority == Some(AuthorityUnder(l.grant.value))
  {
  }

  ghost predicate ChangeApproved(actions: seq<Action>, p: Payload)
    requires p.Changed?
  {
    exists g :: SecondParty(actions, p.session, g) && p.authority == Some(AuthorityUnder(g))
  }

  lemma StillApproved(actions: seq<Action>, a: Action, p: Payload)
    requires p.Changed? && ChangeApproved(actions, p)
    ensures ChangeApproved(actions + [a], p)
  {
    var g :| SecondParty(actions, p.session, g) && p.authority == Some(AuthorityUnder(g));
    assert SecondParty(actions + [a], p.session, g);
  }

  /** Behind every change above L1 there is an approval, by a human other than the one who asked for it. */
  lemma {:induction false} ElevatedChangesWereApproved(d: Deployment, actions: seq<Action>, i: nat)
    requires Deployed(d) && WellTyped(actions) && i < |Run(d, Start(d), actions).log|
    requires var p := Run(d, Start(d), actions).log[i].payload; p.Changed? && p.tier != L1
    ensures ChangeApproved(actions, Run(d, Start(d), actions).log[i].payload)
  {
    var init, a := actions[..|actions| - 1], actions[|actions| - 1];
    assert actions == init + [a];
    var before := Run(d, Start(d), init);
    if i < |before.log| {
      ElevatedChangesWereApproved(d, init, i);
      StillApproved(init, a, before.log[i].payload);
    } else {
      NewChangeWasApproved(d, init, a, i - |before.log|);
      assert Run(d, Start(d), actions).log[i] ==
        Do(d[a.session], before.locals[a.session], before.now, before.seqNo, a.op).emitted[i - |before.log|];
    }
  }

  lemma NewChangeWasApproved(d: Deployment, init: seq<Action>, a: Action, k: nat)
    requires Deployed(d) && WellTyped(init) && a.Act? && a.session in Run(d, Start(d), init).locals && a.session in d
    requires var sys := Run(d, Start(d), init);
      var es := Do(d[a.session], sys.locals[a.session], sys.now, sys.seqNo, a.op).emitted;
      k < |es| && es[k].payload.Changed? && es[k].payload.tier != L1
    ensures var sys := Run(d, Start(d), init);
      ChangeApproved(init + [a], Do(d[a.session], sys.locals[a.session], sys.now, sys.seqNo, a.op).emitted[k].payload)
  {
    var sys := Run(d, Start(d), init);
    ChangeUnderGrant(d[a.session], sys.locals[a.session], sys.now, sys.seqNo, a.op, k);
    LiveGrantWasApproved(d, init, a.session);
    assert SecondParty(init + [a], a.session, sys.locals[a.session].grant.value);
  }

  // ----- the log as envelopes -----------------------------------------------------------------

  /** The run a log belongs to; dump is how a payload becomes JSON, time how an instant becomes a date. */
  datatype Recorder = Recorder(runId: string, time: nat -> string, dump: Payload -> seq<Field>, kind: Payload -> string)

  function Prefix(r: Recorder): string {
    r.runId + "-agent-"
  }

  function EnvelopeOf(r: Recorder, e: Entry): Event {
    Envelope(Prefix(r) + Print(e.seqNo), "/twinflow/agent/autonomy", r.kind(e.payload), r.time(e.simTs), None,
             "twinflow:schemas/envelope/v1.json", Print(e.simTs), r.runId, "agent", Print(e.seqNo), None, None,
             None, None, None, r.dump(e.payload))
  }

  function Envelopes(r: Recorder, log: seq<Entry>): (events: seq<Event>)
    ensures |events| == |log| && forall i :: 0 <= i < |log| ==> events[i] == EnvelopeOf(r, log[i])
  {
    seq(|log|, i requires 0 <= i < |log| => EnvelopeOf(r, log[i]))
  }

  /** The counter stands at the length of the log, and every entry carries its position. */
  ghost predicate NumbersHold(sys: System) {
    sys.seqNo == |sys.log| && forall i :: 0 <= i < |sys.log| ==> sys.log[i].seqNo == i
  }

  lemma DoNumbers(c: Config, l: Local, now: nat, no: nat, op: Op)
    ensures var es := Do(c, l, now, no, op).emitted; forall k :: 0 <= k < |es| ==> es[k].seqNo == no + k
  {
  }

  /** Whichever session appends, through the one counter, the numbers are the positions. */
  lemma {:induction false} NumbersArePositions(d: Deployment, actions: seq<Action>)
    ensures NumbersHold(Run(d, Start(d), actions))
  {
    if actions != [] {
      var sys, a := Run(d, Start(d), actions[..|actions| - 1]), actions[|actions| - 1];
      NumbersArePositions(d, actions[..|actions| - 1]);
      if a.Act? && a.session in d && a.session in sys.locals {
        DoNumbers(d[a.session], sys.locals[a.session], sys.now, sys.seqNo, a.op);
      }
    }
  }

  /** The log of any run is dense from zero, free of duplicates and ties, and already in replay order. */
  lemma RunLogIsCleanAndOrdered(d: Deployment, actions: seq<Action>, r: Recorder)
    requires Deployed(d) && WellTyped(actions)
    ensures var events := Envelopes(r, Run(d, Start(d), actions).log);
      Violations(Stamps(events)) == [] && InTotalOrder(events) == events
  {
    RunKeeps(d, actions);
    NumbersArePositions(d, actions);
    var log := Run(d, Start(d), actions).log;
    var events := Envelopes(r, log);
    NumberedIsClean(events, Prefix(r), "agent");
    EnvelopesKeepTime(r, log);
    NumberedReplaysAsWritten(events, Prefix(r), "agent");
  }

  /** The events of a run, one by one: each is the entry at its place, under the id made of run, producer and place. */
  lemma EnvelopesSay(d: Deployment, actions: seq<Action>, r: Recorder, i: nat)
    requires i < |Run(d, Start(d), actions).log|
    ensures var e, entry := Envelopes(r, Run(d, Start(d), actions).log)[i], Run(d, Start(d), actions).log[i];
      && e.id == r.runId + "-agent-" + Print(i) && e.runId == r.runId && e.producer == "agent" && e.seqNo == Print(i)
      && e.simTs == Print(entry.simTs) && e.time == r.time(entry.simTs) && e.etype == r.kind(entry.payload)
      && e.data == r.dump(entry.payload) && e.source == "/twinflow/agent/autonomy"
  {
    NumbersArePositions(d, actions);
  }

  lemma EnvelopesKeepTime(r: Recorder, log: seq<Entry>)
    requires forall i, j :: 0 <= i < j < |log| ==> log[i].simTs <= log[j].simTs
    ensures var events := Envelopes(r, log); forall i, j :: 0 <= i < j < |events| ==>
      IntOf(events[i].simTs) <= IntOf(events[j].simTs)
  {
    var events := Envelopes(r, log);
    forall i, j | 0 <= i < j < |events| ensures IntOf(events[i].simTs) <= IntOf(events[j].simTs) {
      PrintIsDecimal(log[i].simTs);
      PrintIsDecimal(log[j].simTs);
    }
  }

  // ----- elevation is bounded --------------------------------------------------------------------

  /** The tier a status line would read at this instant. */
  function TierNow(c: Config, l: Local, now: nat): Tier {
    EffectiveTier(c, Settle(c, l, now, 0).0)
  }

  /** A tier other than the default is readable only under an unexpired grant, and is that grant's tier. */
  lemma ElevationNeedsLiveGrant(c: Config, l: Local, now: nat)
    ensures TierNow(c, l, now) != c.defaultTier ==>
      l.grant.Some? && now < l.grant.value.expiresAt && TierNow(c, l, now) == l.grant.value.tier
  {
  }

  function Approvals(actions: seq<Action>, sid: string): nat {
    if actions == [] then 0
    else Approvals(actions[..|actions| - 1], sid)
         + if actions[|actions| - 1].Act? && actions[|actions| - 1].session == sid && actions[|actions| - 1].op.Approve?
           then 1 else 0
  }

  function Notes(actions: seq<Action>, sid: string): nat {
    if actions == [] then 0
    else Notes(actions[..|actions| - 1], sid) + if actions[|actions| - 1] == Act(sid, NoteQuestion) then 1 else 0
  }

  /** Without a further approval a grant is kept as it is or gone, and every counted question counts against it. */
  lemma {:induction false} GrantRunsOut(d: Deployment, sys: System, actions: seq<Action>, sid: string)
    requires sid in d && sid in sys.locals && Bounded(d[sid], sys.locals[sid]) && Approvals(actions, sid) == 0
    ensures var l, last := sys.locals[sid], Run(d, sys, actions).locals;
      && sid in last && Bounded(d[sid], last[sid])
      && (last[sid].grant.Some? ==>
        last[sid].grant == l.grant && last[sid].questions == l.questions + Notes(actions, sid))
  {
    if actions != [] {
      var init, a := actions[..|actions| - 1], actions[|actions| - 1];
      GrantRunsOut(d, sys, init, sid);
      if a.Act? && a.session == sid {
        var before := Run(d, sys, init);
        BoundedStays(d[sid], before.locals[sid], before.now, before.seqNo, a.op);
      }
    }
  }

  lemma BoundedStays(c: Config, l: Local, now: nat, no: nat, op: Op)
    requires Bounded(c, l) && !op.Approve?
    ensures Bounded(c, Do(c, l, now, no, op).local)
  {
  }

  /** With no further approval, elevation ends within the granted number of questions, whatever else happens. */
  lemma ElevationEndsByQuestions(d: Deployment, sys: System, actions: seq<Action>, sid: string)
    requires sid in d && sid in sys.locals && Bounded(d[sid], sys.locals[sid]) && Approvals(actions, sid) == 0
    requires sys.locals[sid].grant.Some? && Notes(actions, sid) >= sys.locals[sid].grant.value.questions
    ensures sid in Run(d, sys, actions).locals && Run(d, sys, actions).locals[sid].grant.None?
    ensures TierNow(d[sid], Run(d, sys, actions).locals[sid], Run(d, sys, actions).now) == d[sid].defaultTier
  {
    GrantRunsOut(d, sys, actions, sid);
  }

  /** With no further approval, no elevated tier is readable at or after the grant's expiry instant. */
  lemma ElevationEndsByTime(d: Deployment, sys: System, actions: seq<Action>, sid: string)
    requires sid in d && sid in sys.locals && Bounded(d[sid], sys.locals[sid]) && Approvals(actions, sid) == 0
    requires sys.locals[sid].grant.Some? && Run(d, sys, actions).now >= sys.locals[sid].grant.value.expiresAt
    ensures sid in Run(d, sys, actions).locals
    ensures TierNow(d[sid], Run(d, sys, actions).locals[sid], Run(d, sys, actions).now) == d[sid].defaultTier
  {
    GrantRunsOut(d, sys, actions, sid);
  }
}
