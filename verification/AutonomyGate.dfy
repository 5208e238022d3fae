/** What the gate answers and how long a grant lasts, told by the fields of a grant and by the log. */
module AutonomyGate {
  import opened Options
  import opened Autonomy
  import opened AuditTrail

  /** The tier held for a tool: that of the live decision if it is unexpired and names the tool, else the default. */
  function HeldFor(c: Config, live: Option<Decision>, now: nat, tool: string): Tier {
    if live.Some? && now < live.value.expiresAt && tool in live.value.scope then live.value.tier else c.defaultTier
  }

  /** Any tier is enough for L1, only L3 for L3, and all but L1 for L2. */
  predicate Covers(held: Tier, needed: Tier) {
    needed == L1 || held == L3 || (held == L2 && needed == L2)
  }

  // ----- one call -----------------------------------------------------------------------

  /** A call is answered with the tier held exactly when that tier covers what the tool needs. */
  lemma AuthorizedIff(c: Config, l: Local, now: nat, no: nat, tool: string, needed: Tier)
    ensures var held := HeldFor(c, Live(l), now, tool);
      Do(c, l, now, no, Authorize(tool, needed)).outcome == if Covers(held, needed) then TierIs(held) else Raised
    ensures Do(c, l, now, no, ReadAllowed(tool)).outcome == TierIs(HeldFor(c, Live(l), now, tool))
  {
  }

  predicate IsDigest(s: string) {
    |s| == 64 && forall i :: 0 <= i < |s| ==> s[i] in "0123456789abcdef"
  }

  /** What attribute_change refuses of the change itself. */
  predicate WellAttributed(change: Change) {
    IsDigest(change.before) && IsDigest(change.after) && change.reason != ""
  }

  /** The authority a change is recorded under. */
  function AuthorityFor(c: Config, live: Option<Decision>, held: Tier): Option<Authority> {
    if held == c.defaultTier || live.None? then None
    else Some(Authority(live.value.grantId, live.value.approver, live.value.decisionId))
  }

  lemma DigestsAre(s: string)
    ensures IsSha256(s) <==> IsDigest(s)
  {
    assert forall ch: char :: ch in "0123456789abcdef" <==> '0' <= ch <= '9' || 'a' <= ch <= 'f';
  }

  lemma AttributableIff(c: Config, l: Local, now: nat, change: Change)
    requires Bounded(c, l)
    ensures var s := Settle(c, l, now, 0).0; var held := AllowedFor(c, s, change.tool);
      Attributable(change, held, AuthorityOf(c, s, held)) <==>
        WellAttributed(change) && (held == L1 || held != c.defaultTier)
  {
    DigestsAre(change.before);
    DigestsAre(change.after);
  }

  /** A change is recorded exactly when the tier held covers the gate, its fields are in order, and a tier above L1 is
      not the default; and then under that tier and the live decision's authority. */
  lemma ChangeRecordedIff(c: Config, l: Local, now: nat, no: nat, change: Change, gate: Option<Tier>)
    requires Bounded(c, l)
    ensures var held := HeldFor(c, Live(l), now, change.tool); var r := Do(c, l, now, no, Attribute(change, gate));
      && (r.outcome.Raised? || r.outcome.Emitted?)
      && (r.outcome.Emitted? <==>
        && (gate.Some? ==> Covers(held, gate.value))
        && WellAttributed(change) && (held == L1 || held != c.defaultTier))
      && (r.outcome.Emitted? ==>
        && r.outcome.entry.Some? && r.emitted != [] && r.emitted[|r.emitted| - 1] == r.outcome.entry.value
        && r.outcome.entry.value.payload == Changed(c.sessionId, change, held, AuthorityFor(c, Live(l), held)))
  {
    AttributableIff(c, l, now, change);
  }

  /** A grant is installed exactly when it is for this session, none is live, and it is within the deployment's
      limits; it is installed as it is, unused, and decided in the log. Refused, it changes nothing but a grant that
      had run out. */
  lemma InstalledIff(c: Config, l: Local, now: nat, no: nat, g: Grant)
    ensures var r := Do(c, l, now, no, Approve(g));
      && (r.outcome.Raised? || r.outcome.Emitted?)
      && (r.outcome.Emitted? <==>
        && g.sessionId == c.sessionId
        && (l.grant.None? || l.grant.value.expiresAt <= now)
        && (g.tier == L1 || g.tier == L2 || c.allowWriteTools)
        && g.questions <= c.maxQuestions
        && g.expiresAt - now <= c.maxSimSeconds * c.tickHz)
      && (r.outcome.Emitted? ==>
        && r.local == Local(Some(g), 0) && r.emitted != []
        && r.emitted[|r.emitted| - 1].payload ==
             Decided(c.sessionId, Some(Decision(g.grantId, g.tier, g.approver, g.scope, g.questions, g.expiresAt,
                                                g.decisionId)), g.approver, g.reason))
      && (r.outcome.Raised? && l.grant.Some? && now < l.grant.value.expiresAt ==> r.local == l && r.emitted == [])
  {
  }

  /** A request is recorded with the tier held and what the tool needs, and changes nothing of a grant that is live. */
  lemma RequestIsRecorded(c: Config, l: Local, now: nat, no: nat, tool: string, needed: Tier, question: string,
                          requester: Actor, reason: string)
    ensures var r := Do(c, l, now, no, Request(tool, needed, question, requester, reason));
      && r.emitted != [] && r.outcome == Emitted(Some(r.emitted[|r.emitted| - 1]))
      && r.emitted[|r.emitted| - 1].payload == Requested(c.sessionId, question, tool,
           if l.grant.Some? && now < l.grant.value.expiresAt then l.grant.value.tier else c.defaultTier,
           needed, requester, reason)
      && (l.grant.Some? && now < l.grant.value.expiresAt ==> r.local == l && |r.emitted| == 1)
  {
  }

  /** A refusal is recorded exactly when a human makes it, and it decides nothing. */
  lemma RefusalIsRecordedIff(c: Config, l: Local, now: nat, no: nat, approver: Actor, reason: string)
    ensures var r := Do(c, l, now, no, Refuse(approver, reason));
      && r.local == l
      && if approver.human then
           r.emitted == [Entry(no, Decided(c.sessionId, None, approver, reason), now)]
           && r.outcome == Emitted(Some(r.emitted[0]))
         else r.emitted == [] && r.outcome == Raised
  {
  }

  /** A grant ends at its instant by time, at its last question by count, or when it is revoked; the log says which. */
  lemma EndingsAreNamed(c: Config, l: Local, now: nat, no: nat, op: Op)
    requires Bounded(c, l) && l.grant.Some?
    ensures var r := Do(c, l, now, no, op); var g := l.grant.value;
      r.emitted != [] && r.emitted[0].payload.Expired? ==>
        && r.emitted[0].payload == Expired(c.sessionId, g.grantId, r.emitted[0].payload.trigger)
        && (r.emitted[0].payload.trigger == Revoked <==> op == Revoke)
        && (r.emitted[0].payload.trigger == SimTime ==> g.expiresAt <= now)
        && (r.emitted[0].payload.trigger == QuestionCount ==>
          op == NoteQuestion && now < g.expiresAt && l.questions + 1 == g.questions)
  {
  }

  // ----- whole runs ------------------------------------------------------------------------

  /** In any run, what a session may call is read off the log: its live decision, the instant and the scope. */
  lemma CallsFollowTheLog(d: Deployment, actions: seq<Action>, sid: string, tool: string, needed: Tier)
    requires Deployed(d) && WellTyped(actions) && sid in d
    ensures var sys := Run(d, Start(d), actions);
      && sid in sys.locals
      && var held := HeldFor(d[sid], Replay(sys.log, sid), sys.now, tool);
         Do(d[sid], sys.locals[sid], sys.now, sys.seqNo, Authorize(tool, needed)).outcome ==
           if Covers(held, needed) then TierIs(held) else Raised
  {
    var sys := Run(d, Start(d), actions);
    TrailReconstructsAuthority(d, actions, sid);
    AuthorizedIff(d[sid], sys.locals[sid], sys.now, sys.seqNo, tool, needed);
  }

  /** The log shows a decision of this session that is live, unexpired, names the tool and reaches the tier needed. */
  predicate Elevated(live: Option<Decision>, now: nat, tool: string, needed: Tier) {
    && live.Some? && now < live.value.expiresAt && tool in live.value.scope
    && (live.value.tier == needed || live.value.tier == L3)
  }

  /** A call that needs more than the default tier is answered exactly when the log shows such a decision. */
  lemma ElevatedCallIff(d: Deployment, actions: seq<Action>, sid: string, tool: string, needed: Tier)
    requires Deployed(d) && WellTyped(actions) && sid in d
    requires needed != L1 && d[sid].defaultTier != needed && d[sid].defaultTier != L3
    ensures var sys := Run(d, Start(d), actions);
      && sid in sys.locals
      && (Do(d[sid], sys.locals[sid], sys.now, sys.seqNo, Authorize(tool, needed)).outcome.TierIs? <==>
          Elevated(Replay(sys.log, sid), sys.now, tool, needed))
  {
    CallsFollowTheLog(d, actions, sid, tool, needed);
  }

  /** The same for the gate of a change: one that needs more than the default tier is recorded exactly when the log
      shows such a decision and the change's fields are in order. */
  lemma ElevatedChangeIff(d: Deployment, actions: seq<Action>, sid: string, change: Change, needed: Tier)
    requires Deployed(d) && WellTyped(actions) && sid in d
    requires needed != L1 && d[sid].defaultTier != needed && d[sid].defaultTier != L3
    ensures var sys := Run(d, Start(d), actions);
      && sid in sys.locals
      && (Do(d[sid], sys.locals[sid], sys.now, sys.seqNo, Attribute(change, Some(needed))).outcome.Emitted? <==>
          Elevated(Replay(sys.log, sid), sys.now, change.tool, needed) && WellAttributed(change))
  {
    var sys := Run(d, Start(d), actions);
    RunKeeps(d, actions);
    ChangeRecordedIff(d[sid], sys.locals[sid], sys.now, sys.seqNo, change, Some(needed));
  }

  // ----- how long a grant lasts --------------------------------------------------------------

  lemma OneCallEnds(c: Config, l: Local, now: nat, no: nat, op: Op)
    requires Bounded(c, l) && l.grant.Some? && !op.Approve?
    ensures var last := Do(c, l, now, no, op).local;
      last.grant.None? || (last.grant == l.grant && (now < l.grant.value.expiresAt ==>
        last.questions == l.questions + if op == NoteQuestion then 1 else 0))
    ensures now < l.grant.value.expiresAt ==>
      (Do(c, l, now, no, op).local.grant.None? <==>
        op == Revoke || (op == NoteQuestion && l.questions + 1 >= l.grant.value.questions))
  {
  }

  lemma NoneStaysNone(c: Config, l: Local, now: nat, no: nat, op: Op)
    requires l.grant.None? && !op.Approve?
    ensures Do(c, l, now, no, op).local.grant.None?
  {
  }

  /** The grant of the session is the one it held to begin with, and has not run out. */
  ghost predicate StillLive(sys: System, sid: string, g: Grant)
    requires sid in sys.locals
  {
    sys.locals[sid].grant == Some(g) && sys.now < g.expiresAt
  }

  ghost predicate NotUsedUp(l: Local, g: Grant, actions: seq<Action>, sid: string) {
    Act(sid, Revoke) !in actions && l.questions + Notes(actions, sid) < g.questions
  }

  /** With no further approval, a grant is live after a run exactly when it was not revoked, fewer questions were asked
      than it allows, and its instant has not come. */
  lemma {:induction false} GrantLastsIff(d: Deployment, sys: System, actions: seq<Action>, sid: string)
    requires sid in d && sid in sys.locals && Bounded(d[sid], sys.locals[sid]) && Approvals(actions, sid) == 0
    requires sys.locals[sid].grant.Some?
    ensures var l, last := sys.locals[sid], Run(d, sys, actions); var g := l.grant.value;
      && sid in last.locals
      && (StillLive(last, sid, g) <==> last.now < g.expiresAt && NotUsedUp(l, g, actions, sid))
  {
    if actions != [] {
      var init, a := actions[..|actions| - 1], actions[|actions| - 1];
      assert actions == init + [a];
      GrantLastsIff(d, sys, init, sid);
      GrantRunsOut(d, sys, init, sid);
      var before := Run(d, sys, init);
      if a.Act? && a.session == sid {
        if before.locals[sid].grant.Some? {
          OneCallEnds(d[sid], before.locals[sid], before.now, before.seqNo, a.op);
        } else {
          NoneStaysNone(d[sid], before.locals[sid], before.now, before.seqNo, a.op);
        }
      }
    }
  }
}
