/** Autonomy tiers: scoped, expiring grants, one audit log for every session, one clock. */
module Autonomy {
  import opened Options
  import opened Sorting
  import opened Text

  datatype Tier = L1 | L2 | L3

  function Rank(t: Tier): nat {
    match t case L1 => 1 case L2 => 2 case L3 => 3
  }

  predicate Permits(held: Tier, needed: Tier) {
    Rank(held) >= Rank(needed)
  }

  datatype Actor = Actor(human: bool, id: string)

  datatype Grant = Grant(grantId: string, sessionId: string, tier: Tier, requestedBy: Actor, approver: Actor,
                         scope: seq<string>, reason: string, questions: nat, expiresAt: nat, decisionId: string)

  /** A tool is named, never matched. */
  predicate IsToolName(s: string) {
    var core := BeforeDollar(s);
    core != [] && IsLower(core[0]) && forall i :: 0 <= i < |core| ==>
      IsLower(core[i]) || IsDigit(core[i]) || core[i] == '_'
  }

  /** What the grant's own validators leave constructible. */
  ghost predicate Constructible(g: Grant) {
    && g.grantId != "" && g.sessionId != "" && g.reason != "" && g.decisionId != ""
    && (g.tier == L2 || g.tier == L3) && g.questions >= 1
    && g.approver.human && g.approver.id != g.requestedBy.id
    && g.scope != [] && NoDup(g.scope) && forall i :: 0 <= i < |g.scope| ==> IsToolName(g.scope[i])
  }

  datatype Trigger = QuestionCount | SimTime | Revoked

  /** The whole grant as a decision records it. */
  datatype Decision = Decision(grantId: string, tier: Tier, approver: Actor, scope: seq<string>, questions: nat,
                               expiresAt: nat, decisionId: string)

  datatype Authority = Authority(grantId: string, approver: Actor, decisionId: string)

  datatype Change = Change(question: Option<string>, tool: string, target: string, actor: Actor,
                           before: string, after: string, reason: string)

  datatype Payload =
    | Requested(session: string, question: string, tool: string, current: Tier, needed: Tier, requester: Actor,
      reason: string)
    | Decided(session: string, grant: Option<Decision>, approver: Actor, reason: string)
    | Expired(session: string, grantId: string, trigger: Trigger)
    | Changed(session: string, change: Change, tier: Tier, authority: Option<Authority>)

  /** One audit record, with the number it was given. */
  datatype Entry = Entry(seqNo: nat, payload: Payload, simTs: nat)

  predicate IsSha256(s: string) {
    |s| == 64 && forall i :: 0 <= i < 64 ==> IsDigit(s[i]) || 'a' <= s[i] <= 'f'
  }

  /** The attribution record's own constraints: an elevated change names the human behind it. */
  predicate Attributable(change: Change, tier: Tier, authority: Option<Authority>) {
    && IsSha256(change.before) && IsSha256(change.after) && change.reason != ""
    && (tier != L1 ==> authority.Some? && authority.value.approver.human)
  }

  datatype Config = Config(sessionId: string, defaultTier: Tier, allowWriteTools: bool, maxQuestions: int,
                           maxSimSeconds: nat, tickHz: nat)

  /** The two fields a session changes. */
  datatype Local = Local(grant: Option<Grant>, questions: nat)

  datatype Op =
    | ReadGrant
    | ReadTier
    | ReadAllowed(tool: string)
    | Authorize(tool: string, needed: Tier)
    | Request(tool: string, needed: Tier, question: string, requester: Actor, reason: string)
    | Approve(grant: Grant)
    | Refuse(approver: Actor, reason: string)
    | Revoke
    | NoteQuestion
    | Attribute(change: Change, gate: Option<Tier>)

  datatype Outcome =
    | GrantIs(grant: Option<Grant>)
    | TierIs(tier: Tier)
    | Emitted(entry: Option<Entry>)
    | Raised

  /** What one call does: the session's fields afterwards, what it appended to the log, and its answer. */
  datatype Effect = Effect(local: Local, emitted: seq<Entry>, outcome: Outcome)

  function Idle(): Local {
    Local(None, 0)
  }

  function Retired(c: Config, g: Grant, trigger: Trigger, now: nat, no: nat): Entry {
    Entry(no, Expired(c.sessionId, g.grantId, trigger), now)
  }

  predicate Stale(l: Local, now: nat) {
    l.grant.Some? && now >= l.grant.value.expiresAt
  }

  /** _expire_if_stale, which every read runs first. */
  function Settle(c: Config, l: Local, now: nat, no: nat): (r: (Local, seq<Entry>)) {
    if Stale(l, now) then (Idle(), [Retired(c, l.grant.value, SimTime, now, no)]) else (l, [])
  }

  function EffectiveTier(c: Config, l: Local): Tier {
    match l.grant case None => c.defaultTier case Some(g) => g.tier
  }

  function AllowedFor(c: Config, l: Local, tool: string): Tier {
    match l.grant case None => c.defaultTier case Some(g) => if tool in g.scope then g.tier else c.defaultTier
  }

  function DecisionOf(g: Grant): Decision {
    Decision(g.grantId, g.tier, g.approver, g.scope, g.questions, g.expiresAt, g.decisionId)
  }

  /** The deployment rules a grant cannot see. */
  predicate Installable(c: Config, l: Local, g: Grant, now: nat) {
    && g.sessionId == c.sessionId && l.grant.None?
    && (g.tier == L3 ==> c.allowWriteTools)
    && g.questions <= c.maxQuestions
    && g.expiresAt <= now + c.maxSimSeconds * c.tickHz
  }

  function AuthorityOf(c: Config, l: Local, held: Tier): Option<Authority> {
    if held != c.defaultTier && l.grant.Some? then
      Some(Authority(l.grant.value.grantId, l.grant.value.approver, l.grant.value.decisionId))
    else None
  }

  function Do(c: Config, l: Local, now: nat, no: nat, op: Op): Effect {
    var (s, settled) := Settle(c, l, now, no);
    var next := no + |settled|;
    match op
    case ReadGrant => Effect(s, settled, GrantIs(s.grant))
    case ReadTier => Effect(s, settled, TierIs(EffectiveTier(c, s)))
    case ReadAllowed(tool) => Effect(s, settled, TierIs(AllowedFor(c, s, tool)))
    case Authorize(tool, needed) =>
      var held := AllowedFor(c, s, tool);
      Effect(s, settled, if Permits(held, needed) then TierIs(held) else Raised)
    case Request(tool, needed, question, requester, reason) =>
      var e := Entry(next, Requested(c.sessionId, question, tool, EffectiveTier(c, s), needed, requester, reason), now);
      Effect(s, settled + [e], Emitted(Some(e)))
    case Approve(g) =>
      if !Installable(c, s, g, now) then Effect(s, settled, Raised)
      else
        var e := Entry(next, Decided(c.sessionId, Some(DecisionOf(g)), g.approver, g.reason), now);
        Effect(Local(Some(g), 0), settled + [e], Emitted(Some(e)))
    case Refuse(approver, reason) =>
      if !approver.human then Effect(l, [], Raised)
      else
        var e := Entry(no, Decided(c.sessionId, None, approver, reason), now);
        Effect(l, [e], Emitted(Some(e)))
    case Revoke =>
      if l.grant.None? then Effect(l, [], Emitted(None))
      else
        var e := Retired(c, l.grant.value, Revoked, now, no);
        Effect(Idle(), [e], Emitted(Some(e)))
    case NoteQuestion =>
      if s.grant.None? then Effect(s, settled, Emitted(None))
      else if s.questions + 1 >= s.grant.value.questions then
        var e := Retired(c, s.grant.value, QuestionCount, now, next);
        Effect(Idle(), settled + [e], Emitted(Some(e)))
      else Effect(s.(questions := s.questions + 1), settled, Emitted(None))
    case Attribute(change, gate) =>
      var held := AllowedFor(c, s, change.tool);
      var authority := AuthorityOf(c, s, held);
      if (gate.Some? && !Permits(held, gate.value)) || !Attributable(change, held, authority)
        then Effect(s, settled, Raised)
      else
        var e := Entry(next, Changed(c.sessionId, change, held, authority), now);
        Effect(s, settled + [e], Emitted(Some(e)))
  }

  // ----- the objects ---------------------------------------------------------------------

  class SimClock {
    const tickHz: nat
    var now: nat

    constructor (tickHz: nat)
      ensures this.tickHz == tickHz && now == 0
    {
      this.tickHz := tickHz;
      now := 0;
    }

    method Advance(ticks: nat)
      modifies this
      ensures now == old(now) + ticks
    {
      now := now + ticks;
    }
  }

  class AuditLog {
    const clock: SimClock
    var seqNo: nat
    var events: seq<Entry>

    ghost predicate Valid()
      reads this
    {
      seqNo == |events| && forall i :: 0 <= i < |events| ==> events[i].seqNo == i
    }

    constructor (clock: SimClock)
      ensures Valid() && this.clock == clock && events == []
    {
      this.clock := clock;
      seqNo, events := 0, [];
    }

    method Emit(payload: Payload) returns (entry: Entry)
      requires Valid()
      modifies this
      ensures Valid() && entry == Entry(old(seqNo), payload, clock.now) && events == old(events) + [entry]
    {
      entry := Entry(seqNo, payload, clock.now);
      events := events + [entry];
      seqNo := seqNo + 1;
    }
  }

  class AutonomySession {
    const config: Config
    const audit: AuditLog
    var grant: Option<Grant>
    var questions: nat

    function Now(): Local
      reads this
    {
      Local(grant, questions)
    }

    constructor (config: Config, audit: AuditLog)
      ensures this.config == config && this.audit == audit && Now() == Idle()
    {
      this.config := config;
      this.audit := audit;
      grant, questions := None, 0;
    }

    method Retire(trigger: Trigger) returns (entry: Option<Entry>)
      requires audit.Valid()
      modifies this, audit
      ensures audit.Valid()
      ensures old(grant).None? ==> entry == None && audit.events == old(audit.events) && Now() == old(Now())
      ensures old(grant).Some? ==>
        var e := Retired(config, old(grant).value, trigger, audit.clock.now, old(audit.seqNo));
        entry == Some(e) && audit.events == old(audit.events) + [e] && Now() == Idle()
    {
      if grant.None? {
        return None;
      }
      var g := grant.value;
      grant := None;
      questions := 0;
      var e := audit.Emit(Expired(config.sessionId, g.grantId, trigger));
      return Some(e);
    }

    method ExpireIfStale()
      requires audit.Valid()
      modifies this, audit
      ensures audit.Valid()
      ensures var (s, settled) := Settle(config, old(Now()), audit.clock.now, old(audit.seqNo));
        Now() == s && audit.events == old(audit.events) + settled
    {
      if grant.Some? && audit.clock.now >= grant.value.expiresAt {
        var _ := Retire(SimTime);
      }
    }

    method AllowedTierFor(tool: string) returns (tier: Tier)
      requires audit.Valid()
      modifies this, audit
      ensures audit.Valid()
      ensures var r := Do(config, old(Now()), audit.clock.now, old(audit.seqNo), ReadAllowed(tool));
        Now() == r.local && audit.events == old(audit.events) + r.emitted && TierIs(tier) == r.outcome
    {
      ExpireIfStale();
      if grant.None? || tool !in grant.value.scope {
        return config.defaultTier;
      }
      return grant.value.tier;
    }

    method GetEffectiveTier() returns (tier: Tier)
      requires audit.Valid()
      modifies this, audit
      ensures audit.Valid()
      ensures var r := Do(config, old(Now()), audit.clock.now, old(audit.seqNo), ReadTier);
        Now() == r.local && audit.events == old(audit.events) + r.emitted && TierIs(tier) == r.outcome
    {
      ExpireIfStale();
      return if grant.None? then config.defaultTier else grant.value.tier;
    }

    /** None is the TierRefused. */
    method AuthorizeTool(tool: string, needed: Tier) returns (held: Option<Tier>)
      requires audit.Valid()
      modifies this, audit
      ensures audit.Valid()
      ensures var r := Do(config, old(Now()), audit.clock.now, old(audit.seqNo), Authorize(tool, needed));
        Now() == r.local && audit.events == old(audit.events) + r.emitted
        && r.outcome == if held.Some? then TierIs(held.value) else Raised
    {
      var tier := AllowedTierFor(tool);
      if !Permits(tier, needed) {
        return None;
      }
      return Some(tier);
    }

    method RequestElevation(tool: string, needed: Tier, question: string, requester: Actor, reason: string)
          returns (entry: Entry)
      requires audit.Valid()
      modifies this, audit
      ensures audit.Valid()
      ensures var r := Do(config, old(Now()), audit.clock.now, old(audit.seqNo),
        Request(tool, needed, question, requester, reason));
        Now() == r.local && audit.events == old(audit.events) + r.emitted && Emitted(Some(entry)) == r.outcome
    {
      var current := GetEffectiveTier();
      entry := audit.Emit(Requested(config.sessionId, question, tool, current, needed, requester, reason));
    }

    /** None is the AutonomyError of a refused installation. */
    method ApproveGrant(g: Grant) returns (entry: Option<Entry>)
      requires audit.Valid()
      modifies this, audit
      ensures audit.Valid()
      ensures var r := Do(config, old(Now()), audit.clock.now, old(audit.seqNo), Approve(g));
        Now() == r.local && audit.events == old(audit.events) + r.emitted
        && r.outcome == if entry.Some? then Emitted(entry) else Raised
    {
      ExpireIfStale();
      if g.sessionId != config.sessionId {
        return None;
      }
      if grant.Some? {
        return None;
      }
      if g.tier == L3 && !config.allowWriteTools {
        return None;
      }
      if g.questions > config.maxQuestions {
        return None;
      }
      var horizon := config.maxSimSeconds * config.tickHz;
      if g.expiresAt > audit.clock.now + horizon {
        return None;
      }
      grant := Some(g);
      questions := 0;
      var e := audit.Emit(Decided(config.sessionId, Some(DecisionOf(g)), g.approver, g.reason));
      return Some(e);
    }

    method RefuseGrant(approver: Actor, reason: string) returns (entry: Option<Entry>)
      requires audit.Valid()
      modifies this, audit
      ensures audit.Valid()
      ensures var r := Do(config, old(Now()), audit.clock.now, old(audit.seqNo), Refuse(approver, reason));
        Now() == r.local && audit.events == old(audit.events) + r.emitted
        && r.outcome == if entry.Some? then Emitted(entry) else Raised
    {
      if !approver.human {
        return None;
      }
      var e := audit.Emit(Decided(config.sessionId, None, approver, reason));
      return Some(e);
    }

    method RevokeGrant() returns (entry: Option<Entry>)
      requires audit.Valid()
      modifies this, audit
      ensures audit.Valid()
      ensures var r := Do(config, old(Now()), audit.clock.now, old(audit.seqNo), Revoke);
        Now() == r.local && audit.events == old(audit.events) + r.emitted && Emitted(entry) == r.outcome
    {
      entry := Retire(Revoked);
    }

    method Note() returns (entry: Option<Entry>)
      requires audit.Valid()
      modifies this, audit
      ensures audit.Valid()
      ensures var r := Do(config, old(Now()), audit.clock.now, old(audit.seqNo), NoteQuestion);
        Now() == r.local && audit.events == old(audit.events) + r.emitted && Emitted(entry) == r.outcome
    {
      ExpireIfStale();
      if grant.None? {
        return None;
      }
      questions := questions + 1;
      if questions >= grant.value.questions {
        entry := Retire(QuestionCount);
        return entry;
      }
      return None;
    }

    method AttributeChange(change: Change, needed: Option<Tier>) returns (entry: Option<Entry>)
      requires audit.Valid()
      modifies this, audit
      ensures audit.Valid()
      ensures var r := Do(config, old(Now()), audit.clock.now, old(audit.seqNo), Attribute(change, needed));
        Now() == r.local && audit.events == old(audit.events) + r.emitted
        && r.outcome == if entry.Some? then Emitted(entry) else Raised
    {
      if needed.Some? {
        var allowed := AuthorizeTool(change.tool, needed.value);
        if allowed.None? {
          return None;
        }
      }
      var held := AllowedTierFor(change.tool);
      var elevated := held != config.defaultTier && grant.Some?;
      var authority := if elevated
        then Some(Authority(grant.value.grantId, grant.value.approver, grant.value.decisionId)) else None;
      if !Attributable(change, held, authority) {
        return None;
      }
      var e := audit.Emit(Changed(config.sessionId, change, held, authority));
      return Some(e);
    }
  }
}
