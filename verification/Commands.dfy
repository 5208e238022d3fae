/** The browser's write path: what validation accepts, and the log that gives each command one position. */
module Commands {
  import opened Sorting
  import opened Options
  import opened Text
  import opened Decimals
  import opened Json
  import opened Envelope
  import opened EventLog
  import opened Producer

  datatype Mode = Live | Replay | Both

  datatype Handler = Server | Browser | Either

  datatype CommandKind = CommandKind(name: string, needs: seq<string>, optional: seq<string>, mode: Mode,
                                     handledBy: Handler, audited: bool)

  const COMMAND_KINDS: seq<CommandKind> := [
    CommandKind("ack_finding", ["finding_id"], [], Live, Server, true),
    CommandKind("approve_whatif", ["request_id"], ["note"], Live, Server, true),
    CommandKind("ask_agent", ["text"], ["context"], Live, Server, true),
    CommandKind("pause", [], [], Both, Server, true),
    CommandKind("reject_whatif", ["request_id"], ["note"], Live, Server, true),
    CommandKind("resume", [], [], Both, Server, true),
    CommandKind("seek", ["sim_time"], [], Replay, Browser, false),
    CommandKind("set_pref", ["key", "value"], [], Both, Browser, false),
    CommandKind("set_speed", ["speed"], [], Both, Server, true),
    CommandKind("shelve_alarm", ["key", "duration_s", "reason"], [], Live, Server, true),
    CommandKind("step", ["steps"], [], Both, Either, true),
    CommandKind("unshelve_alarm", ["key"], [], Live, Server, true)]

  const COMMAND_PRODUCER := "dashboard"

  // ----- validation ------------------------------------------------------------------

  function KindNamed(kinds: seq<CommandKind>, name: string): (kind: Option<CommandKind>)
    ensures kind.Some? ==> kind.value in kinds && kind.value.name == name
    ensures kind.None? ==> forall k :: k in kinds ==> k.name != name
  {
    if kinds == [] then None else if kinds[0].name == name then Some(kinds[0]) else KindNamed(kinds[1..], name)
  }

  /** c- and at least four digits. */
  predicate IsCommandId(s: string) {
    var core := BeforeDollar(s);
    |core| >= 6 && core[0] == 'c' && core[1] == '-' && forall i :: 2 <= i < |core| ==> IsDigit(core[i])
  }

  datatype Reason = BadId | UnknownKind | NotServed | WrongMode | NoData | Missing(fields: set<string>)
                  | Unexpected(fields: set<string>) | NoReason

  function KeysOfFields(fields: seq<Field>): set<string> {
    set f | f in fields :: f.key
  }

  predicate EmptyReason(data: seq<Field>) {
    match Lookup(data, "reason") case None => true case Some(Str(s)) => Strip(s) == "" case Some(_) => false
  }

  function KindOf(payload: seq<Field>): Option<CommandKind> {
    match Lookup(payload, "kind") case Some(Str(name)) => KindNamed(COMMAND_KINDS, name) case _ => None
  }

  function DataOf(payload: seq<Field>): Option<seq<Field>> {
    match Lookup(payload, "data") case Some(Obj(fields)) => Some(fields) case _ => None
  }

  predicate GoodId(payload: seq<Field>) {
    match Lookup(payload, "command_id") case Some(Str(s)) => IsCommandId(s) case _ => false
  }

  function MissingFrom(kind: CommandKind, data: seq<Field>): set<string> {
    Elems(kind.needs) - KeysOfFields(data)
  }

  function UnexpectedIn(kind: CommandKind, data: seq<Field>): set<string> {
    KeysOfFields(data) - (Elems(kind.needs) + Elems(kind.optional))
  }

  predicate NotInMode(kind: CommandKind, mode: Mode) {
    kind.mode != Both && kind.mode != mode
  }

  predicate Unanswered(kind: CommandKind, data: seq<Field>) {
    kind.name == "shelve_alarm" && EmptyReason(data)
  }

  function DataReasons(kind: CommandKind, data: seq<Field>): seq<Reason> {
    When(MissingFrom(kind, data) != {}, Missing(MissingFrom(kind, data)))
    + When(UnexpectedIn(kind, data) != {}, Unexpected(UnexpectedIn(kind, data)))
    + When(Unanswered(kind, data), NoReason)
  }

  /** Every reason in the order the source checks; an unknown kind or absent data ends the list. */
  function Reasons(payload: seq<Field>, mode: Mode): seq<Reason> {
    When(!GoodId(payload), BadId)
    + match KindOf(payload) case None => [UnknownKind] case Some(kind) => KindReasons(kind, DataOf(payload), mode)
  }

  /** What speaks against a kind whatever its data. */
  function ServerReasons(kind: CommandKind, mode: Mode): seq<Reason> {
    When(kind.handledBy == Browser, NotServed) + When(NotInMode(kind, mode), WrongMode)
  }

  function KindReasons(kind: CommandKind, data: Option<seq<Field>>, mode: Mode): seq<Reason> {
    ServerReasons(kind, mode) + match data case None => [NoData] case Some(fields) => DataReasons(kind, fields)
  }

  method ValidateCommand(payload: seq<Field>, mode: Mode) returns (answer: Result<CommandKind, seq<Reason>>)
    ensures answer == if Reasons(payload, mode) == [] then Ok(KindOf(payload).value) else Err(Reasons(payload, mode))
  {
    var reasons := When(!GoodId(payload), BadId);
    var found := KindOf(payload);
    if found.None? {
      return Err(reasons + [UnknownKind]);
    }
    var more := CheckKind(found.value, DataOf(payload), mode);
    reasons := reasons + more;
    if reasons != [] {
      return Err(reasons);
    }
    return Ok(found.value);
  }

  /** A known kind this server handles in this mode, every required field and none outside its row,
      and for a shelved alarm a reason somebody has to answer for. */
  ghost predicate Acceptable(payload: seq<Field>, mode: Mode) {
    exists id, kind, data :: Carries(payload, id, kind, data) && Serves(kind, data, mode)
  }

  ghost predicate Carries(payload: seq<Field>, id: string, kind: CommandKind, data: seq<Field>) {
    && IsCommandId(id) && Lookup(payload, "command_id") == Some(Str(id))
    && kind in COMMAND_KINDS && Lookup(payload, "kind") == Some(Str(kind.name))
    && Lookup(payload, "data") == Some(Obj(data))
  }

  ghost predicate Serves(kind: CommandKind, data: seq<Field>, mode: Mode) {
    kind.handledBy != Browser && (kind.mode == Both || kind.mode == mode) && Fits(kind, data)
  }

  /** Every required field, no field outside the row, and a reason where an alarm is shelved. */
  ghost predicate Fits(kind: CommandKind, data: seq<Field>) {
    && Elems(kind.needs) <= KeysOfFields(data) <= Elems(kind.needs) + Elems(kind.optional)
    && (kind.name == "shelve_alarm" ==> !EmptyReason(data))
  }

  /** Nobody answers for a shelved alarm without a reason, or with a blank one. */
  lemma ReasonIsMissingIff(data: seq<Field>)
    ensures EmptyReason(data) <==>
      Lookup(data, "reason").None? || (Lookup(data, "reason").value.Str? && Blank(Lookup(data, "reason").value.s))
  {
    if Lookup(data, "reason").Some? && Lookup(data, "reason").value.Str? {
      BlankIffStripsEmpty(Lookup(data, "reason").value.s);
    }
  }

  /** Nothing is wrong with the fields exactly when they fit the row; otherwise each reason names just the fields it
      is about. */
  lemma NoDataReasons(kind: CommandKind, data: seq<Field>)
    ensures DataReasons(kind, data) == [] <==> Fits(kind, data)
    ensures forall fields :: Missing(fields) in DataReasons(kind, data) <==>
      fields == Elems(kind.needs) - KeysOfFields(data) && fields != {}
    ensures forall fields :: Unexpected(fields) in DataReasons(kind, data) <==>
      fields == KeysOfFields(data) - (Elems(kind.needs) + Elems(kind.optional)) && fields != {}
  {
    EmptyDifference(Elems(kind.needs), KeysOfFields(data));
    EmptyDifference(KeysOfFields(data), Elems(kind.needs) + Elems(kind.optional));
  }

  method CheckData(kind: CommandKind, data: seq<Field>) returns (reasons: seq<Reason>)
    ensures reasons == DataReasons(kind, data)
  {
    reasons := [];
    var missing := MissingFrom(kind, data);
    var unexpected := UnexpectedIn(kind, data);
    if missing != {} {
      reasons := reasons + [Missing(missing)];
    }
    if unexpected != {} {
      reasons := reasons + [Unexpected(unexpected)];
    }
    if kind.name == "shelve_alarm" && EmptyReason(data) {
      reasons := reasons + [NoReason];
    }
  }

  method CheckKind(kind: CommandKind, data: Option<seq<Field>>, mode: Mode) returns (reasons: seq<Reason>)
    ensures reasons == KindReasons(kind, data, mode)
  {
    reasons := [];
    if kind.handledBy == Browser {
      reasons := reasons + [NotServed];
    }
    if NotInMode(kind, mode) {
      reasons := reasons + [WrongMode];
    }
    assert reasons == ServerReasons(kind, mode);
    if data.None? {
      return reasons + [NoData];
    }
    var more := CheckData(kind, data.value);
    return reasons + more;
  }

  lemma NoKindReasons(kind: CommandKind, data: Option<seq<Field>>, mode: Mode)
    ensures KindReasons(kind, data, mode) == [] <==> data.Some? && Serves(kind, data.value, mode)
  {
    if data.Some? { NoDataReasons(kind, data.value); }
  }

  /** Validation raises nothing exactly on the payloads the dispatch table admits. */
  lemma NoReasonIffAcceptable(payload: seq<Field>, mode: Mode)
    ensures Reasons(payload, mode) == [] <==> Acceptable(payload, mode)
  {
    if Reasons(payload, mode) == [] {
      NoKindReasons(KindOf(payload).value, DataOf(payload), mode);
      var id := IdIsCarried(payload);
      KindIsListed(payload);
      DataIsCarried(payload);
      assert Carries(payload, id, KindOf(payload).value, DataOf(payload).value);
    }
    if id, kind, data :| Carries(payload, id, kind, data) && Serves(kind, data, mode) {
      IdAndDataAreParts(payload, id, data);
      KindIsPart(payload, kind);
      NoKindReasons(kind, Some(data), mode);
    }
  }

  lemma IdIsCarried(payload: seq<Field>) returns (id: string)
    requires GoodId(payload)
    ensures IsCommandId(id) && Lookup(payload, "command_id") == Some(Str(id))
  {
    id := Lookup(payload, "command_id").value.s;
  }

  lemma DataIsCarried(payload: seq<Field>)
    requires DataOf(payload).Some?
    ensures Lookup(payload, "data") == Some(Obj(DataOf(payload).value))
  {
  }

  lemma KindIsListed(payload: seq<Field>)
    requires KindOf(payload).Some?
    ensures KindOf(payload).value in COMMAND_KINDS && Lookup(payload, "kind") == Some(Str(KindOf(payload).value.name))
  {
  }

  lemma IdAndDataAreParts(payload: seq<Field>, id: string, data: seq<Field>)
    requires IsCommandId(id) && Lookup(payload, "command_id") == Some(Str(id))
      && Lookup(payload, "data") == Some(Obj(data))
    ensures GoodId(payload) && DataOf(payload) == Some(data)
  {
  }

  lemma KindIsPart(payload: seq<Field>, kind: CommandKind)
    requires kind in COMMAND_KINDS && Lookup(payload, "kind") == Some(Str(kind.name))
    ensures KindOf(payload) == Some(kind)
  {
    KindsAreNamed(kind);
  }

  /** No two kinds share a name. */
  lemma KindsAreNamed(kind: CommandKind)
    requires kind in COMMAND_KINDS
    ensures KindNamed(COMMAND_KINDS, kind.name) == Some(kind)
  {
    var at :| 0 <= at < |COMMAND_KINDS| && COMMAND_KINDS[at] == kind;
    NamesDiffer();
    FirstOfItsName(COMMAND_KINDS, at);
  }

  lemma NamesDiffer()
    ensures forall i, j :: 0 <= i < j < |COMMAND_KINDS| ==> COMMAND_KINDS[i].name != COMMAND_KINDS[j].name
  {
    var names := ["ack_finding", "approve_whatif", "ask_agent", "pause", "reject_whatif", "resume", "seek", "set_pref",
                  "set_speed", "shelve_alarm", "step", "unshelve_alarm"];
    assert |names[0]| == 11 && |names[1]| == 14 && |names[2]| == 9 && |names[3]| == 5 && |names[4]| == 13;
    assert |names[5]| == 6 && |names[6]| == 4 && |names[7]| == 8 && |names[8]| == 9 && |names[9]| == 12;
    assert |names[10]| == 4 && |names[11]| == 14;
    assert names[1][0] == 'a' && names[11][0] == 'u' && names[2][0] == 'a' && names[8][0] == 's';
    assert names[6][1] == 'e' && names[10][1] == 't';
    assert forall i :: 0 <= i < 12 ==> COMMAND_KINDS[i].name == names[i];
  }

  lemma {:induction false} FirstOfItsName(kinds: seq<CommandKind>, at: nat)
    requires at < |kinds| && forall i, j :: 0 <= i < j < |kinds| ==> kinds[i].name != kinds[j].name
    ensures KindNamed(kinds, kinds[at].name) == Some(kinds[at])
  {
    if at > 0 { FirstOfItsName(kinds[1..], at - 1); }
  }

  // ----- the log -----------------------------------------------------------------------

  datatype Request = Request(commandId: string, data: seq<Field>, kind: CommandKind, simTime: nat)

  datatype Accepted = Accepted(commandId: string, kind: string, producer: string, seqNo: nat, simTime: nat,
        audited: bool)

  /** The run a log belongs to; time is the epoch plus sim time, as text. */
  datatype Run = Run(runId: string, time: nat -> string)

  datatype State = State(seqNo: nat, byCommandId: map<string, Accepted>)

  function Prefix(run: Run): string {
    run.runId + "-dashboard-"
  }

  function EnvelopeOf(run: Run, data: seq<Field>, a: Accepted): Event {
    Envelope(Prefix(run) + Print(a.seqNo), "/twinflow/dashboard/commands", "ui.command.v1", run.time(a.simTime),
             Some("ui.command.v1"), "twinflow:schemas/ui/command/v1.json", Print(a.simTime), run.runId,
             COMMAND_PRODUCER, Print(a.seqNo), None, None, None, None, None,
             [Field("command_id", Str(a.commandId)), Field("kind", Str(a.kind)), Field("sim_time", Int(a.simTime)),
              Field("data", Obj(data))])
  }

  function Recorded(run: Run, st: State, r: Request): (State, Accepted, Option<Event>) {
    if r.commandId in st.byCommandId then (st, st.byCommandId[r.commandId], None)
    else
      var a := Accepted(r.commandId, r.kind.name, COMMAND_PRODUCER, st.seqNo, r.simTime, r.kind.audited);
      (State(st.seqNo + 1, st.byCommandId[r.commandId := a]), a, Some(EnvelopeOf(run, r.data, a)))
  }

  class CommandLog {
    const run: Run
    var seqNo: nat
    var byCommandId: map<string, Accepted>

    function Now(): State
      reads this
    {
      State(seqNo, byCommandId)
    }

    constructor (run: Run)
      ensures this.run == run && Now() == State(0, map[])
    {
      this.run := run;
      seqNo, byCommandId := 0, map[];
    }

    method Record(r: Request) returns (accepted: Accepted, envelope: Option<Event>)
      modifies this
      ensures (Now(), accepted, envelope) == Recorded(run, old(Now()), r)
    {
      if r.commandId in byCommandId {
        return byCommandId[r.commandId], None;
      }
      accepted := Accepted(r.commandId, r.kind.name, COMMAND_PRODUCER, seqNo, r.simTime, r.kind.audited);
      seqNo := seqNo + 1;
      byCommandId := byCommandId[r.commandId := accepted];
      envelope := Some(EnvelopeOf(run, r.data, accepted));
    }
  }

  /** Everything a caller saw: the last state, one answer per request, and the envelopes it was told to publish. */
  datatype History = History(state: State, answers: seq<Accepted>, published: seq<Event>)

  function After(run: Run, requests: seq<Request>): (h: History)
    ensures |h.answers| == |requests|
  {
    if requests == [] then History(State(0, map[]), [], [])
    else
      Extended(run, After(run, requests[..|requests| - 1]), requests[|requests| - 1])
  }

  function CommandIds(requests: seq<Request>): set<string> {
    set r | r in requests :: r.commandId
  }

  /** Which command an envelope carries. */
  function CommandOf(e: Event): Option<Json> {
    Lookup(e.data, "command_id")
  }

  /** Each answer is the position its command id was given first. */
  ghost predicate AnswersHold(requests: seq<Request>, h: History) {
    && |h.answers| == |requests|
    && h.state.byCommandId.Keys == CommandIds(requests)
    && (forall i :: 0 <= i < |requests| ==>
          requests[i].commandId in h.state.byCommandId && h.answers[i] == h.state.byCommandId[requests[i].commandId])
  }

  ghost predicate Published(h: History, id: string) {
    && id in h.state.byCommandId && h.state.byCommandId[id].seqNo < |h.published|
    && CommandOf(h.published[h.state.byCommandId[id].seqNo]) == Some(Str(id))
  }

  /** Numbers run on with the log, one per command id. */
  ghost predicate LogHolds(run: Run, h: History) {
    && h.state.seqNo == |h.published| == |h.state.byCommandId|
    && Numbered(h.published, Prefix(run), COMMAND_PRODUCER)
    && (forall id :: id in h.state.byCommandId ==> Published(h, id))
  }

  function Extended(run: Run, h: History, r: Request): History {
    var (state, answer, envelope) := Recorded(run, h.state, r);
    History(state, h.answers + [answer], h.published + if envelope.Some? then [envelope.value] else [])
  }

  lemma RecordKeepsAnswers(run: Run, requests: seq<Request>, h: History, r: Request)
    requires AnswersHold(requests, h)
    ensures AnswersHold(requests + [r], Extended(run, h, r))
  {
    assert CommandIds(requests + [r]) == CommandIds(requests) + {r.commandId};
    var next := Extended(run, h, r);
    forall i | 0 <= i < |requests| + 1
      ensures (requests + [r])[i].commandId in next.state.byCommandId
      ensures next.answers[i] == next.state.byCommandId[(requests + [r])[i].commandId]
    {
    }
  }

  lemma RecordKeepsLog(run: Run, h: History, r: Request)
    requires LogHolds(run, h)
    ensures LogHolds(run, Extended(run, h, r))
  {
    var next := Extended(run, h, r);
    if r.commandId !in h.state.byCommandId {
      NewIsNumbered(run, h, r);
      forall id | id in next.state.byCommandId ensures Published(next, id) {
        if id == r.commandId { NewIsPublished(run, h, r); } else { OldStaysPublished(run, h, r, id); }
      }
    } else {
      assert next.published == h.published + [] == h.published;
      forall id | id in next.state.byCommandId ensures Published(next, id) {
        assert Published(h, id);
      }
    }
  }

  lemma NewIsNumbered(run: Run, h: History, r: Request)
    requires LogHolds(run, h) && r.commandId !in h.state.byCommandId
    ensures Numbered(Extended(run, h, r).published, Prefix(run), COMMAND_PRODUCER)
    ensures Extended(run, h, r).state.seqNo == |Extended(run, h, r).published| ==
      |Extended(run, h, r).state.byCommandId|
  {
  }

  lemma NewIsPublished(run: Run, h: History, r: Request)
    requires LogHolds(run, h) && r.commandId !in h.state.byCommandId
    ensures Published(Extended(run, h, r), r.commandId)
  {
  }

  lemma OldStaysPublished(run: Run, h: History, r: Request, id: string)
    requires LogHolds(run, h) && r.commandId !in h.state.byCommandId && id in h.state.byCommandId
    ensures Published(Extended(run, h, r), id)
  {
    assert Published(h, id);
  }

  lemma {:induction false} HistoryHolds(run: Run, requests: seq<Request>)
    ensures AnswersHold(requests, After(run, requests)) && LogHolds(run, After(run, requests))
  {
    if requests != [] {
      var init, r := requests[..|requests| - 1], requests[|requests| - 1];
      HistoryHolds(run, init);
      assert requests == init + [r];
      RecordKeepsAnswers(run, init, After(run, init), r);
      RecordKeepsLog(run, After(run, init), r);
    }
  }

  /** However commands are retried, each id has one answer for good. */
  lemma OneAnswerPerCommand(run: Run, requests: seq<Request>, i: nat, j: nat)
    requires i < |requests| && j < |requests| && requests[i].commandId == requests[j].commandId
    ensures After(run, requests).answers[i] == After(run, requests).answers[j]
  {
    HistoryHolds(run, requests);
  }

  /** The envelopes published over any run form a clean log with exactly one entry per distinct command id. */
  lemma PublishedLogIsClean(run: Run, requests: seq<Request>)
    ensures var h := After(run, requests);
      && Violations(Stamps(h.published)) == []
      && |h.published| == |CommandIds(requests)|
      && (forall id :: id in CommandIds(requests) ==> Published(h, id))
  {
    var h := After(run, requests);
    HistoryHolds(run, requests);
    NumberedIsClean(h.published, Prefix(run), COMMAND_PRODUCER);
  }

  /** The answer to a command names the very event that carries it. */
  lemma AnswerNamesItsEvent(run: Run, requests: seq<Request>, i: nat)
    requires i < |requests|
    ensures var h := After(run, requests);
      h.answers[i].seqNo < |h.published|
      && CommandOf(h.published[h.answers[i].seqNo]) == Some(Str(requests[i].commandId))
      && h.published[h.answers[i].seqNo].seqNo == Print(h.answers[i].seqNo)
  {
    HistoryHolds(run, requests);
    var h := After(run, requests);
    assert Published(h, requests[i].commandId);
  }

  /** What a new command's answer and its event say of the request. */
  ghost predicate Describes(a: Accepted, e: Event, r: Request) {
    && a.commandId == r.commandId && a.kind == r.kind.name && a.producer == "dashboard"
    && a.simTime == r.simTime && a.audited == r.kind.audited
    && Lookup(e.data, "command_id") == Some(Str(r.commandId)) && Lookup(e.data, "kind") == Some(Str(r.kind.name))
    && Lookup(e.data, "sim_time") == Some(Int(r.simTime)) && Lookup(e.data, "data") == Some(Obj(r.data))
    && e.simTs == Print(r.simTime) && e.producer == "dashboard" && e.subject == Some("ui.command.v1")
    && e.seqNo == Print(a.seqNo) && e.id == e.runId + "-dashboard-" + Print(a.seqNo)
  }

  lemma LookupSkips(first: Field, rest: seq<Field>, key: string)
    ensures Lookup([first] + rest, key) == if first.key == key then Some(first.value) else Lookup(rest, key)
  {
  }

  lemma FourFields(a: Json, b: Json, c: Json, d: Json)
    ensures var fields := [Field("command_id", a), Field("kind", b), Field("sim_time", c), Field("data", d)];
      && Lookup(fields, "command_id") == Some(a) && Lookup(fields, "kind") == Some(b)
      && Lookup(fields, "sim_time") == Some(c) && Lookup(fields, "data") == Some(d)
  {
    var w, x, y, z := Field("command_id", a), Field("kind", b), Field("sim_time", c), Field("data", d);
    assert "kind"[0] != "data"[0] && |"command_id"| == 10 && |"sim_time"| == 8 && |"kind"| == |"data"| == 4;
    assert [w, x, y, z] == [w] + ([x] + ([y] + ([z] + [])));
    forall key: string ensures Lookup([w, x, y, z], key) ==
      if key == w.key then Some(a) else if key == x.key then Some(b) else if key == y.key then Some(c)
      else if key == z.key then Some(d) else None
    {
      LookupSkips(z, [], key);
      LookupSkips(y, [z] + [], key);
      LookupSkips(x, [y] + ([z] + []), key);
      LookupSkips(w, [x] + ([y] + ([z] + [])), key);
    }
  }

  lemma EventDescribes(run: Run, r: Request, seqNo: nat)
    ensures var a := Accepted(r.commandId, r.kind.name, COMMAND_PRODUCER, seqNo, r.simTime, r.kind.audited);
      Describes(a, EnvelopeOf(run, r.data, a), r)
  {
    FourFields(Str(r.commandId), Str(r.kind.name), Int(r.simTime), Obj(r.data));
  }

  /** The answer to request i and the event it names describe r. */
  ghost predicate IsDescribed(h: History, i: nat, r: Request) {
    && i < |h.answers| && h.answers[i].seqNo < |h.published|
    && Describes(h.answers[i], h.published[h.answers[i].seqNo], r)
  }

  lemma NewIsDescribed(run: Run, h: History, r: Request)
    requires h.state.seqNo == |h.published| && r.commandId !in h.state.byCommandId
    ensures IsDescribed(Extended(run, h, r), |h.answers|, r)
  {
    EventDescribes(run, r, h.state.seqNo);
  }

  lemma StaysDescribed(run: Run, h: History, last: Request, i: nat, r: Request)
    requires IsDescribed(h, i, r)
    ensures IsDescribed(Extended(run, h, last), i, r)
  {
  }

  /** The first request with an id is what its answer and its published event describe, whatever follows. */
  lemma {:induction false} FirstRequestIsPublished(run: Run, requests: seq<Request>, i: nat)
    requires i < |requests| && forall j :: 0 <= j < i ==> requests[j].commandId != requests[i].commandId
    ensures IsDescribed(After(run, requests), i, requests[i])
    decreases |requests|
  {
    var init, r := requests[..|requests| - 1], requests[|requests| - 1];
    if i < |init| {
      FirstRequestIsPublished(run, init, i);
      StaysDescribed(run, After(run, init), r, i, requests[i]);
    } else {
      HistoryHolds(run, init);
      assert r.commandId !in CommandIds(init);
      NewIsDescribed(run, After(run, init), r);
    }
  }
}
