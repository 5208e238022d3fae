/** The compose segmentation gate: what it reports of one document, and the path property a silent run buys. */
module Segmentation {
  import opened Options
  import opened Sorting
  import opened Text

  const OT := "ot"
  const DMZ := "dmz"
  const IT := "it"

  const ROLES: set<string> := {"device", "broker", "historian", "app"}

  const ROLE_LABEL := "com.twinflow.role"

  /** A parsed document. shown is what Python's str makes of a value that is not a plain one. */
  datatype Yaml =
    | Null
    | Flag(value: bool)
    | Number(shown: string, zero: bool)
    | Plain(text: string)
    | List(items: seq<Yaml>, shown: string)
    | Mapping(entries: map<string, Yaml>, shown: string)

  function Str(y: Yaml): string {
    match y
    case Null => "None"
    case Flag(value) => if value then "True" else "False"
    case Number(shown, _) => shown
    case Plain(text) => text
    case List(_, shown) => shown
    case Mapping(_, shown) => shown
  }

  predicate Truthy(y: Yaml) {
    match y
    case Null => false
    case Flag(value) => value
    case Number(_, zero) => !zero
    case Plain(text) => text != ""
    case List(items, _) => items != []
    case Mapping(entries, _) => entries != map[]
  }

  function Lookup(entries: map<string, Yaml>, key: string): Yaml {
    if key in entries then entries[key] else Null
  }

  /** `value or {}` */
  function OrEmpty(y: Yaml): Yaml {
    if Truthy(y) then y else Mapping(map[], "{}")
  }

  /** The networks of one service; the gate never looks at their order or number. */
  function Attached(service: map<string, Yaml>): (r: set<string>) {
    match Lookup(service, "networks")
    case Null => {}
    case Mapping(entries, _) => entries.Keys
    case List(items, _) => set item | item in items :: Str(item)
    case other => {Str(other)}
  }

  function FirstLabel(items: seq<Yaml>): (r: Option<string>) {
    if items == [] then None
    else if StartsWith(Str(items[0]), ROLE_LABEL + "=") then Some(Str(items[0])[|ROLE_LABEL| + 1..])
    else FirstLabel(items[1..])
  }

  function Role(service: map<string, Yaml>): (r: Option<string>) {
    match Lookup(service, "labels")
    case Mapping(entries, _) =>
      var value := Lookup(entries, ROLE_LABEL);
      if value.Null? then None else Some(Str(value))
    case List(items, _) => FirstLabel(items)
    case _ => None
  }

  datatype Rule = Compose0 | Role1 | Rule1 | Rule2 | Rule3 | Rule4

  datatype Where = File | OtNetwork | Service(name: string)

  datatype Finding = Finding(rule: Rule, at: Where)

  /** An exception that the gate does not catch. */
  datatype Crash = TypeError | AttributeError

  predicate Substring(needle: string, s: string) {
    exists i: nat :: i <= |s| && StartsWith(s[i..], needle)
  }

  /** Python's `name in networks`. */
  function Declares(networks: Yaml, name: string): (r: Result<bool, Crash>) {
    match networks
    case Mapping(entries, _) => Ok(name in entries)
    case List(items, _) => Ok(Plain(name) in items)
    case Plain(text) => Ok(Substring(name, text))
    case _ => Err(TypeError)
  }

  /** Rule 4 as the code applies it to the networks section. */
  function NetworkFindings(networks: Yaml): (r: Result<seq<Finding>, Crash>) {
    match Declares(networks, OT)
    case Err(crash) => Err(crash)
    case Ok(declared) =>
      if declared && !networks.Mapping? then Err(AttributeError)
      else
        var options := if declared then OrEmpty(Lookup(networks.entries, OT)) else Null;
        var internal := options.Mapping? && Lookup(options.entries, "internal") == Flag(true);
        Ok(When(!declared, Finding(Rule4, File)) + When(declared && !internal, Finding(Rule4, OtNetwork))
           + When(Declares(networks, IT) == Ok(false), Finding(Rule4, File)))
  }

  /** The service gets as far as the rules: it has a known role and lists a network. */
  predicate Judged(service: map<string, Yaml>) {
    Role(service).Some? && Role(service).value in ROLES && Attached(service) != {}
  }

  predicate Crosses(service: map<string, Yaml>) {
    Judged(service) && OT in Attached(service) && Attached(service) != {OT}
  }

  function ServiceFindings(name: string, service: map<string, Yaml>): (r: seq<Finding>) {
    var attached, at := Attached(service), Service(name);
    if !Judged(service) then [Finding(Role1, at)]
    else
      When(Crosses(service) && Role(service).value != "broker", Finding(Rule1, at))
      + When(Role(service).value == "device" && attached - {OT} != {}, Finding(Rule2, at))
      + When(DMZ in attached && OT in attached, Finding(Rule3, at))
      + When(DMZ in attached && IT !in attached, Finding(Rule3, at))
  }

  function AllServiceFindings(names: seq<string>, services: map<string, Yaml>): seq<Finding>
    requires forall n :: n in names ==> n in services
  {
    if names == [] then []
    else
      var last := names[|names| - 1];
      AllServiceFindings(names[..|names| - 1], services)
      + if services[last].Mapping? then ServiceFindings(last, services[last].entries) else []
  }

  predicate IsCrosser(services: map<string, Yaml>, name: string) {
    name in services && services[name].Mapping? && Crosses(services[name].entries)
  }

  function Crossers(names: seq<string>, services: map<string, Yaml>): seq<string> {
    Filter((n: string) => IsCrosser(services, n), names)
  }

  function Services(document: map<string, Yaml>): Yaml {
    OrEmpty(Lookup(document, "services"))
  }

  function Networks(document: map<string, Yaml>): Yaml {
    OrEmpty(Lookup(document, "networks"))
  }

  function CrossingFindings(declared: bool, crossers: nat): (r: seq<Finding>) {
    When((declared && crossers == 0) || crossers > 1, Finding(Rule1, File))
  }

  /** The findings of check_document, in its order. */
  function Findings(document: Yaml): Result<seq<Finding>, Crash> {
    if !document.Mapping? then Ok([Finding(Compose0, File)])
    else
      var services, networks := Services(document.entries), Networks(document.entries);
      if !services.Mapping? || services.entries == map[] then Ok([Finding(Compose0, File)])
      else match NetworkFindings(networks)
           case Err(crash) => Err(crash)
           case Ok(first) =>
             SortedSetCorrect(services.entries.Keys);
             var names := SortedSet(services.entries.Keys);
             Ok(first + AllServiceFindings(names, services.entries)
                + CrossingFindings(Declares(networks, OT) == Ok(true), |Crossers(names, services.entries)|))
  }

  method CheckDocument(document: Yaml) returns (r: Result<seq<Finding>, Crash>)
    ensures r == Findings(document)
  {
    if !document.Mapping? {
      return Ok([Finding(Compose0, File)]);
    }
    var networks := OrEmpty(Lookup(document.entries, "networks"));
    var services := OrEmpty(Lookup(document.entries, "services"));
    if !services.Mapping? || services.entries == map[] {
      return Ok([Finding(Compose0, File)]);
    }
    var first := CheckNetworks(networks);
    if first.Err? {
      return Err(first.error);
    }
    SortedSetCorrect(services.entries.Keys);
    var findings, crossers := CheckServices(SortedSet(services.entries.Keys), services.entries);
    findings := first.value + findings;
    if Declares(networks, OT) == Ok(true) && crossers == [] {
      findings := findings + [Finding(Rule1, File)];
    } else if |crossers| > 1 {
      findings := findings + [Finding(Rule1, File)];
    } else {
      assert findings == findings + [];
    }
    return Ok(findings);
  }

  method CheckServices(names: seq<string>, services: map<string, Yaml>)
        returns (findings: seq<Finding>, crossers: seq<string>)
    requires forall n :: n in names ==> n in services
    ensures findings == AllServiceFindings(names, services)
    ensures crossers == Crossers(names, services)
  {
    findings, crossers := [], [];
    for i := 0 to |names|
      invariant findings == AllServiceFindings(names[..i], services)
      invariant crossers == Crossers(names[..i], services)
    {
      var name := names[i];
      assert name in names && names[..i + 1] == names[..i] + [name] && names[..i + 1][..i] == names[..i];
      FilterAppended((n: string) => IsCrosser(services, n), names[..i], name);
      if services[name].Mapping? {
        var found, crosses := CheckService(name, services[name].entries);
        findings := findings + found;
        if crosses {
          crossers := crossers + [name];
        }
      }
    }
    assert names[..|names|] == names;
  }

  method CheckNetworks(networks: Yaml) returns (r: Result<seq<Finding>, Crash>)
    ensures r == NetworkFindings(networks)
  {
    var findings: seq<Finding> := [];
    var declared := Declares(networks, OT);
    if declared.Err? {
      return Err(declared.error);
    }
    if !declared.value {
      findings := findings + [Finding(Rule4, File)];
    } else {
      if !networks.Mapping? {
        return Err(AttributeError);
      }
      var options := OrEmpty(Lookup(networks.entries, OT));
      if !options.Mapping? || Lookup(options.entries, "internal") != Flag(true) {
        findings := findings + [Finding(Rule4, OtNetwork)];
      }
    }
    if Declares(networks, IT) == Ok(false) {
      findings := findings + [Finding(Rule4, File)];
    }
    assert NetworkFindings(networks).Ok?;
    assert findings == NetworkFindings(networks).value;
    return Ok(findings);
  }

  method CheckService(name: string, service: map<string, Yaml>) returns (findings: seq<Finding>, crosses: bool)
    ensures findings == ServiceFindings(name, service)
    ensures crosses == Crosses(service)
  {
    findings, crosses := [], false;
    var attached := Attached(service);
    var role := Role(service);
    if role.None? {
      return [Finding(Role1, Service(name))], false;
    }
    if role.value !in ROLES {
      return [Finding(Role1, Service(name))], false;
    }
    if attached == {} {
      return [Finding(Role1, Service(name))], false;
    }
    if OT in attached && |attached| > 1 {
      crosses := true;
      if role.value != "broker" {
        findings := findings + [Finding(Rule1, Service(name))];
      }
    }
    MoreThanOne(attached);
    if role.value == "device" {
      var outside := attached - {OT};
      if outside != {} {
        findings := findings + [Finding(Rule2, Service(name))];
      }
    }
    if DMZ in attached {
      if OT in attached {
        findings := findings + [Finding(Rule3, Service(name))];
      }
      if IT !in attached {
        findings := findings + [Finding(Rule3, Service(name))];
      }
    }
  }

  lemma MoreThanOne(attached: set<string>)
    ensures OT in attached ==> (|attached| > 1 <==> attached != {OT})
  {
    if OT in attached {
      assert attached == (attached - {OT}) + {OT};
    }
  }

  // ----- what a silent run means ----------------------------------------------------------------

  /** The five rules, service by service. */
  predicate Obeys(service: map<string, Yaml>) {
    && Judged(service)
    && (Crosses(service) ==> Role(service) == Some("broker"))
    && (Role(service) == Some("device") ==> Attached(service) <= {OT})
    && (DMZ in Attached(service) ==> OT !in Attached(service) && IT in Attached(service))
  }

  predicate OtIsInternal(networks: Yaml) {
    && networks.Mapping? && OT in networks.entries && IT in networks.entries
    && networks.entries[OT].Mapping? && Lookup(networks.entries[OT].entries, "internal") == Flag(true)
  }

  ghost predicate OneCrosser(services: map<string, Yaml>, b: string) {
    IsCrosser(services, b) && forall n :: IsCrosser(services, n) ==> n == b
  }

  lemma ServiceCleanIff(name: string, service: map<string, Yaml>)
    ensures ServiceFindings(name, service) == [] <==> Obeys(service)
  {
  }

  lemma {:induction false} ServicesCleanIff(names: seq<string>, services: map<string, Yaml>)
    requires forall n :: n in names ==> n in services
    ensures AllServiceFindings(names, services) == [] <==>
      forall n :: n in names && services[n].Mapping? ==> Obeys(services[n].entries)
    decreases |names|
  {
    if names != [] {
      var front, last := names[..|names| - 1], names[|names| - 1];
      ServicesCleanIff(front, services);
      assert names == front + [last];
      if services[last].Mapping? { ServiceCleanIff(last, services[last].entries); }
    }
  }

  function CrosserSet(services: map<string, Yaml>): (cs: set<string>)
    ensures forall n :: n in cs <==> IsCrosser(services, n)
  {
    set n | n in services && IsCrosser(services, n)
  }

  /** The gate counts each crosser once. */
  lemma CrossersCount(services: map<string, Yaml>)
    ensures |Crossers(SortedSet(services.Keys), services)| == |CrosserSet(services)|
  {
    var names := SortedSet(services.Keys);
    SortedSetCorrect(services.Keys);
    FilterNoDup((n: string) => IsCrosser(services, n), names);
    NoDupSize(Crossers(names, services));
    CrossersAreListed(services, names);
  }

  lemma CrossersAreListed(services: map<string, Yaml>, names: seq<string>)
    requires forall n :: n in names <==> n in services
    ensures Elems(Crossers(names, services)) == CrosserSet(services)
  {
    forall n ensures n in Elems(Crossers(names, services)) <==> n in CrosserSet(services) {
      assert n in Crossers(names, services) <==> n in names && IsCrosser(services, n);
    }
  }

  lemma SetSize(s: set<string>)
    ensures |s| == 0 <==> s == {}
    ensures |s| == 1 <==> exists b :: s == {b}
    ensures |s| > 1 <==> exists a, b :: a in s && b in s && a != b
  {
    if s != {} {
      var a :| a in s;
      var rest := s - {a};
      assert s == rest + {a};
      if rest != {} {
        var b :| b in rest;
        assert |rest| >= |{b}| by { assert rest == (rest - {b}) + {b}; }
      }
    }
  }

  lemma OneCrosserIff(services: map<string, Yaml>, b: string)
    ensures OneCrosser(services, b) <==> CrosserSet(services) == {b}
  {
    if OneCrosser(services, b) {
      forall n ensures n in CrosserSet(services) <==> n in {b} { }
    }
  }

  lemma CrossersAre(services: map<string, Yaml>)
    ensures |Crossers(SortedSet(services.Keys), services)| == 1 <==> exists b :: OneCrosser(services, b)
  {
    CrossersCount(services);
    SetSize(CrosserSet(services));
    if b :| OneCrosser(services, b) { OneCrosserIff(services, b); }
    if b :| CrosserSet(services) == {b} { OneCrosserIff(services, b); }
  }

  lemma NetworksCleanIff(networks: Yaml)
    ensures NetworkFindings(networks) == Ok([]) <==> OtIsInternal(networks)
  {
  }

  /** No finding exactly when: services exist, ot is internal beside it, each service that is a mapping obeys its rules,
      and one service crosses. */
  lemma CleanIff(document: Yaml)
    ensures Findings(document) == Ok([]) <==>
      && document.Mapping?
      && var services := Services(document.entries);
         && services.Mapping? && services.entries != map[]
         && OtIsInternal(Networks(document.entries))
         && (forall n :: n in services.entries && services.entries[n].Mapping? ==> Obeys(services.entries[n].entries))
         && exists b :: OneCrosser(services.entries, b)
  {
    if document.Mapping? && Services(document.entries).Mapping? && Services(document.entries).entries != map[] {
      PartsCleanIff(Services(document.entries).entries, Networks(document.entries));
    }
  }

  lemma PartsCleanIff(services: map<string, Yaml>, networks: Yaml)
    ensures SortedSetOk(services.Keys)
    ensures var names := SortedSet(services.Keys);
      var first := NetworkFindings(networks);
      (first.Ok? && first.value + AllServiceFindings(names, services)
                    + CrossingFindings(Declares(networks, OT) == Ok(true), |Crossers(names, services)|) == [])
      <==> && OtIsInternal(networks)
           && (forall n :: n in services && services[n].Mapping? ==> Obeys(services[n].entries))
           && exists b :: OneCrosser(services, b)
  {
    SortedSetCorrect(services.Keys);
    ServicesCleanIff(SortedSet(services.Keys), services);
    CrossersAre(services);
    NetworksCleanIff(networks);
  }

  ghost predicate SortedSetOk(s: set<string>) {
    forall x :: x in SortedSet(s) <==> x in s
  }

  // ----- which findings, exactly ---------------------------------------------------------------

  /** The two sections of a document; one that is missing, empty, zero or false counts as an empty mapping. */
  lemma SectionsAre(document: map<string, Yaml>)
    ensures "services" in document && Truthy(document["services"]) ==> Services(document) == document["services"]
    ensures "networks" in document && Truthy(document["networks"]) ==> Networks(document) == document["networks"]
    ensures "services" !in document || !Truthy(document["services"]) ==>
      Services(document).Mapping? && Services(document).entries == map[]
    ensures "networks" !in document || !Truthy(document["networks"]) ==>
      Networks(document).Mapping? && Networks(document).entries == map[]
  {
  }

  /** Python's texts for the values that have no other. */
  lemma TextsAre(text: string)
    ensures Str(Null) == "None" && Str(Flag(true)) == "True" && Str(Flag(false)) == "False" && Str(Plain(text)) == text
  {
  }

  /** A service lists its networks as the keys of a mapping, as the texts of a list, or as one text. */
  lemma AttachedIs(service: map<string, Yaml>, n: string)
    ensures n in Attached(service) <==>
      && "networks" in service
      && var networks := service["networks"];
         || (networks.Mapping? && n in networks.entries)
         || (networks.List? && exists i :: 0 <= i < |networks.items| && Str(networks.items[i]) == n)
         || ((networks.Flag? || networks.Number? || networks.Plain?) && n == Str(networks))
  {
    var networks := Lookup(service, "networks");
    if networks.List? {
      assert n in Attached(service) <==> exists item :: item in networks.items && Str(item) == n;
    }
  }

  predicate NamesRole(y: Yaml) {
    StartsWith(Str(y), "com.twinflow.role=")
  }

  /** Item i is the first to name a role, and names this one. */
  ghost predicate LabelAt(items: seq<Yaml>, role: string, i: int) {
    0 <= i < |items| && Str(items[i]) == "com.twinflow.role=" + role && forall j :: 0 <= j < i ==> !NamesRole(items[j])
  }

  lemma {:induction false} FirstLabelIs(items: seq<Yaml>, role: string)
    ensures FirstLabel(items) == Some(role) <==> exists i :: LabelAt(items, role, i)
  {
    assert ROLE_LABEL + "=" == "com.twinflow.role=" && |ROLE_LABEL| + 1 == |"com.twinflow.role="|;
    if items != [] {
      FirstLabelIs(items[1..], role);
      if NamesRole(items[0]) {
        var s := Str(items[0]);
        assert s == "com.twinflow.role=" + s[|ROLE_LABEL| + 1..];
        assert s == "com.twinflow.role=" + role ==> s[|ROLE_LABEL| + 1..] == role;
        assert s == "com.twinflow.role=" + role ==> LabelAt(items, role, 0);
      } else {
        LabelsAfter(items, role);
      }
    }
  }

  lemma LabelsAfter(items: seq<Yaml>, role: string)
    requires items != [] && !NamesRole(items[0])
    ensures (exists i :: LabelAt(items, role, i)) <==> exists i :: LabelAt(items[1..], role, i)
  {
    var text := "com.twinflow.role=" + role;
    assert text[..|"com.twinflow.role="|] == "com.twinflow.role=";
    if i :| LabelAt(items, role, i) { assert LabelAt(items[1..], role, i - 1); }
    if i :| LabelAt(items[1..], role, i) { assert LabelAt(items, role, i + 1); }
  }

  /** A service's role is what the label maps to, or what follows the label in the first text of a list that names
      it. */
  lemma RoleIs(service: map<string, Yaml>, role: string)
    ensures Role(service) == Some(role) <==>
      && "labels" in service
      && var labels := service["labels"];
         || (labels.Mapping? && "com.twinflow.role" in labels.entries && !labels.entries["com.twinflow.role"].Null?
             && role == Str(labels.entries["com.twinflow.role"]))
         || (labels.List? && exists i :: LabelAt(labels.items, role, i))
  {
    if "labels" in service && service["labels"].List? { FirstLabelIs(service["labels"].items, role); }
  }

  /** No role, a role nobody knows, or no network: the other rules cannot be applied. */
  ghost predicate Unjudged(service: map<string, Yaml>) {
    || Role(service).None?
    || Role(service).value !in {"device", "broker", "historian", "app"}
    || forall n :: n !in Attached(service)
  }

  /** What makes each rule speak of a service. */
  ghost predicate Offends(service: map<string, Yaml>, rule: Rule) {
    var on, role := Attached(service), Role(service);
    match rule
    case Role1 => Unjudged(service)
    case Rule1 => !Unjudged(service) && "ot" in on && (exists n :: n in on && n != "ot") && role != Some("broker")
    case Rule2 => !Unjudged(service) && role == Some("device") && exists n :: n in on && n != "ot"
    case Rule3 => !Unjudged(service) && "dmz" in on && ("ot" in on || "it" !in on)
    case _ => false
  }

  /** Each rule is reported of a service exactly when the service offends it, and only of that service. */
  lemma ServiceReportedIff(name: string, service: map<string, Yaml>, f: Finding)
    ensures f in ServiceFindings(name, service) <==> f.at == Service(name) && Offends(service, f.rule)
  {
    assert Judged(service) <==> !Unjudged(service);
    OtherThanOt(Attached(service));
  }

  lemma OtherThanOt(on: set<string>)
    ensures on - {OT} != {} <==> exists n :: n in on && n != OT
    ensures OT in on ==> (on != {OT} <==> on - {OT} != {})
  {
    if n :| n in on && n != OT { assert n in on - {OT}; }
    if OT in on { assert on == (on - {OT}) + {OT}; }
  }

  lemma {:induction false} ServicesReportedIff(names: seq<string>, services: map<string, Yaml>, f: Finding)
    requires forall n :: n in names ==> n in services
    ensures f in AllServiceFindings(names, services) <==>
      f.at.Service? && f.at.name in names && services[f.at.name].Mapping?
      && Offends(services[f.at.name].entries, f.rule)
    decreases |names|
  {
    if names != [] {
      var front, last := names[..|names| - 1], names[|names| - 1];
      ServicesReportedIff(front, services, f);
      assert names == front + [last];
      if services[last].Mapping? { ServiceReportedIff(last, services[last].entries, f); }
    }
  }

  /** What the gate says of the file as a whole. */
  ghost predicate FileOffends(services: map<string, Yaml>, networks: Yaml, f: Finding) {
    match f.at
    case Service(n) => n in services && services[n].Mapping? && Offends(services[n].entries, f.rule)
    case OtNetwork => f.rule == Rule4 && Declares(networks, "ot") == Ok(true) && !OtClosed(networks)
    case File =>
      || (f.rule == Rule4 && (Declares(networks, "ot") == Ok(false) || Declares(networks, "it") == Ok(false)))
      || (f.rule == Rule1 && CrossingOffends(services, Declares(networks, "ot") == Ok(true)))
  }

  predicate OtClosed(networks: Yaml) {
    && networks.Mapping? && "ot" in networks.entries && networks.entries["ot"].Mapping?
    && "internal" in networks.entries["ot"].entries && networks.entries["ot"].entries["internal"] == Flag(true)
  }

  ghost predicate NetworksOffend(networks: Yaml, f: Finding) {
    && f.rule == Rule4
    && match f.at
       case File => Declares(networks, "ot") == Ok(false) || Declares(networks, "it") == Ok(false)
       case OtNetwork => Declares(networks, "ot") == Ok(true) && !OtClosed(networks)
       case Service(_) => false
  }

  lemma NetworksReportedIff(networks: Yaml, f: Finding)
    requires NetworkFindings(networks).Ok?
    ensures f in NetworkFindings(networks).value <==> NetworksOffend(networks, f)
  {
  }

  /** Exactly what is reported of a document that declares services and does not stop the gate. */
  lemma ReportedIff(document: Yaml, f: Finding)
    requires Findings(document).Ok? && document.Mapping?
    requires var services := Services(document.entries); services.Mapping? && services.entries != map[]
    ensures f in Findings(document).value <==>
      FileOffends(Services(document.entries).entries, Networks(document.entries), f)
  {
    var services, networks := Services(document.entries).entries, Networks(document.entries);
    SortedSetCorrect(services.Keys);
    PartsReportedIff(services, networks, f);
  }

  lemma PartsReportedIff(services: map<string, Yaml>, networks: Yaml, f: Finding)
    requires NetworkFindings(networks).Ok?
    ensures SortedSetOk(services.Keys)
    ensures var names := SortedSet(services.Keys);
      var crossing := CrossingFindings(Declares(networks, OT) == Ok(true), |Crossers(names, services)|);
      f in NetworkFindings(networks).value + AllServiceFindings(names, services) + crossing <==>
      FileOffends(services, networks, f)
  {
    SortedSetCorrect(services.Keys);
    ServicesReportedIff(SortedSet(services.Keys), services, f);
    NetworksReportedIff(networks, f);
    CrossingReportedIff(services, Declares(networks, OT) == Ok(true), f);
  }

  /** No crosser where ot is declared, or two of them. */
  ghost predicate CrossingOffends(services: map<string, Yaml>, declared: bool) {
    || (declared && forall n :: !IsCrosser(services, n))
    || exists a, b :: IsCrosser(services, a) && IsCrosser(services, b) && a != b
  }

  lemma CrossingReportedIff(services: map<string, Yaml>, declared: bool, f: Finding)
    ensures f in CrossingFindings(declared, |Crossers(SortedSet(services.Keys), services)|) <==>
      f == Finding(Rule1, File) && CrossingOffends(services, declared)
  {
    CrossersCount(services);
    SetSize(CrosserSet(services));
    OffendsBySet(services, declared);
  }

  lemma OffendsBySet(services: map<string, Yaml>, declared: bool)
    ensures var cs := CrosserSet(services);
      CrossingOffends(services, declared) <==> (declared && cs == {}) || exists a, b :: a in cs && b in cs && a != b
  {
    if forall n :: !IsCrosser(services, n) { assert CrosserSet(services) == {}; }
  }

  // ----- paths ------------------------------------------------------------------------------------

  predicate Shares(services: map<string, Yaml>, a: string, b: string)
    requires a in services && services[a].Mapping? && b in services && services[b].Mapping?
  {
    Attached(services[a].entries) * Attached(services[b].entries) != {}
  }

  /** A chain of services, each sharing a network with the next. */
  predicate Chain(services: map<string, Yaml>, p: seq<string>) {
    && p != []
    && (forall i :: 0 <= i < |p| ==> p[i] in services && services[p[i]].Mapping?)
    && forall i :: 0 <= i < |p| - 1 ==> Shares(services, p[i], p[i + 1])
  }

  predicate OnOt(services: map<string, Yaml>, name: string) {
    name in services && services[name].Mapping? && OT in Attached(services[name].entries)
  }

  predicate IsDevice(services: map<string, Yaml>, name: string) {
    name in services && services[name].Mapping? && Role(services[name].entries) == Some("device")
  }

  function FirstOnOt(services: map<string, Yaml>, p: seq<string>): (i: nat)
    requires p != [] && OnOt(services, p[|p| - 1])
    ensures i < |p| && OnOt(services, p[i]) && forall j :: 0 <= j < i ==> !OnOt(services, p[j])
  {
    if OnOt(services, p[0]) then 0 else 1 + FirstOnOt(services, p[1..])
  }

  /** A chain from outside ot into ot enters through a service that crosses. */
  lemma EntryCrosses(services: map<string, Yaml>, p: seq<string>)
    requires forall n :: n in services && services[n].Mapping? ==> Obeys(services[n].entries)
    requires Chain(services, p) && !OnOt(services, p[0]) && OnOt(services, p[|p| - 1])
    ensures exists i :: 0 < i < |p| && IsCrosser(services, p[i])
  {
    var i := FirstOnOt(services, p);
    assert Shares(services, p[i - 1], p[i]);
    var a, b := Attached(services[p[i - 1]].entries), Attached(services[p[i]].entries);
    var n :| n in a * b;
    assert n != OT && n in b && OT in b;
    assert Obeys(services[p[i]].entries);
    assert IsCrosser(services, p[i]);
  }

  /** After a silent run one service crosses, it is a broker that stays off the dmz, and every chain of shared networks
      from a service that is not on ot to a device passes through it. */
  lemma CleanMeansOneGateway(document: Yaml) returns (b: string)
    requires Findings(document) == Ok([])
    ensures document.Mapping? && Services(document.entries).Mapping?
    ensures var services := Services(document.entries).entries;
      && OneCrosser(services, b) && Role(services[b].entries) == Some("broker") && DMZ !in Attached(services[b].entries)
      && forall p :: Chain(services, p) && !OnOt(services, p[0]) && IsDevice(services, p[|p| - 1]) ==> b in p[1..]
  {
    CleanIff(document);
    var services := Services(document.entries).entries;
    b :| OneCrosser(services, b);
    assert Obeys(services[b].entries);
    forall p | Chain(services, p) && !OnOt(services, p[0]) && IsDevice(services, p[|p| - 1])
      ensures b in p[1..]
    {
      assert Obeys(services[p[|p| - 1]].entries);
      var n :| n in Attached(services[p[|p| - 1]].entries);
      assert n == OT;
      EntryCrosses(services, p);
      var i :| 0 < i < |p| && IsCrosser(services, p[i]);
      assert p[1..][i - 1] == p[i];
    }
  }

  /** The gate stops on a networks section that is no mapping exactly when it is a scalar, or names ot in some way. */
  lemma CrashesIff(document: Yaml)
    ensures Findings(document).Err? <==>
      && document.Mapping?
      && Services(document.entries).Mapping? && Services(document.entries).entries != map[]
      && var networks := Networks(document.entries);
         && !networks.Mapping?
         && (networks.Flag? || networks.Number? || (networks.List? && Plain(OT) in networks.items)
             || (networks.Plain? && Substring(OT, networks.text)))
  {
  }
}
