/** The append-only stream registry: what a run declares stays declared, and every handout is counted. */
module Registry {
  import opened Options
  import opened Sorting
  import opened StreamNames
  import opened NameOverlap

  const STREAM_COUNT_CEILING := 750_000

  datatype Seeds = Seeds(base: int, replication: int)

  predicate InRange(seeds: Seeds) {
    0 <= seeds.base < 0x1_0000_0000_0000_0000 && 0 <= seeds.replication < 0x1_0000_0000_0000_0000
  }

  /** A generator, by the address and the seeds it is derived from. */
  datatype Stream = Stream(address: string, seeds: Seeds)

  /** order is the dictionary's insertion order; declared maps a name to its retirement marker. */
  datatype Catalog = Catalog(order: seq<string>, declared: map<string, Option<string>>, handouts: map<string, nat>)

  datatype RegisterRefusal = BadName | AlreadyRegistered | CeilingReached

  function RegisterIn(c: Catalog, name: string, retiredAt: Option<string>): Result<Catalog, RegisterRefusal> {
    if !IsName(name) then Err(BadName)
    else if name in c.declared then Err(AlreadyRegistered)
    else if |c.order| >= STREAM_COUNT_CEILING then Err(CeilingReached)
    else Ok(c.(order := c.order + [name], declared := c.declared[name := retiredAt]))
  }

  datatype GetRefusal =
    | AlreadyBound
    | Unregistered
    | Retired(at: string)
    | Missing(keys: seq<string>)
    | Unexpected(keys: seq<string>)
    | BadEntity(key: string)
    | SeedOutOfRange

  /** The checks of get up to the point where it counts the handout; Ok carries the address. */
  function Resolved(c: Catalog, name: string, args: map<string, string>): Result<string, GetRefusal> {
    if "name" in args || "self" in args then Err(AlreadyBound)
    else if name !in c.declared then Err(Unregistered)
    else if c.declared[name].Some? then Err(Retired(c.declared[name].value))
    else if Required(name) - args.Keys != {} then Err(Missing(SortedSet(Required(name) - args.Keys)))
    else if args.Keys - Required(name) != {} then Err(Unexpected(SortedSet(args.Keys - Required(name))))
    else match Address(name, args)
         case Ok(address) => Ok(address)
         case Err(key) => Err(BadEntity(key))
  }

  function Counted(c: Catalog, name: string): nat {
    if name in c.handouts then c.handouts[name] else 0
  }

  function GetFrom(c: Catalog, seeds: Seeds, name: string, args: map<string, string>): Result<Stream, GetRefusal> {
    match Resolved(c, name, args)
    case Err(why) => Err(why)
    case Ok(address) => if InRange(seeds) then Ok(Stream(address, seeds)) else Err(SeedOutOfRange)
  }

  function AfterGet(c: Catalog, name: string, args: map<string, string>): Catalog {
    if Resolved(c, name, args).Ok? then c.(handouts := c.handouts[name := Counted(c, name) + 1]) else c
  }

  // ----- runs -------------------------------------------------------------------------------

  datatype Op = Register(name: string, retiredAt: Option<string>) | Get(name: string, args: map<string, string>)

  function Step(c: Catalog, op: Op): Catalog {
    match op
    case Register(name, retiredAt) =>
      var r := RegisterIn(c, name, retiredAt);
      if r.Ok? then r.value else c
    case Get(name, args) => AfterGet(c, name, args)
  }

  function After(ops: seq<Op>): Catalog {
    if ops == [] then Catalog([], map[], map[]) else Step(After(ops[..|ops| - 1]), ops[|ops| - 1])
  }

  class StreamRegistry {
    const seeds: Seeds
    var order: seq<string>
    var declared: map<string, Option<string>>
    var handouts: map<string, nat>
    ghost var ops: seq<Op>

    function State(): Catalog
      reads this
    {
      Catalog(order, declared, handouts)
    }

    ghost predicate Valid()
      reads this
    {
      State() == After(ops)
    }

    constructor (seeds: Seeds)
      ensures Valid() && this.seeds == seeds && ops == []
    {
      this.seeds := seeds;
      order, declared, handouts, ops := [], map[], map[], [];
    }

    method Register(name: string, retiredAt: Option<string>) returns (r: Result<(), RegisterRefusal>)
      requires Valid()
      modifies this
      ensures Valid() && ops == old(ops) + [Op.Register(name, retiredAt)]
      ensures r.Ok? <==> RegisterIn(old(State()), name, retiredAt).Ok?
      ensures r.Err? ==> r.error == RegisterIn(old(State()), name, retiredAt).error && State() == old(State())
    {
      AfterAppended(ops, Op.Register(name, retiredAt));
      ops := ops + [Op.Register(name, retiredAt)];
      if !IsName(name) {
        return Err(BadName);
      }
      if name in declared {
        return Err(AlreadyRegistered);
      }
      if |order| >= STREAM_COUNT_CEILING {
        return Err(CeilingReached);
      }
      order, declared := order + [name], declared[name := retiredAt];
      return Ok(());
    }

    method Get(name: string, args: map<string, string>) returns (r: Result<Stream, GetRefusal>)
      requires Valid()
      modifies this
      ensures Valid() && ops == old(ops) + [Op.Get(name, args)]
      ensures r == GetFrom(old(State()), seeds, name, args)
      ensures order == old(order) && declared == old(declared)
    {
      AfterAppended(ops, Op.Get(name, args));
      ops := ops + [Op.Get(name, args)];
      if "name" in args || "self" in args {
        return Err(AlreadyBound);
      }
      if name !in declared {
        return Err(Unregistered);
      }
      var retiredAt := declared[name];
      if retiredAt.Some? {
        return Err(Retired(retiredAt.value));
      }
      var required := Required(name);
      var missing := SortedSet(required - args.Keys);
      SortedSetEmpty(required - args.Keys);
      if missing != [] {
        return Err(Missing(missing));
      }
      var unexpected := SortedSet(args.Keys - required);
      SortedSetEmpty(args.Keys - required);
      if unexpected != [] {
        return Err(Unexpected(unexpected));
      }
      SortedSetCorrect(required);
      var resolved := Substitute(name, SortedSet(required), args);
      if resolved.Err? {
        return Err(BadEntity(resolved.error));
      }
      handouts := handouts[name := Counted(State(), name) + 1];
      if !InRange(seeds) {
        return Err(SeedOutOfRange);
      }
      return Ok(Stream(resolved.value, seeds));
    }

    /** The loop of get: one placeholder after another, up to a value that is no entity id. */
    method Substitute(name: string, keys: seq<string>, args: map<string, string>) returns (r: Result<string, string>)
      requires forall k :: k in keys ==> k in args
      ensures r == ResolveWith(name, keys, args)
    {
      var resolved := name;
      assert keys[0..] == keys;
      for i := 0 to |keys|
        invariant forall k :: k in keys[i..] ==> k in args
        invariant ResolveWith(name, keys, args) == ResolveWith(resolved, keys[i..], args)
      {
        assert keys[i] in keys && keys[i..][0] == keys[i] && keys[i..][1..] == keys[i + 1..];
        var value := args[keys[i]];
        if !IsEntityId(value) {
          return Err(keys[i]);
        }
        resolved := Replace(resolved, "{" + keys[i] + "}", value);
      }
      return Ok(resolved);
    }

    /** Handouts by name, sorted by name. */
    method HandoutCounts() returns (r: seq<(string, nat)>)
      requires Valid()
      ensures |r| == |SortedSet(handouts.Keys)|
      ensures forall i :: 0 <= i < |r| ==>
        r[i].0 == SortedSet(handouts.Keys)[i] && r[i].1 == Counted(After(ops), r[i].0)
    {
      var names := SortedSet(handouts.Keys);
      SortedSetCorrect(handouts.Keys);
      r := [];
      for i := 0 to |names|
        invariant |r| == i
        invariant forall j :: 0 <= j < i ==> r[j].0 == names[j] && r[j].1 == Counted(After(ops), names[j])
      {
        assert names[i] in names;
        r := r + [(names[i], handouts[names[i]])];
      }
    }
  }

  lemma AfterAppended(ops: seq<Op>, op: Op)
    ensures After(ops + [op]) == Step(After(ops), op)
  {
    assert (ops + [op])[..|ops|] == ops;
  }

  lemma SortedSetEmpty(s: set<string>)
    ensures SortedSet(s) == [] <==> s == {}
  {
  }

  // ----- what a declaration means -----------------------------------------------------------------

  ghost predicate CatalogHolds(c: Catalog) {
    && NoDup(c.order)
    && (forall name :: name in c.order <==> name in c.declared)
    && (forall name :: name in c.declared ==> IsName(name))
    && |c.order| <= STREAM_COUNT_CEILING
    && (forall name :: name in c.handouts ==> c.handouts[name] >= 1 && name in c.declared && c.declared[name].None?)
  }

  lemma {:induction false} AfterHolds(ops: seq<Op>)
    ensures CatalogHolds(After(ops))
    decreases |ops|
  {
    if ops != [] {
      var c, op := After(ops[..|ops| - 1]), ops[|ops| - 1];
      AfterHolds(ops[..|ops| - 1]);
      if op.Register? {
        NoDupAppended(c.order, op.name);
      }
    }
  }

  /** No name is ever lost, moved or given another marker. */
  lemma {:induction false} DeclaredForever(ops: seq<Op>, more: seq<Op>)
    ensures After(ops).order <= After(ops + more).order
    ensures forall name :: name in After(ops).declared ==>
      name in After(ops + more).declared && After(ops + more).declared[name] == After(ops).declared[name]
    decreases |more|
  {
    if more == [] {
      assert ops + more == ops;
    } else {
      var front, last := more[..|more| - 1], more[|more| - 1];
      DeclaredForever(ops, front);
      AfterAppended(ops + front, last);
      assert ops + front + [last] == ops + more;
      StepKeepsDeclared(After(ops + front), last);
    }
  }

  lemma StepKeepsDeclared(c: Catalog, op: Op)
    ensures c.order <= Step(c, op).order
    ensures forall name :: name in c.declared ==>
      name in Step(c, op).declared && Step(c, op).declared[name] == c.declared[name]
  {
  }

  /** Operation i is a registration that was accepted. */
  ghost predicate Declares(ops: seq<Op>, i: nat, name: string, retiredAt: Option<string>)
    requires i < |ops|
  {
    ops[i] == Register(name, retiredAt) && RegisterIn(After(ops[..i]), name, retiredAt).Ok?
  }

  ghost predicate DeclaredBy(ops: seq<Op>, name: string, retiredAt: Option<string>) {
    exists i: nat :: i < |ops| && Declares(ops, i, name, retiredAt)
  }

  lemma DeclaresStays(ops: seq<Op>, op: Op, i: nat, name: string, retiredAt: Option<string>)
    requires i < |ops|
    ensures Declares(ops + [op], i, name, retiredAt) <==> Declares(ops, i, name, retiredAt)
  {
    assert (ops + [op])[..i] == ops[..i];
  }

  lemma DeclaredByAppended(ops: seq<Op>, op: Op, name: string, retiredAt: Option<string>)
    ensures DeclaredBy(ops + [op], name, retiredAt) <==>
      DeclaredBy(ops, name, retiredAt)
        || (op == Register(name, retiredAt) && RegisterIn(After(ops), name, retiredAt).Ok?)
  {
    var all := ops + [op];
    assert all[..|ops|] == ops;
    forall i: nat | i < |ops| ensures Declares(all, i, name, retiredAt) <==> Declares(ops, i, name, retiredAt) {
      DeclaresStays(ops, op, i, name, retiredAt);
    }
    if DeclaredBy(ops, name, retiredAt) {
      var i: nat :| i < |ops| && Declares(ops, i, name, retiredAt);
      assert Declares(all, i, name, retiredAt);
    }
    if op == Register(name, retiredAt) && RegisterIn(After(ops), name, retiredAt).Ok? {
      assert Declares(all, |ops|, name, retiredAt);
    }
  }

  /** The catalog holds exactly the registrations that were accepted. */
  lemma {:induction false} CatalogIsTheRegistrations(ops: seq<Op>, name: string, retiredAt: Option<string>)
    ensures (name in After(ops).declared && After(ops).declared[name] == retiredAt) <==>
      DeclaredBy(ops, name, retiredAt)
    decreases |ops|
  {
    if ops != [] {
      var front, last := ops[..|ops| - 1], ops[|ops| - 1];
      CatalogIsTheRegistrations(front, name, retiredAt);
      DeclaredByAppended(front, last, name, retiredAt);
      assert ops == front + [last];
      AfterAppended(front, last);
      StepDeclares(After(front), last, name, retiredAt);
    }
  }

  lemma StepDeclares(c: Catalog, op: Op, name: string, retiredAt: Option<string>)
    ensures (name in Step(c, op).declared && Step(c, op).declared[name] == retiredAt) <==>
      || (name in c.declared && c.declared[name] == retiredAt)
      || (op == Register(name, retiredAt) && RegisterIn(c, name, retiredAt).Ok?)
  {
  }

  /** The legal names some registration asked for. */
  function NamesAsked(ops: seq<Op>): set<string> {
    set op | op in ops && op.Register? && IsName(op.name) :: op.name
  }

  lemma {:induction false} DeclaredWereAsked(ops: seq<Op>)
    ensures After(ops).declared.Keys <= NamesAsked(ops)
    ensures |NamesAsked(ops)| <= 750_000 ==> After(ops).declared.Keys == NamesAsked(ops)
    decreases |ops|
  {
    if ops != [] {
      var front, last := ops[..|ops| - 1], ops[|ops| - 1];
      assert ops == front + [last];
      DeclaredWereAsked(front);
      AfterAppended(front, last);
      AfterHolds(front);
      DeclaredCount(After(front));
      AskedAppended(front, last);
      StepAsks(After(front), last, NamesAsked(front));
    }
  }

  function Asks(op: Op): set<string> {
    if op.Register? && IsName(op.name) then {op.name} else {}
  }

  lemma AskedAppended(ops: seq<Op>, op: Op)
    ensures NamesAsked(ops + [op]) == NamesAsked(ops) + Asks(op)
  {
  }

  lemma StepAsks(c: Catalog, op: Op, asked: set<string>)
    requires c.declared.Keys <= asked && (|asked| <= 750_000 ==> c.declared.Keys == asked)
      && |c.order| == |c.declared.Keys|
    ensures Step(c, op).declared.Keys <= asked + Asks(op)
    ensures |asked + Asks(op)| <= 750_000 ==> Step(c, op).declared.Keys == asked + Asks(op)
  {
    if Asks(op) <= asked {
      assert asked + Asks(op) == asked;
      StepOnOld(c, op);
    } else {
      assert |asked + {op.name}| == |asked| + 1;
      StepOnNew(c, op);
    }
  }

  lemma StepOnOld(c: Catalog, op: Op)
    ensures c.declared.Keys <= Step(c, op).declared.Keys <= c.declared.Keys + Asks(op)
  {
  }

  lemma StepOnNew(c: Catalog, op: Op)
    requires Asks(op) != {} && op.name !in c.declared
    ensures Step(c, op).declared.Keys ==
      c.declared.Keys + if |c.order| < STREAM_COUNT_CEILING then {op.name} else {}
  {
  }

  lemma DeclaredCount(c: Catalog)
    requires CatalogHolds(c)
    ensures |c.order| == |c.declared.Keys|
  {
    NoDupSize(c.order);
    assert Elems(c.order) == c.declared.Keys;
  }

  /** As long as no more than the ceiling of names were ever asked for, a registration is accepted exactly if its name
      is legal and nobody asked for it before; with the ceiling reached none is. */
  lemma AcceptedIff(ops: seq<Op>, name: string, retiredAt: Option<string>)
    ensures |NamesAsked(ops)| < 750_000 ==>
      (RegisterIn(After(ops), name, retiredAt).Ok? <==> IsName(name) && name !in NamesAsked(ops))
    ensures |After(ops).declared.Keys| >= 750_000 ==> RegisterIn(After(ops), name, retiredAt).Err?
  {
    DeclaredWereAsked(ops);
    AfterHolds(ops);
    DeclaredCount(After(ops));
  }

  /** What a refusal names. */
  ghost predicate RefusedRightly(c: Catalog, seeds: Seeds, name: string, args: map<string, string>, why: GetRefusal) {
    match why
    case AlreadyBound => "name" in args || "self" in args
    case Unregistered => name !in c.declared
    case Retired(at) => name in c.declared && c.declared[name] == Some(at)
    case Missing(keys) =>
      keys != [] && StrictlySorted(keys) && forall k :: k in keys <==> k in Required(name) && k !in args
    case Unexpected(keys) =>
      keys != [] && StrictlySorted(keys) && forall k :: k in keys <==> k in args && k !in Required(name)
    case BadEntity(key) => key in args && !IsEntityId(args[key])
    case SeedOutOfRange => !InRange(seeds)
  }

  /** Every refusal is for the reason it gives, and lists exactly the keys it is about, in order. */
  lemma RefusalsAre(c: Catalog, seeds: Seeds, name: string, args: map<string, string>)
    requires GetFrom(c, seeds, name, args).Err?
    ensures RefusedRightly(c, seeds, name, args, GetFrom(c, seeds, name, args).error)
  {
    var missing, unexpected := Required(name) - args.Keys, args.Keys - Required(name);
    SortedSetCorrect(missing);
    SortedSetCorrect(unexpected);
    SortedSetEmpty(missing);
    SortedSetEmpty(unexpected);
    if missing == {} && Address(name, args).Err? { BadKeyIsBad(name, args); }
  }

  lemma BadKeyIsBad(name: string, args: map<string, string>)
    requires Required(name) <= args.Keys && Address(name, args).Err?
    ensures Address(name, args).error in args && !IsEntityId(args[Address(name, args).error])
  {
    SortedSetCorrect(Required(name));
    FirstBadKey(name, SortedSet(Required(name)), args);
  }

  lemma {:induction false} FirstBadKey(text: string, keys: seq<string>, args: map<string, string>)
    requires (forall k :: k in keys ==> k in args) && ResolveWith(text, keys, args).Err?
    ensures ResolveWith(text, keys, args).error in args && !IsEntityId(args[ResolveWith(text, keys, args).error])
    decreases |keys|
  {
    if keys != [] && IsEntityId(args[keys[0]]) {
      FirstBadKey(Replace(text, "{" + keys[0] + "}", args[keys[0]]), keys[1..], args);
    }
  }

  // ----- handouts -------------------------------------------------------------------------------------

  /** How many of the run's requests for name handed out a generator. */
  function Successes(ops: seq<Op>, seeds: Seeds, name: string): nat {
    if ops == [] then 0
    else
      var front, op := ops[..|ops| - 1], ops[|ops| - 1];
      Successes(front, seeds, name)
      + if op.Get? && op.name == name && GetFrom(After(front), seeds, name, op.args).Ok? then 1 else 0
  }

  lemma {:induction false} CountsAreSuccesses(ops: seq<Op>, seeds: Seeds, name: string)
    requires InRange(seeds)
    ensures Counted(After(ops), name) == Successes(ops, seeds, name)
    decreases |ops|
  {
    if ops != [] {
      CountsAreSuccesses(ops[..|ops| - 1], seeds, name);
    }
  }

  lemma {:induction false} NoSuccesses(ops: seq<Op>, seeds: Seeds, name: string)
    requires !InRange(seeds)
    ensures Successes(ops, seeds, name) == 0
    decreases |ops|
  {
    if ops != [] {
      NoSuccesses(ops[..|ops| - 1], seeds, name);
    }
  }

  ghost predicate CountsFaithful(seeds: Seeds) {
    forall ops, name :: Counted(After(ops), name) == Successes(ops, seeds, name)
  }

  lemma OneHandoutCounted(name: string) returns (ops: seq<Op>)
    requires IsName(name) && Required(name) == {}
    ensures Counted(After(ops), name) == 1
  {
    var register, get := Register(name, None), Get(name, map[]);
    AfterAppended([], register);
    assert [] + [register] == [register];
    AfterAppended([register], get);
    assert [register] + [get] == [register, get];
    ops := [register, get];
    var c := After([register]);
    assert name in c.declared && c.declared[name].None?;
    assert Arguments(name, map[]);
    AddressIsFilled(name, map[]);
    assert Resolved(c, name, map[]).Ok?;
  }

  /** The handout counts are the successful requests in every run exactly when the seeds fit their words: a request
      whose derivation then fails has been counted already. */
  lemma CountsFaithfulIff(seeds: Seeds)
    ensures CountsFaithful(seeds) <==>
      0 <= seeds.base <= 18_446_744_073_709_551_615 && 0 <= seeds.replication <= 18_446_744_073_709_551_615
  {
    if InRange(seeds) {
      forall ops, name ensures Counted(After(ops), name) == Successes(ops, seeds, name) {
        CountsAreSuccesses(ops, seeds, name);
      }
    } else {
      var plain := PlainIsName();
      var ops := OneHandoutCounted(plain);
      NoSuccesses(ops, seeds, plain);
    }
  }

  /** A request that once was answered is answered the same way ever after, whatever else was declared. */
  lemma AnswersAreStable(ops: seq<Op>, more: seq<Op>, seeds: Seeds, name: string, args: map<string, string>)
    requires GetFrom(After(ops), seeds, name, args).Ok?
    ensures GetFrom(After(ops + more), seeds, name, args) == GetFrom(After(ops), seeds, name, args)
  {
    DeclaredForever(ops, more);
  }

  /** A retired name is refused for good. */
  lemma RetiredForever(ops: seq<Op>, more: seq<Op>, name: string, args: map<string, string>)
    requires name in After(ops).declared && After(ops).declared[name].Some?
    ensures Resolved(After(ops + more), name, args).Err?
  {
    DeclaredForever(ops, more);
  }

  /** Exactly which requests are answered. */
  lemma AnsweredIff(ops: seq<Op>, seeds: Seeds, name: string, args: map<string, string>)
    ensures GetFrom(After(ops), seeds, name, args).Ok? <==>
      && InRange(seeds) && DeclaredBy(ops, name, None) && Arguments(name, args) && "name" !in args && "self" !in args
  {
    AfterHolds(ops);
    CatalogIsTheRegistrations(ops, name, None);
    if name in After(ops).declared {
      ResolvedIff(After(ops), name, args);
    }
  }

  lemma ResolvedIff(c: Catalog, name: string, args: map<string, string>)
    ensures Resolved(c, name, args).Ok? <==>
      && "name" !in args && "self" !in args && name in c.declared && c.declared[name].None? && Arguments(name, args)
  {
    EmptyDifference(Required(name), args.Keys);
    EmptyDifference(args.Keys, Required(name));
    if args.Keys == Required(name) {
      EntitiesAreNeeded(name, args);
    }
  }

  lemma {:induction false} ResolveNeedsEntities(text: string, keys: seq<string>, args: map<string, string>)
    requires forall k :: k in keys ==> k in args
    ensures ResolveWith(text, keys, args).Ok? <==> forall k :: k in keys ==> IsEntityId(args[k])
    decreases |keys|
  {
    if keys != [] && IsEntityId(args[keys[0]]) {
      ResolveNeedsEntities(Replace(text, "{" + keys[0] + "}", args[keys[0]]), keys[1..], args);
      assert keys == [keys[0]] + keys[1..];
    }
  }

  lemma EntitiesAreNeeded(name: string, args: map<string, string>)
    requires args.Keys == Required(name)
    ensures Address(name, args).Ok? <==> Arguments(name, args)
  {
    SortedSetCorrect(Required(name));
    ResolveNeedsEntities(name, SortedSet(Required(name)), args);
  }

  /** A name with a placeholder called name or self can be declared, and never handed out. */
  lemma NameAndSelfAreNeverAnswered(ops: seq<Op>, seeds: Seeds, name: string, args: map<string, string>)
    requires "name" in Required(name) || "self" in Required(name)
    ensures GetFrom(After(ops), seeds, name, args).Err?
  {
    AnsweredIff(ops, seeds, name, args);
  }

  lemma AnsweredLegally(ops: seq<Op>, seeds: Seeds, name: string, args: map<string, string>)
    requires GetFrom(After(ops), seeds, name, args).Ok?
    ensures IsName(name) && Arguments(name, args)
  {
    AfterHolds(ops);
    AnsweredIff(ops, seeds, name, args);
  }

  lemma AnswerIsTheAddress(c: Catalog, seeds: Seeds, name: string, args: map<string, string>)
    requires GetFrom(c, seeds, name, args).Ok?
    ensures Required(name) == args.Keys
    ensures Address(name, args) == Ok(GetFrom(c, seeds, name, args).value.address)
  {
    assert Required(name) - args.Keys == {} && args.Keys - Required(name) == {};
  }

  /** Two requests to one name are handed the same stream exactly when their arguments agree. */
  lemma StreamsAreDistinct(ops: seq<Op>, seeds: Seeds, name: string, a: map<string, string>, b: map<string, string>)
    requires GetFrom(After(ops), seeds, name, a).Ok? && GetFrom(After(ops), seeds, name, b).Ok?
    ensures GetFrom(After(ops), seeds, name, a) == GetFrom(After(ops), seeds, name, b) <==> a == b
  {
    AnsweredLegally(ops, seeds, name, a);
    AnsweredLegally(ops, seeds, name, b);
    AnswerIsTheAddress(After(ops), seeds, name, a);
    AnswerIsTheAddress(After(ops), seeds, name, b);
    AddressesAreInjective(name, a, b);
  }

  // ----- streams across names ----------------------------------------------------------------------

  /** Some request for the name can be answered. */
  ghost predicate Answerable(ops: seq<Op>, name: string) {
    DeclaredBy(ops, name, None) && "name" !in Required(name) && "self" !in Required(name)
  }

  /** Different requests that are answered get different streams. */
  ghost predicate StreamsTellRequests(ops: seq<Op>, seeds: Seeds) {
    forall m, a, n, b :: SameStream(ops, seeds, m, a, n, b) ==> m == n && a == b
  }

  ghost predicate SameStream(ops: seq<Op>, seeds: Seeds, m: string, a: map<string, string>, n: string,
        b: map<string, string>) {
    var c := After(ops);
    GetFrom(c, seeds, m, a).Ok? && GetFrom(c, seeds, n, b).Ok? && GetFrom(c, seeds, m, a) == GetFrom(c, seeds, n, b)
  }

  ghost predicate NamesOverlap(m: string, n: string) {
    IsName(m) && IsName(n) && Overlap(m, n)
  }

  lemma AnsweredByCollision(ops: seq<Op>, seeds: Seeds, m: string, a: map<string, string>, n: string,
        b: map<string, string>)
    requires GetFrom(After(ops), seeds, m, a).Ok? && GetFrom(After(ops), seeds, n, b).Ok?
    ensures IsName(m) && IsName(n) && (SameStream(ops, seeds, m, a, n, b) <==> Collide(m, a, n, b))
  {
    AnsweredLegally(ops, seeds, m, a);
    AnsweredLegally(ops, seeds, n, b);
    AnswerIsTheAddress(After(ops), seeds, m, a);
    AnswerIsTheAddress(After(ops), seeds, n, b);
  }

  lemma AnswerableIsAnswered(ops: seq<Op>, seeds: Seeds, name: string, args: map<string, string>)
    requires InRange(seeds) && Answerable(ops, name) && Arguments(name, args)
    ensures GetFrom(After(ops), seeds, name, args).Ok?
  {
    AnsweredIff(ops, seeds, name, args);
  }

  lemma AnsweredIsAnswerable(ops: seq<Op>, seeds: Seeds, name: string, args: map<string, string>)
    requires GetFrom(After(ops), seeds, name, args).Ok?
    ensures Answerable(ops, name)
  {
    AnsweredIff(ops, seeds, name, args);
  }

  ghost predicate NoTwoOverlap(ops: seq<Op>) {
    forall m, n :: Answerable(ops, m) && Answerable(ops, n) && NamesOverlap(m, n) ==> m == n
  }

  lemma OverlapSharesAStream(ops: seq<Op>, seeds: Seeds, m: string, n: string)
      returns (a: map<string, string>, b: map<string, string>)
    requires InRange(seeds) && Answerable(ops, m) && Answerable(ops, n) && NamesOverlap(m, n)
    ensures SameStream(ops, seeds, m, a, n, b)
  {
    a, b := OverlapGives(m, n);
    AnswerableIsAnswered(ops, seeds, m, a);
    AnswerableIsAnswered(ops, seeds, n, b);
    AnsweredByCollision(ops, seeds, m, a, n, b);
  }

  lemma SharedStreamOverlaps(ops: seq<Op>, seeds: Seeds, m: string, a: map<string, string>, n: string,
        b: map<string, string>)
    requires SameStream(ops, seeds, m, a, n, b)
    ensures Answerable(ops, m) && Answerable(ops, n) && NamesOverlap(m, n) && (m == n ==> a == b)
  {
    AnsweredIsAnswerable(ops, seeds, m, a);
    AnsweredIsAnswerable(ops, seeds, n, b);
    AnsweredByCollision(ops, seeds, m, a, n, b);
    CollideIffOverlap(m, n);
    if m == n {
      StreamsAreDistinct(ops, seeds, m, a, b);
    }
  }

  /** After any run, different answered requests get different streams exactly when no two different answerable names
      overlap. */
  lemma StreamsTellRequestsIff(ops: seq<Op>, seeds: Seeds)
    requires InRange(seeds)
    ensures StreamsTellRequests(ops, seeds) <==> NoTwoOverlap(ops)
  {
    if StreamsTellRequests(ops, seeds) {
      forall m, n | Answerable(ops, m) && Answerable(ops, n) && NamesOverlap(m, n) ensures m == n {
        var a, b := OverlapSharesAStream(ops, seeds, m, n);
      }
    }
    if NoTwoOverlap(ops) {
      forall m, a, n, b | SameStream(ops, seeds, m, a, n, b) ensures m == n && a == b {
        SharedStreamOverlaps(ops, seeds, m, a, n, b);
      }
    }
  }
}
