/** The portal reader: the accumulator it updates in place, what it publishes, and the two faults it reports. */
module Portal {
  import opened Options
  import opened Sorting
  import opened Text
  import opened TagReads
  import opened Inventory

  class InventoryAccumulator {
    const zone: Zone
    var keys: seq<Key>
    var aggregates: map<Key, ReadAggregate>
    var epcs: seq<string>
    var droppedEpcs: seq<string>
    var droppedReads: nat
    var filteredReads: nat
    ghost var history: seq<TagRead>

    function State(): Stock
      reads this
    {
      Stock(keys, aggregates, epcs, droppedEpcs, droppedReads, filteredReads)
    }

    /** The dictionaries and counters are exactly those that the offers so far leave. */
    ghost predicate Valid()
      reads this
    {
      zone.cap >= 1 && State() == After(zone, history)
    }

    constructor (zone: Zone)
      requires zone.cap >= 1
      ensures Valid() && this.zone == zone && history == []
    {
      this.zone := zone;
      keys, aggregates, epcs, droppedEpcs, droppedReads, filteredReads := [], map[], [], [], 0, 0;
      history := [];
    }

    method Offer(read: TagRead) returns (accumulated: bool)
      requires Valid()
      modifies this
      ensures Valid() && history == old(history) + [read]
      ensures accumulated <==> read.epc in Tracked(zone, history)
    {
      AfterOffer(zone, history, read);
      history := history + [read];
      if zone.filter.Some? && !StartsWith(read.epc, zone.filter.value) {
        filteredReads := filteredReads + 1;
        return false;
      }
      var key := KeyOf(read);
      var existing := if key in aggregates then Some(aggregates[key]) else None;
      if existing.None? && read.epc !in epcs {
        if |epcs| >= zone.cap {
          droppedEpcs := if read.epc in droppedEpcs then droppedEpcs else droppedEpcs + [read.epc];
          droppedReads := droppedReads + 1;
          return false;
        }
        epcs := epcs + [read.epc];
      }
      keys := if key in keys then keys else keys + [key];
      aggregates := aggregates[key := Accumulate(existing, read)];
      return true;
    }

    /** The aggregates in the order of tag and antenna. */
    method Aggregates() returns (r: seq<ReadAggregate>)
      requires Valid()
      ensures r == Listing(zone, history)
    {
      AfterTagsHold(zone, history);
      SortedKeysKnown(After(zone, history));
      r := Gather(aggregates, Sort(KeyLeq, keys));
    }

    lemma KeyIsSummary(i: nat)
      requires Valid() && i < |keys|
      ensures keys[i] in aggregates
      ensures aggregates[keys[i]].readCount == CountAt(history)(keys[i])
      ensures MeanOf(aggregates[keys[i]].rssiMean, aggregates[keys[i]].readCount, WeightAt(history)(keys[i]))
    {
      InventoryIsTheFold(zone, history);
      assert keys[i] in keys && KeyHolds(zone, State(), history, keys[i]);
    }

    method TotalReads() returns (total: nat)
      requires Valid()
      ensures total == Count(Taken(zone, history))
    {
      total := 0;
      for i := 0 to |keys|
        invariant total == KeySum(CountAt(history), keys[..i])
      {
        KeyIsSummary(i);
        assert keys[..i + 1][..i] == keys[..i];
        total := total + aggregates[keys[i]].readCount;
      }
      assert keys[..|keys|] == keys;
      TotalsAreOfTheTaken(zone, history);
    }

    method MeanRssiDbm() returns (mean: Option<real>)
      requires Valid()
      ensures mean == MeanLevel(Taken(zone, history))
    {
      var total := TotalReads();
      if total == 0 {
        return None;
      }
      var weighted := 0.0;
      for i := 0 to |keys|
        invariant weighted == KeySum(WeightAt(history), keys[..i]) as real
      {
        KeyIsSummary(i);
        assert keys[..i + 1][..i] == keys[..i];
        weighted := weighted + aggregates[keys[i]].rssiMean * aggregates[keys[i]].readCount as real;
      }
      assert keys[..|keys|] == keys;
      TotalsAreOfTheTaken(zone, history);
      return Some(weighted / total as real);
    }
  }

  method Gather(m: map<Key, ReadAggregate>, keys: seq<Key>) returns (r: seq<ReadAggregate>)
    requires forall k :: k in keys ==> k in m
    ensures r == Values(m, keys)
  {
    r := [];
    for i := 0 to |keys|
      invariant |r| == i && forall j :: 0 <= j < i ==> r[j] == m[keys[j]]
    {
      r := r + [m[keys[i]]];
    }
  }

  lemma AfterOffer(z: Zone, rs: seq<TagRead>, read: TagRead)
    ensures After(z, rs + [read]) == Offered(z, After(z, rs), read)
    ensures Took(z, After(z, rs), read) <==> read.epc in Tracked(z, rs + [read])
  {
    assert (rs + [read])[..|rs|] == rs;
    AfterTagsHold(z, rs);
    StepTagsHold(z, After(z, rs), rs, read);
  }

  /** Err is the ValueError of a cap that tracks nothing. */
  method NewAccumulator(maxEpcs: int, filter: Option<string>) returns (r: Result<InventoryAccumulator, string>)
    ensures r.Ok? <==> maxEpcs >= 1
    ensures r.Ok? ==>
      fresh(r.value) && r.value.Valid() && r.value.history == [] && r.value.zone == Zone(maxEpcs, filter)
  {
    if maxEpcs < 1 {
      return Err("max_epcs");
    }
    var accumulator := new InventoryAccumulator(Zone(maxEpcs, filter));
    return Ok(accumulator);
  }

  // ----- faults -----------------------------------------------------------------------------

  datatype PortalFault = Unreachable | Silent

  function Diagnose(reachable: bool, since: int, threshold: int): Option<PortalFault> {
    if !reachable then Some(Unreachable) else if since > threshold then Some(Silent) else None
  }

  datatype ReaderConfig = ReaderConfig(sensitivityDbm: int, silenceThreshold: int, maxEpcs: int,
        epcPrefix: Option<string>)

  datatype ReaderRefusal = BadSensitivity | BadThreshold | BadPrefix(why: FilterRefusal) | BadCap

  /** The read zone a configuration describes, or the first refusal on the way to a reader. */
  function ZoneOf(c: ReaderConfig): (r: Result<Zone, ReaderRefusal>)
    ensures r.Ok? ==> r.value.cap >= 1
  {
    if c.sensitivityDbm >= 0 then Err(BadSensitivity)
    else if c.silenceThreshold < 1 then Err(BadThreshold)
    else
      var filter := if c.epcPrefix.None? then Ok(None)
                    else match NewFilter(c.epcPrefix.value)
                         case Ok(prefix) => Ok(Some(prefix))
                         case Err(why) => Err(BadPrefix(why));
      if filter.Err? then Err(filter.error)
      else if c.maxEpcs < 1 then Err(BadCap)
      else Ok(Zone(c.maxEpcs, filter.value))
  }

  /** One call of observe; now is the caller's instant, if it gave one. */
  datatype Observation = Observation(read: TagRead, now: Option<int>)

  function StampOf(o: Observation): int {
    if o.now.Some? then o.now.value else o.read.simTs
  }

  /** The reads the reader did not refuse as too weak to happen. */
  function Sensed(c: ReaderConfig, obs: seq<Observation>): seq<TagRead> {
    if obs == [] then []
    else
      var front, last := Sensed(c, obs[..|obs| - 1]), obs[|obs| - 1];
      if last.read.rssiDbm < c.sensitivityDbm then front else front + [last.read]
  }

  /** What the reader remembers of when it last read something. */
  function LastRead(c: ReaderConfig, z: Zone, obs: seq<Observation>): Option<int> {
    if obs == [] then None
    else
      var front, last := obs[..|obs| - 1], obs[|obs| - 1];
      if last.read.rssiDbm >= c.sensitivityDbm && last.read.epc in Tracked(z, Sensed(c, obs)) then Some(StampOf(last))
      else LastRead(c, z, front)
  }

  function FaultAt(c: ReaderConfig, last: Option<int>, now: int, reachable: bool): Option<PortalFault> {
    Diagnose(reachable, now - (if last.Some? then last.value else now), c.silenceThreshold)
  }

  class PortalReader {
    const config: ReaderConfig
    const inventory: InventoryAccumulator
    var lastReadTs: Option<int>
    ghost var seen: seq<Observation>

    ghost predicate Valid()
      reads this, inventory
    {
      && inventory.Valid()
      && ZoneOf(config) == Ok(inventory.zone)
      && inventory.history == Sensed(config, seen)
      && lastReadTs == LastRead(config, inventory.zone, seen)
    }

    constructor (config: ReaderConfig, inventory: InventoryAccumulator)
      requires inventory.Valid() && ZoneOf(config) == Ok(inventory.zone) && inventory.history == []
      ensures Valid() && this.config == config && this.inventory == inventory && seen == []
    {
      this.config, this.inventory := config, inventory;
      lastReadTs, seen := None, [];
    }

    /** Err is the refusal of a read too weak to happen; it changes nothing. */
    method Observe(read: TagRead, now: Option<int>) returns (r: Result<bool, string>)
      requires Valid()
      modifies this, inventory
      ensures Valid() && seen == old(seen) + [Observation(read, now)]
      ensures r.Err? <==> read.rssiDbm < config.sensitivityDbm
      ensures r.Err? ==> inventory.history == old(inventory.history) && lastReadTs == old(lastReadTs)
      ensures r.Ok? ==> inventory.history == old(inventory.history) + [read]
      ensures r.Ok? ==> (r.value <==> read.epc in Tracked(inventory.zone, inventory.history))
      ensures r.Ok? ==> lastReadTs == if r.value then Some(StampOf(Observation(read, now))) else old(lastReadTs)
    {
      ghost var before := seen;
      seen := seen + [Observation(read, now)];
      assert seen[..|seen| - 1] == before;
      if read.rssiDbm < config.sensitivityDbm {
        return Err("below sensitivity");
      }
      var accumulated := inventory.Offer(read);
      if accumulated {
        lastReadTs := Some(if now.Some? then now.value else read.simTs);
      }
      return Ok(accumulated);
    }

    function Fault(now: int, reachable: bool): Option<PortalFault>
      reads this
    {
      FaultAt(config, lastReadTs, now, reachable)
    }

    method Telemetry(now: int, readRate: Option<real>, expected: Option<int>, reachable: bool)
          returns (t: PortalTelemetry)
      requires Valid()
      ensures t == TelemetryOf(config, inventory.zone, seen, now, readRate, expected, reachable)
    {
      AfterTagsHold(inventory.zone, inventory.history);
      var total := inventory.TotalReads();
      var mean := inventory.MeanRssiDbm();
      t := PortalTelemetry(now, |inventory.epcs|, total, |inventory.droppedEpcs|, readRate, expected, mean,
        Fault(now, reachable));
    }
  }

  datatype PortalTelemetry = PortalTelemetry(deviceTs: int, uniqueEpcs: nat, readsTotal: nat, droppedNewEpcs: nat,
                                             readRate: Option<real>, tagsExpected: Option<int>, rssiMean: Option<real>,
                                             fault: Option<PortalFault>)

  /** The window as a function of everything the reader was shown. */
  ghost function TelemetryOf(c: ReaderConfig, z: Zone, obs: seq<Observation>, now: int, readRate: Option<real>,
                             expected: Option<int>, reachable: bool): PortalTelemetry {
    var rs := Sensed(c, obs);
    PortalTelemetry(now, |Tracked(z, rs)|, Count(Taken(z, rs)), |Turned(z, rs)|, readRate, expected,
                    MeanLevel(Taken(z, rs)), FaultAt(c, LastRead(c, z, obs), now, reachable))
  }

  method NewReader(config: ReaderConfig) returns (r: Result<PortalReader, ReaderRefusal>)
    ensures r.Err? <==> ZoneOf(config).Err?
    ensures r.Err? ==> r.error == ZoneOf(config).error
    ensures r.Ok? ==> fresh(r.value) && fresh(r.value.inventory) && r.value.Valid()
                      && r.value.config == config && r.value.seen == []
  {
    var zone := ZoneOf(config);
    if zone.Err? {
      return Err(zone.error);
    }
    var inventory := new InventoryAccumulator(zone.value);
    var reader := new PortalReader(config, inventory);
    return Ok(reader);
  }

  // ----- configurations and windows, in their fields --------------------------------------------

  /** Which configurations make a reader, and which refusal the others meet first. */
  lemma ConfigurationsAre(c: ReaderConfig)
    ensures ZoneOf(c).Ok? <==>
      && c.sensitivityDbm < 0 && c.silenceThreshold >= 1 && c.maxEpcs >= 1
      && (c.epcPrefix.Some? ==>
           Strip(c.epcPrefix.value) != "" && exists epc :: IsEpc(epc) && StartsWith(epc, Strip(c.epcPrefix.value)))
    ensures ZoneOf(c).Ok? ==>
      && ZoneOf(c).value.cap == c.maxEpcs
      && ZoneOf(c).value.filter == if c.epcPrefix.Some? then Some(Strip(c.epcPrefix.value)) else None
    ensures ZoneOf(c) == Err(BadSensitivity) <==> c.sensitivityDbm >= 0
    ensures ZoneOf(c) == Err(BadThreshold) <==> c.sensitivityDbm < 0 && c.silenceThreshold < 1
    ensures ZoneOf(c) == Err(BadCap) ==> c.maxEpcs < 1
  {
    if c.epcPrefix.Some? { FilterAcceptsIffItCanMatch(c.epcPrefix.value); }
  }

  /** Strong enough for the reader, and of a tag in its read zone. */
  predicate InZone(c: ReaderConfig, r: TagRead) {
    r.rssiDbm >= c.sensitivityDbm && (c.epcPrefix.Some? ==> StartsWith(r.epc, Strip(c.epcPrefix.value)))
  }

  function TagsSeen(c: ReaderConfig, obs: seq<Observation>): set<string> {
    set o | o in obs && InZone(c, o.read) :: o.read.epc
  }

  lemma {:induction false} SensedAre(c: ReaderConfig, obs: seq<Observation>, r: TagRead)
    ensures r in Sensed(c, obs) <==> r.rssiDbm >= c.sensitivityDbm && exists o :: o in obs && o.read == r
    decreases |obs|
  {
    if obs != [] {
      var front, last := obs[..|obs| - 1], obs[|obs| - 1];
      SensedAre(c, front, r);
      assert obs == front + [last];
    }
  }

  lemma ArrivalsAreSeen(c: ReaderConfig, z: Zone, obs: seq<Observation>)
    requires ZoneOf(c) == Ok(z)
    ensures Elems(Arrivals(z, Sensed(c, obs))) == TagsSeen(c, obs)
  {
    var rs := Sensed(c, obs);
    ArrivalsAre(z, rs);
    ConfigurationsAre(c);
    forall e ensures e in Arrivals(z, rs) <==> e in TagsSeen(c, obs) {
      if e in Arrivals(z, rs) {
        var r :| r in rs && r.epc == e;
        SensedAre(c, obs, r);
      }
      if e in TagsSeen(c, obs) {
        var o :| o in obs && InZone(c, o.read) && o.read.epc == e;
        SensedAre(c, obs, o.read);
      }
    }
  }

  /** Of the tags the reader saw in its zone a window counts up to the cap as unique, and the others as dropped; the
      rest of it is what the caller passed, and what the tracked tags' reads come to. */
  lemma WindowCounts(c: ReaderConfig, z: Zone, obs: seq<Observation>, now: int, readRate: Option<real>,
                     expected: Option<int>, reachable: bool)
    requires ZoneOf(c) == Ok(z)
    ensures var t, tags := TelemetryOf(c, z, obs, now, readRate, expected, reachable), |TagsSeen(c, obs)|;
      && t.uniqueEpcs == (if tags <= c.maxEpcs then tags else c.maxEpcs)
      && t.uniqueEpcs + t.droppedNewEpcs == tags
      && t.readsTotal == Count(Taken(z, Sensed(c, obs))) >= t.uniqueEpcs
      && t.deviceTs == now && t.readRate == readRate && t.tagsExpected == expected
      && (t.rssiMean.None? <==> tags == 0)
  {
    var rs := Sensed(c, obs);
    ConfigurationsAre(c);
    ArrivalsAre(z, rs);
    ArrivalsAreSeen(c, z, obs);
    NoDupSize(Arrivals(z, rs));
    CountCoversTags(z, rs);
  }

  /** Every tracked tag was read at least once. */
  lemma CountCoversTags(z: Zone, rs: seq<TagRead>)
    ensures Count(Taken(z, rs)) >= |Tracked(z, rs)|
    ensures MeanLevel(Taken(z, rs)).None? <==> Tracked(z, rs) == []
  {
    TrackedIs(z, rs);
    ArrivalsAre(z, rs);
    forall e | e in Tracked(z, rs) ensures exists r :: r in Taken(z, rs) && r.epc == e {
      assert e in Arrivals(z, rs);
      var r :| r in rs && r.epc == e;
      assert r in Taken(z, rs);
    }
    ReadsCoverTags(Taken(z, rs), Tracked(z, rs));
    if Tracked(z, rs) == [] { assert Taken(z, rs) == []; }
  }

  lemma {:induction false} ReadsCoverTags(rs: seq<TagRead>, tags: seq<string>)
    requires NoDup(tags) && forall e :: e in tags ==> exists r :: r in rs && r.epc == e
    ensures Count(rs) >= |tags|
    decreases |rs|
  {
    assert tags != [] ==> tags[0] in tags;
    if rs != [] {
      var front, last := rs[..|rs| - 1], rs[|rs| - 1];
      assert rs == front + [last];
      if last.epc in tags {
        var i := IndexOf(tags, last.epc);
        var rest := tags[..i] + tags[i + 1..];
        forall e | e in rest ensures exists r :: r in front && r.epc == e {
          assert e in tags && e != last.epc;
          var r :| r in rs && r.epc == e;
          assert r in front;
        }
        ReadsCoverTags(front, rest);
      } else {
        forall e | e in tags ensures exists r :: r in front && r.epc == e {
          var r :| r in rs && r.epc == e;
          assert r in front;
        }
        ReadsCoverTags(front, tags);
      }
    }
  }

  // ----- when silence is reported ---------------------------------------------------------------

  /** Observation i is a read of a tag that the inventory tracks. */
  predicate Counts(c: ReaderConfig, z: Zone, obs: seq<Observation>, i: nat)
    requires i < |obs|
  {
    obs[i].read.rssiDbm >= c.sensitivityDbm && obs[i].read.epc in Tracked(z, Sensed(c, obs))
  }

  predicate LastToCount(c: ReaderConfig, z: Zone, obs: seq<Observation>, i: nat)
    requires i < |obs|
  {
    Counts(c, z, obs, i) && forall j: nat :: i < j < |obs| ==> !Counts(c, z, obs, j)
  }

  lemma {:induction false} SensedIs(c: ReaderConfig, obs: seq<Observation>, i: nat)
    requires i < |obs| && obs[i].read.rssiDbm >= c.sensitivityDbm
    ensures obs[i].read in Sensed(c, obs)
    decreases |obs|
  {
    if i < |obs| - 1 {
      SensedIs(c, obs[..|obs| - 1], i);
    }
  }

  lemma CountsStays(c: ReaderConfig, z: Zone, obs: seq<Observation>, i: nat)
    requires i < |obs| - 1
    ensures Counts(c, z, obs, i) <==> Counts(c, z, obs[..|obs| - 1], i)
  {
    var front, last := obs[..|obs| - 1], obs[|obs| - 1];
    if obs[i].read.rssiDbm >= c.sensitivityDbm {
      SensedIs(c, front, i);
      if last.read.rssiDbm >= c.sensitivityDbm {
        SideKept(z, Sensed(c, front), last.read);
      }
    }
  }

  /** The remembered instant is that of the latest observation of a tracked tag. */
  lemma {:induction false} LastReadIs(c: ReaderConfig, z: Zone, obs: seq<Observation>)
    ensures LastRead(c, z, obs).None? ==> forall i: nat :: i < |obs| ==> !Counts(c, z, obs, i)
    ensures LastRead(c, z, obs).Some? ==>
      exists i: nat :: i < |obs| && LastToCount(c, z, obs, i) && StampOf(obs[i]) == LastRead(c, z, obs).value
    decreases |obs|
  {
    if obs != [] {
      var front, n := obs[..|obs| - 1], |obs| - 1;
      LastReadIs(c, z, front);
      forall i: nat | i < n ensures Counts(c, z, obs, i) <==> Counts(c, z, front, i) {
        CountsStays(c, z, obs, i);
      }
      if Counts(c, z, obs, n) {
        assert LastToCount(c, z, obs, n);
      } else if LastRead(c, z, front).Some? {
        var i: nat :| i < n && LastToCount(c, z, front, i) && StampOf(front[i]) == LastRead(c, z, front).value;
        assert LastToCount(c, z, obs, i);
      }
    }
  }

  lemma LastIsOne(c: ReaderConfig, z: Zone, obs: seq<Observation>, i: nat, j: nat)
    requires i < |obs| && j < |obs| && LastToCount(c, z, obs, i) && LastToCount(c, z, obs, j)
    ensures i == j
  {
  }

  /** Silence is reported exactly for a reachable reader whose latest read of a tracked tag is too long ago. */
  lemma SilentIff(c: ReaderConfig, z: Zone, obs: seq<Observation>, now: int, reachable: bool)
    requires ZoneOf(c) == Ok(z)
    ensures FaultAt(c, LastRead(c, z, obs), now, reachable) == Some(Silent) <==>
      reachable && exists i: nat ::
        i < |obs| && LastToCount(c, z, obs, i)
        && now - (match obs[i].now case Some(t) => t case None => obs[i].read.simTs) > c.silenceThreshold
    ensures FaultAt(c, LastRead(c, z, obs), now, reachable) == Some(Unreachable) <==> !reachable
  {
    LastReadIs(c, z, obs);
    if LastRead(c, z, obs).Some? {
      var i: nat :| i < |obs| && LastToCount(c, z, obs, i) && StampOf(obs[i]) == LastRead(c, z, obs).value;
      forall j: nat | j < |obs| && LastToCount(c, z, obs, j) ensures j == i {
        LastIsOne(c, z, obs, i, j);
      }
    }
  }

  /** The quiet fault as the documentation words it: it answers, and has read nothing of late. */
  predicate ReadsNothing(c: ReaderConfig, z: Zone, obs: seq<Observation>, now: int) {
    forall i: nat :: i < |obs| && Counts(c, z, obs, i) ==> now - StampOf(obs[i]) > c.silenceThreshold
  }

  /** On instants that never go back, the quiet fault is reported exactly if the reader ever read a tracked tag. */
  lemma QuietIsReportedIffItEverRead(c: ReaderConfig, z: Zone, obs: seq<Observation>, now: int)
    requires ZoneOf(c) == Ok(z)
    requires forall i: nat, j: nat :: i <= j < |obs| ==> StampOf(obs[i]) <= StampOf(obs[j])
    requires ReadsNothing(c, z, obs, now)
    ensures FaultAt(c, LastRead(c, z, obs), now, true) == Some(Silent) <==>
      exists i: nat :: i < |obs| && Counts(c, z, obs, i)
  {
    SilentIff(c, z, obs, now, true);
    LastReadIs(c, z, obs);
  }

  /** The other way, on instants that never go back, no reader is called silent while it reads tracked tags. */
  lemma SilentReadersReadNothing(c: ReaderConfig, z: Zone, obs: seq<Observation>, now: int)
    requires ZoneOf(c) == Ok(z)
    requires forall i: nat, j: nat :: i <= j < |obs| ==> StampOf(obs[i]) <= StampOf(obs[j])
    requires FaultAt(c, LastRead(c, z, obs), now, true) == Some(Silent)
    ensures ReadsNothing(c, z, obs, now)
  {
    SilentIff(c, z, obs, now, true);
    var last: nat :| last < |obs| && LastToCount(c, z, obs, last) && now - StampOf(obs[last]) > c.silenceThreshold;
    forall i: nat | i < |obs| && Counts(c, z, obs, i) ensures now - StampOf(obs[i]) > c.silenceThreshold {
      assert i <= last;
    }
  }

  /** A reader that never read a tracked tag is never called silent, however long it stands there. */
  lemma NeverReadIsNeverSilent(c: ReaderConfig, z: Zone, obs: seq<Observation>, now: int)
    requires ZoneOf(c) == Ok(z) && forall i: nat :: i < |obs| ==> !Counts(c, z, obs, i)
    ensures ReadsNothing(c, z, obs, now) && FaultAt(c, LastRead(c, z, obs), now, true) == None
  {
    LastReadIs(c, z, obs);
  }

  /** Reads the cap or the filter turns away do not show that the reader is alive. */
  lemma TurnedReadsDoNotBreakTheSilence(c: ReaderConfig, z: Zone, obs: seq<Observation>, more: Observation, now: int,
        reachable: bool)
    requires ZoneOf(c) == Ok(z) && more.read.epc !in Tracked(z, Sensed(c, obs + [more]))
    ensures FaultAt(c, LastRead(c, z, obs + [more]), now, reachable) == FaultAt(c, LastRead(c, z, obs), now, reachable)
  {
    assert (obs + [more])[..|obs|] == obs;
  }
}
