/** The bounded inventory: what it tracks, what it refuses, and why the order of the reads stops mattering below the
    cap. */
module Inventory {
  import opened Options
  import opened Sorting
  import opened Text
  import opened TagReads

  /** The accumulator's settings: the cap on distinct tags, and the prefix of this read zone. */
  datatype Zone = Zone(cap: nat, filter: Option<string>)

  predicate Matches(z: Zone, epc: string) {
    z.filter.Some? ==> StartsWith(epc, z.filter.value)
  }

  /** keys, epcs and dropped are the dictionaries' insertion orders. */
  datatype Stock = Stock(keys: seq<Key>, aggregates: map<Key, ReadAggregate>, epcs: seq<string>, dropped: seq<string>,
                         droppedReads: nat, filteredReads: nat)

  function Lookup(s: Stock, k: Key): Option<ReadAggregate> {
    if k in s.aggregates then Some(s.aggregates[k]) else None
  }

  function Added<T(==)>(s: seq<T>, x: T): seq<T> {
    if x in s then s else s + [x]
  }

  function Took(z: Zone, s: Stock, read: TagRead): bool {
    && Matches(z, read.epc)
    && (KeyOf(read) in s.aggregates || read.epc in s.epcs || |s.epcs| < z.cap)
  }

  function Offered(z: Zone, s: Stock, read: TagRead): Stock {
    if !Matches(z, read.epc) then s.(filteredReads := s.filteredReads + 1)
    else if !Took(z, s, read) then s.(dropped := Added(s.dropped, read.epc), droppedReads := s.droppedReads + 1)
    else
      var k := KeyOf(read);
      s.(keys := Added(s.keys, k),
         aggregates := s.aggregates[k := Accumulate(Lookup(s, k), read)],
         epcs := if k in s.aggregates then s.epcs else Added(s.epcs, read.epc))
  }

  function Nothing(): Stock {
    Stock([], map[], [], [], 0, 0)
  }

  function After(z: Zone, rs: seq<TagRead>): Stock {
    if rs == [] then Nothing() else Offered(z, After(z, rs[..|rs| - 1]), rs[|rs| - 1])
  }

  // ----- what the inventory ought to hold, without the inventory ----------------------------

  /** The matching tags, each once, in order of arrival. */
  function Arrivals(z: Zone, rs: seq<TagRead>): seq<string> {
    if rs == [] then []
    else
      var before, epc := Arrivals(z, rs[..|rs| - 1]), rs[|rs| - 1].epc;
      if Matches(z, epc) then Added(before, epc) else before
  }

  function First<T>(n: nat, s: seq<T>): seq<T> {
    if |s| <= n then s else s[..n]
  }

  function Tracked(z: Zone, rs: seq<TagRead>): seq<string> {
    First(z.cap, Arrivals(z, rs))
  }

  function Turned(z: Zone, rs: seq<TagRead>): seq<string> {
    Arrivals(z, rs)[|Tracked(z, rs)|..]
  }

  /** The reads of the tracked tags. */
  function Taken(z: Zone, rs: seq<TagRead>): seq<TagRead> {
    Filter((r: TagRead) => r.epc in Tracked(z, rs), rs)
  }

  function OfKey(k: Key, rs: seq<TagRead>): seq<TagRead> {
    Filter((r: TagRead) => KeyOf(r) == k, rs)
  }

  function Unmatched(z: Zone, rs: seq<TagRead>): seq<TagRead> {
    Filter((r: TagRead) => !Matches(z, r.epc), rs)
  }

  function TurnedReads(z: Zone, rs: seq<TagRead>): seq<TagRead> {
    Filter((r: TagRead) => r.epc in Turned(z, rs), rs)
  }

  lemma AddedNoDup<T>(s: seq<T>, x: T)
    requires NoDup(s)
    ensures NoDup(Added(s, x))
  {
    NoDupAppended(s, x);
  }

  lemma {:induction false} ArrivalsAre(z: Zone, rs: seq<TagRead>)
    ensures NoDup(Arrivals(z, rs))
    ensures forall e :: e in Arrivals(z, rs) <==> Matches(z, e) && exists r :: r in rs && r.epc == e
    decreases |rs|
  {
    if rs != [] {
      var front, last := rs[..|rs| - 1], rs[|rs| - 1];
      ArrivalsAre(z, front);
      AddedNoDup(Arrivals(z, front), last.epc);
      assert rs == front + [last];
      forall e ensures e in Arrivals(z, rs) <==> Matches(z, e) && exists r :: r in rs && r.epc == e {
        assert last in rs;
        if e in Arrivals(z, front) {
          var r :| r in front && r.epc == e;
          assert r in rs;
        }
      }
    }
  }

  lemma TrackedIs(z: Zone, rs: seq<TagRead>)
    ensures Tracked(z, rs) + Turned(z, rs) == Arrivals(z, rs)
    ensures NoDup(Tracked(z, rs)) && NoDup(Turned(z, rs))
    ensures forall e :: !(e in Tracked(z, rs) && e in Turned(z, rs))
    ensures forall r :: r in rs ==>
      (Matches(z, r.epc) <==> r.epc in Tracked(z, rs) || r.epc in Turned(z, rs))
  {
    ArrivalsAre(z, rs);
    var all, n := Arrivals(z, rs), |Tracked(z, rs)|;
    forall r | r in rs ensures Matches(z, r.epc) <==> r.epc in all[..n] || r.epc in all[n..] {
      assert all == all[..n] + all[n..];
      assert r.epc in all <==> r.epc in all[..n] || r.epc in all[n..];
    }
  }

  // ----- the invariant over every sequence of offers --------------------------------------------

  /** The tags tracked are the first ones to arrive, up to the cap; those refused are the rest, in order. */
  ghost predicate TagsHold(z: Zone, s: Stock, rs: seq<TagRead>) {
    s.epcs == Tracked(z, rs) && s.dropped == Turned(z, rs)
  }

  ghost predicate KeysHold(s: Stock) {
    && NoDup(s.keys)
    && (forall k :: k in s.keys <==> k in s.aggregates)
    && forall k :: k in s.aggregates ==> k.0 in s.epcs
  }

  lemma StepKeysHold(z: Zone, s: Stock, read: TagRead)
    requires KeysHold(s)
    ensures KeysHold(Offered(z, s, read))
  {
    AddedNoDup(s.keys, KeyOf(read));
  }

  lemma StepTagsHold(z: Zone, s: Stock, rs: seq<TagRead>, read: TagRead)
    requires TagsHold(z, s, rs) && KeysHold(s)
    ensures TagsHold(z, Offered(z, s, read), rs + [read])
    ensures Took(z, s, read) <==> read.epc in Tracked(z, rs + [read])
  {
    var more := rs + [read];
    assert more[..|more| - 1] == rs;
    TrackedIs(z, rs);
    ArrivalsAre(z, rs);
    TrackedIs(z, more);
    var all := Arrivals(z, rs);
    if Matches(z, read.epc) && read.epc in all {
      assert read.epc in Tracked(z, rs) || read.epc in Turned(z, rs);
    }
  }

  lemma {:induction false} AfterTagsHold(z: Zone, rs: seq<TagRead>)
    ensures TagsHold(z, After(z, rs), rs) && KeysHold(After(z, rs))
    decreases |rs|
  {
    if rs != [] {
      var front, last := rs[..|rs| - 1], rs[|rs| - 1];
      AfterTagsHold(z, front);
      StepKeysHold(z, After(z, front), last);
      StepTagsHold(z, After(z, front), front, last);
      assert rs == front + [last];
    }
  }

  ghost predicate KeyHolds(z: Zone, s: Stock, rs: seq<TagRead>, k: Key) {
    && (k in s.aggregates <==> k.0 in Tracked(z, rs) && OfKey(k, rs) != [])
    && (k in s.aggregates ==> Summarises(s.aggregates[k], k, OfKey(k, rs)))
  }

  /** Each aggregate says of the reads of its key exactly what they say together. */
  ghost predicate AggregatesHold(z: Zone, s: Stock, rs: seq<TagRead>) {
    forall k :: KeyHolds(z, s, rs, k)
  }

  lemma OfKeyAppended(k: Key, rs: seq<TagRead>, read: TagRead)
    ensures OfKey(k, rs + [read]) == OfKey(k, rs) + if KeyOf(read) == k then [read] else []
  {
    FilterAppended((r: TagRead) => KeyOf(r) == k, rs, read);
  }

  /** A tag that an offer starts to track has no earlier read. */
  lemma NewTagsHaveNoReads(z: Zone, s: Stock, rs: seq<TagRead>, read: TagRead, k: Key)
    requires TagsHold(z, s, rs) && KeysHold(s) && AggregatesHold(z, s, rs)
    requires k.0 in Tracked(z, rs + [read]) && k.0 !in Tracked(z, rs)
    ensures OfKey(k, rs) == [] && k.0 == read.epc
  {
    var more := rs + [read];
    assert more[..|more| - 1] == rs;
    ArrivalsAre(z, rs);
    ArrivalsAre(z, more);
    assert k.0 !in Arrivals(z, rs);
    KeyWasRead(k, rs);
  }

  lemma KeyWasRead(k: Key, rs: seq<TagRead>)
    ensures OfKey(k, rs) != [] ==> exists r :: r in rs && r.epc == k.0
  {
    if OfKey(k, rs) != [] {
      assert OfKey(k, rs)[0] in OfKey(k, rs);
    }
  }

  lemma TrackedGrows(z: Zone, rs: seq<TagRead>, read: TagRead)
    ensures Tracked(z, rs) <= Tracked(z, rs + [read])
  {
    assert (rs + [read])[..|rs|] == rs;
  }

  lemma OtherKeyUntouched(z: Zone, s: Stock, read: TagRead, k: Key)
    requires k != KeyOf(read)
    ensures Lookup(Offered(z, s, read), k) == Lookup(s, k)
  {
  }

  lemma OtherKeyReads(z: Zone, s: Stock, rs: seq<TagRead>, read: TagRead, k: Key)
    requires TagsHold(z, s, rs) && KeysHold(s) && AggregatesHold(z, s, rs) && k != KeyOf(read)
    ensures OfKey(k, rs + [read]) == OfKey(k, rs)
    ensures OfKey(k, rs) != [] ==> (k.0 in Tracked(z, rs + [read]) <==> k.0 in Tracked(z, rs))
  {
    OfKeyAppended(k, rs, read);
    TrackedGrows(z, rs, read);
    if k.0 in Tracked(z, rs + [read]) && k.0 !in Tracked(z, rs) {
      NewTagsHaveNoReads(z, s, rs, read, k);
    }
  }

  lemma StepOtherKey(z: Zone, s: Stock, rs: seq<TagRead>, read: TagRead, k: Key)
    requires TagsHold(z, s, rs) && KeysHold(s) && AggregatesHold(z, s, rs) && k != KeyOf(read)
    ensures KeyHolds(z, Offered(z, s, read), rs + [read], k)
  {
    assert KeyHolds(z, s, rs, k);
    OtherKeyReads(z, s, rs, read, k);
    var t := Offered(z, s, read);
    assert Lookup(t, k) == Lookup(s, k) by { OtherKeyUntouched(z, s, read, k); }
  }

  lemma StepOwnKey(z: Zone, s: Stock, rs: seq<TagRead>, read: TagRead)
    requires TagsHold(z, s, rs) && KeysHold(s) && AggregatesHold(z, s, rs)
    ensures KeyHolds(z, Offered(z, s, read), rs + [read], KeyOf(read))
  {
    var k := KeyOf(read);
    assert KeyHolds(z, s, rs, k);
    StepTagsHold(z, s, rs, read);
    OfKeyAppended(k, rs, read);
    if Took(z, s, read) {
      if k in s.aggregates {
        NextRead(s.aggregates[k], k, OfKey(k, rs), read);
      } else {
        if k.0 !in Tracked(z, rs) { NewTagsHaveNoReads(z, s, rs, read, k); }
        assert OfKey(k, rs + [read]) == [read];
        FirstRead(k, read);
      }
    } else {
      TrackedGrows(z, rs, read);
    }
  }

  lemma StepAggregatesHold(z: Zone, s: Stock, rs: seq<TagRead>, read: TagRead)
    requires TagsHold(z, s, rs) && KeysHold(s) && AggregatesHold(z, s, rs)
    ensures AggregatesHold(z, Offered(z, s, read), rs + [read])
  {
    forall k ensures KeyHolds(z, Offered(z, s, read), rs + [read], k) {
      if k == KeyOf(read) { StepOwnKey(z, s, rs, read); } else { StepOtherKey(z, s, rs, read, k); }
    }
  }

  /** After any offers: the tags are the first to arrive, and every aggregate is the summary of its reads. */
  lemma {:induction false} InventoryIsTheFold(z: Zone, rs: seq<TagRead>)
    ensures TagsHold(z, After(z, rs), rs) && KeysHold(After(z, rs))
    ensures AggregatesHold(z, After(z, rs), rs)
    decreases |rs|
  {
    AfterTagsHold(z, rs);
    if rs != [] {
      var front, last := rs[..|rs| - 1], rs[|rs| - 1];
      InventoryIsTheFold(z, front);
      StepAggregatesHold(z, After(z, front), front, last);
      assert rs == front + [last];
    }
  }

  // ----- conservation -------------------------------------------------------------------------

  /** Reads that were counted as filtered, as dropped, and as accumulated. */
  lemma {:induction false} CountersHold(z: Zone, rs: seq<TagRead>)
    ensures After(z, rs).filteredReads == |Unmatched(z, rs)|
    ensures After(z, rs).droppedReads == |TurnedReads(z, rs)|
    decreases |rs|
  {
    if rs != [] {
      var front, last := rs[..|rs| - 1], rs[|rs| - 1];
      CountersHold(z, front);
      assert rs == front + [last];
      StepCounts(z, front, last);
      FilterAppended((r: TagRead) => !Matches(z, r.epc), front, last);
      TurnedReadsAppended(z, front, last);
    }
  }

  lemma StepCounts(z: Zone, rs: seq<TagRead>, read: TagRead)
    ensures var s, t := After(z, rs), Offered(z, After(z, rs), read);
      && t.filteredReads == s.filteredReads + (if Matches(z, read.epc) then 0 else 1)
      && t.droppedReads == s.droppedReads + (if read.epc in Turned(z, rs + [read]) then 1 else 0)
  {
    AfterTagsHold(z, rs);
    StepTagsHold(z, After(z, rs), rs, read);
    TrackedIs(z, rs + [read]);
    assert read in rs + [read];
  }

  lemma {:induction false} FilterAgrees(p: TagRead -> bool, q: TagRead -> bool, rs: seq<TagRead>)
    requires forall r :: r in rs ==> p(r) == q(r)
    ensures Filter(p, rs) == Filter(q, rs)
  {
    if rs != [] {
      FilterAgrees(p, q, rs[1..]);
    }
  }

  lemma TurnedReadsAppended(z: Zone, rs: seq<TagRead>, read: TagRead)
    ensures TurnedReads(z, rs + [read]) == TurnedReads(z, rs) + if read.epc in Turned(z, rs + [read]) then [read]
      else []
    ensures Taken(z, rs + [read]) == Taken(z, rs) + if read.epc in Tracked(z, rs + [read]) then [read] else []
  {
    var more := rs + [read];
    TrackedIs(z, rs);
    TrackedIs(z, more);
    TrackedGrows(z, rs, read);
    SideKept(z, rs, read);
    FilterAppended((r: TagRead) => r.epc in Turned(z, more), rs, read);
    FilterAgrees((r: TagRead) => r.epc in Turned(z, more), (r: TagRead) => r.epc in Turned(z, rs), rs);
    FilterAppended((r: TagRead) => r.epc in Tracked(z, more), rs, read);
    FilterAgrees((r: TagRead) => r.epc in Tracked(z, more), (r: TagRead) => r.epc in Tracked(z, rs), rs);
  }

  /** A tag keeps the side it fell on. */
  lemma SideKept(z: Zone, rs: seq<TagRead>, read: TagRead)
    ensures forall r :: r in rs ==> (r.epc in Tracked(z, rs + [read]) <==> r.epc in Tracked(z, rs))
    ensures forall r :: r in rs ==> (r.epc in Turned(z, rs + [read]) <==> r.epc in Turned(z, rs))
  {
    var more := rs + [read];
    assert more[..|more| - 1] == rs;
    TrackedIs(z, rs);
    TrackedIs(z, more);
    assert Turned(z, rs) <= Turned(z, more);
    TrackedGrows(z, rs, read);
  }

  lemma {:induction false} ThreeOutcomes(z: Zone, rs: seq<TagRead>, part: seq<TagRead>)
    requires forall r :: r in part ==> r in rs
    ensures |Filter((r: TagRead) => r.epc in Tracked(z, rs), part)|
         + |Filter((r: TagRead) => r.epc in Turned(z, rs), part)|
         + |Filter((r: TagRead) => !Matches(z, r.epc), part)| == |part|
  {
    if part != [] {
      ThreeOutcomes(z, rs, part[1..]);
      TrackedIs(z, rs);
      assert part[0] in rs;
    }
  }

  /** Every read offered is accumulated, dropped or filtered, once. */
  lemma Conservation(z: Zone, rs: seq<TagRead>)
    ensures |rs| == |Taken(z, rs)| + After(z, rs).droppedReads + After(z, rs).filteredReads
    ensures forall e :: !(e in After(z, rs).epcs && e in After(z, rs).dropped)
    ensures |After(z, rs).epcs| <= z.cap
  {
    CountersHold(z, rs);
    ThreeOutcomes(z, rs, rs);
    AfterTagsHold(z, rs);
    TrackedIs(z, rs);
  }

  // ----- what is published ----------------------------------------------------------------------

  predicate KeyLeq(a: Key, b: Key) {
    StringLeq(a.0, b.0) && (a.0 == b.0 ==> a.1 <= b.1)
  }

  lemma KeyOrder()
    ensures TotalPreorder(KeyLeq)
    ensures forall a, b :: KeyLeq(a, b) && KeyLeq(b, a) ==> a == b
  {
    forall a: Key, b: Key ensures KeyLeq(a, b) || KeyLeq(b, a) { StringTotal(a.0, b.0); }
    forall a: Key, b: Key | KeyLeq(a, b) && KeyLeq(b, a) ensures a == b { StringTotal(a.0, b.0); }
    forall a: Key, b: Key, c: Key | KeyLeq(a, b) && KeyLeq(b, c) ensures KeyLeq(a, c) {
      StringTransitive(a.0, b.0, c.0);
      StringTotal(a.0, b.0);
    }
  }

  function Values(m: map<Key, ReadAggregate>, keys: seq<Key>): (r: seq<ReadAggregate>)
    requires forall k :: k in keys ==> k in m
    ensures |r| == |keys| && forall i :: 0 <= i < |r| ==> r[i] == m[keys[i]]
  {
    seq(|keys|, i requires 0 <= i < |keys| => m[keys[i]])
  }

  lemma SortedKeysKnown(s: Stock)
    requires KeysHold(s)
    ensures forall k :: k in Sort(KeyLeq, s.keys) <==> k in s.aggregates
    ensures NoDup(Sort(KeyLeq, s.keys)) && SortedBy(KeyLeq, Sort(KeyLeq, s.keys))
  {
    KeyOrder();
    var sorted := Sort(KeyLeq, s.keys);
    SortMultiset(KeyLeq, s.keys);
    SortSorted(KeyLeq, s.keys);
    SameMultisetNoDup(s.keys, sorted);
    forall k: Key ensures k in sorted <==> k in s.aggregates {
      assert k in sorted <==> k in multiset(sorted);
      assert k in s.keys <==> k in multiset(s.keys);
    }
  }

  /** aggregates(): every aggregate, ordered by tag and then by antenna. */
  function Listing(z: Zone, rs: seq<TagRead>): seq<ReadAggregate> {
    AfterTagsHold(z, rs);
    SortedKeysKnown(After(z, rs));
    Values(After(z, rs).aggregates, Sort(KeyLeq, After(z, rs).keys))
  }

  /** The weighted mean over reads, or nothing when there is none. */
  function MeanLevel(rs: seq<TagRead>): (r: Option<real>) {
    if Count(rs) == 0 then None else Some(Weight(rs) as real / Count(rs) as real)
  }

  // ----- sums over the keys count each accumulated read once -----------------------------------------

  function KeySum(f: Key -> int, keys: seq<Key>): int {
    if keys == [] then 0 else KeySum(f, keys[..|keys| - 1]) + f(keys[|keys| - 1])
  }

  lemma {:induction false} KeySumChange(f: Key -> int, g: Key -> int, keys: seq<Key>, k: Key, d: int)
    requires NoDup(keys) && g(k) == f(k) + d && forall j :: j != k ==> g(j) == f(j)
    ensures KeySum(g, keys) == KeySum(f, keys) + if k in keys then d else 0
    decreases |keys|
  {
    if keys != [] {
      var front, last := keys[..|keys| - 1], keys[|keys| - 1];
      assert keys == front + [last];
      NoDupAppended(front, last);
      KeySumChange(f, g, front, k, d);
    }
  }

  lemma {:induction false} KeySumZero(f: Key -> int, keys: seq<Key>)
    requires forall k :: f(k) == 0
    ensures KeySum(f, keys) == 0
    decreases |keys|
  {
    if keys != [] {
      KeySumZero(f, keys[..|keys| - 1]);
    }
  }

  function OfKeys(keys: seq<Key>, rs: seq<TagRead>): seq<TagRead> {
    Filter((r: TagRead) => KeyOf(r) in keys, rs)
  }

  function CountAt(rs: seq<TagRead>): Key -> int {
    (k: Key) => Count(OfKey(k, rs))
  }

  function WeightAt(rs: seq<TagRead>): Key -> int {
    (k: Key) => Weight(OfKey(k, rs))
  }

  lemma OneKeyChanges(rs: seq<TagRead>, read: TagRead, k: Key)
    ensures CountAt(rs + [read])(k) == CountAt(rs)(k) + if k == KeyOf(read) then read.readCount else 0
    ensures WeightAt(rs + [read])(k) == WeightAt(rs)(k) + if k == KeyOf(read) then read.rssiDbm * read.readCount else 0
  {
    OfKeyAppended(k, rs, read);
    SumsAppended(OfKey(k, rs), read);
    assert OfKey(k, rs) + [] == OfKey(k, rs);
  }

  lemma OfKeysAppended(keys: seq<Key>, rs: seq<TagRead>, read: TagRead)
    ensures Count(OfKeys(keys, rs + [read])) == Count(OfKeys(keys, rs)) + if KeyOf(read) in keys then read.readCount
      else 0
    ensures Weight(OfKeys(keys, rs + [read]))
         == Weight(OfKeys(keys, rs)) + if KeyOf(read) in keys then read.rssiDbm * read.readCount else 0
  {
    FilterAppended((r: TagRead) => KeyOf(r) in keys, rs, read);
    SumsAppended(OfKeys(keys, rs), read);
    assert OfKeys(keys, rs) + [] == OfKeys(keys, rs);
  }

  lemma {:induction false} EachReadCountsOnce(keys: seq<Key>, rs: seq<TagRead>)
    requires NoDup(keys)
    ensures KeySum(CountAt(rs), keys) == Count(OfKeys(keys, rs))
    ensures KeySum(WeightAt(rs), keys) == Weight(OfKeys(keys, rs))
    decreases |rs|
  {
    if rs == [] {
      KeySumZero(CountAt(rs), keys);
      KeySumZero(WeightAt(rs), keys);
    } else {
      var front, last := rs[..|rs| - 1], rs[|rs| - 1];
      EachReadCountsOnce(keys, front);
      OneMoreRead(keys, front, last);
      assert rs == front + [last];
    }
  }

  lemma OneMoreRead(keys: seq<Key>, rs: seq<TagRead>, read: TagRead)
    requires NoDup(keys)
    ensures KeySum(CountAt(rs + [read]), keys) - KeySum(CountAt(rs), keys)
         == Count(OfKeys(keys, rs + [read])) - Count(OfKeys(keys, rs))
    ensures KeySum(WeightAt(rs + [read]), keys) - KeySum(WeightAt(rs), keys)
         == Weight(OfKeys(keys, rs + [read])) - Weight(OfKeys(keys, rs))
  {
    OfKeysAppended(keys, rs, read);
    var k := KeyOf(read);
    forall j ensures CountAt(rs + [read])(j) == CountAt(rs)(j) + if j == k then read.readCount else 0
             ensures WeightAt(rs + [read])(j) == WeightAt(rs)(j) + if j == k then read.rssiDbm * read.readCount else 0
    {
      OneKeyChanges(rs, read, j);
    }
    KeySumChange(CountAt(rs), CountAt(rs + [read]), keys, k, read.readCount);
    KeySumChange(WeightAt(rs), WeightAt(rs + [read]), keys, k, read.rssiDbm * read.readCount);
  }

  lemma KeysCoverTaken(z: Zone, rs: seq<TagRead>)
    ensures OfKeys(After(z, rs).keys, rs) == Taken(z, rs)
  {
    InventoryIsTheFold(z, rs);
    var keys := After(z, rs).keys;
    forall r | r in rs ensures KeyOf(r) in keys <==> r.epc in Tracked(z, rs) {
      assert KeyHolds(z, After(z, rs), rs, KeyOf(r));
      assert r in OfKey(KeyOf(r), rs);
    }
    FilterAgrees((r: TagRead) => KeyOf(r) in keys, (r: TagRead) => r.epc in Tracked(z, rs), rs);
  }

  /** The totals over the aggregates are the totals over the accumulated reads. */
  lemma TotalsAreOfTheTaken(z: Zone, rs: seq<TagRead>)
    ensures KeySum(CountAt(rs), After(z, rs).keys) == Count(Taken(z, rs))
    ensures KeySum(WeightAt(rs), After(z, rs).keys) == Weight(Taken(z, rs))
  {
    AfterTagsHold(z, rs);
    EachReadCountsOnce(After(z, rs).keys, rs);
    KeysCoverTaken(z, rs);
  }

  // ----- order ------------------------------------------------------------------------------------------

  lemma SameArrivals(z: Zone, rs: seq<TagRead>, ts: seq<TagRead>)
    requires multiset(rs) == multiset(ts)
    ensures forall e :: e in Arrivals(z, rs) <==> e in Arrivals(z, ts)
    ensures |Arrivals(z, rs)| == |Arrivals(z, ts)|
  {
    SameElements(rs, ts);
    ArrivalsAre(z, rs);
    ArrivalsAre(z, ts);
    SameSetSameMultiset(Arrivals(z, rs), Arrivals(z, ts));
    SameElements(Arrivals(z, rs), Arrivals(z, ts));
  }

  lemma SameAggregates(z: Zone, rs: seq<TagRead>, ts: seq<TagRead>)
    requires multiset(rs) == multiset(ts) && |Arrivals(z, rs)| <= z.cap
    ensures After(z, rs).aggregates == After(z, ts).aggregates
  {
    SameArrivals(z, rs, ts);
    InventoryIsTheFold(z, rs);
    InventoryIsTheFold(z, ts);
    var s, t := After(z, rs), After(z, ts);
    forall k ensures Lookup(s, k) == Lookup(t, k) {
      assert KeyHolds(z, s, rs, k) && KeyHolds(z, t, ts, k);
      FilterPermuted((r: TagRead) => KeyOf(r) == k, rs, ts);
      SameElements(OfKey(k, rs), OfKey(k, ts));
      if k in s.aggregates {
        SummaryUnique(s.aggregates[k], t.aggregates[k], k, OfKey(k, rs), OfKey(k, ts));
      }
    }
    forall k ensures k in s.aggregates <==> k in t.aggregates {
      assert Lookup(s, k) == Lookup(t, k);
    }
    forall k | k in s.aggregates ensures s.aggregates[k] == t.aggregates[k] {
      assert Lookup(s, k) == Lookup(t, k);
    }
  }

  lemma SameAggregatesSameListing(z: Zone, rs: seq<TagRead>, ts: seq<TagRead>)
    requires After(z, rs).aggregates == After(z, ts).aggregates
    ensures Listing(z, rs) == Listing(z, ts)
  {
    AfterTagsHold(z, rs);
    AfterTagsHold(z, ts);
    SortedKeysKnown(After(z, rs));
    SortedKeysKnown(After(z, ts));
    var a, b := Sort(KeyLeq, After(z, rs).keys), Sort(KeyLeq, After(z, ts).keys);
    SameSetSameMultiset(a, b);
    KeyOrder();
    SortedUnique(KeyLeq, a, b);
  }

  lemma SameMean(z: Zone, rs: seq<TagRead>, ts: seq<TagRead>)
    requires multiset(rs) == multiset(ts) && |Arrivals(z, rs)| <= z.cap
    ensures MeanLevel(Taken(z, rs)) == MeanLevel(Taken(z, ts))
  {
    SameArrivals(z, rs, ts);
    FilterAgrees((r: TagRead) => r.epc in Tracked(z, rs), (r: TagRead) => r.epc in Tracked(z, ts), ts);
    FilterPermuted((r: TagRead) => r.epc in Tracked(z, rs), rs, ts);
    CountPermuted(Taken(z, rs), Taken(z, ts));
  }

  lemma {:induction false} FirstMatchArrivesFirst(z: Zone, rs: seq<TagRead>)
    requires rs != [] && Matches(z, rs[0].epc)
    ensures Arrivals(z, rs) != [] && Arrivals(z, rs)[0] == rs[0].epc
    decreases |rs|
  {
    if |rs| > 1 {
      FirstMatchArrivesFirst(z, rs[..|rs| - 1]);
    }
  }

  lemma ListedTags(z: Zone, rs: seq<TagRead>, e: string)
    ensures (exists a :: a in Listing(z, rs) && a.epc == e) <==> e in Tracked(z, rs)
  {
    InventoryIsTheFold(z, rs);
    var s := After(z, rs);
    SortedKeysKnown(s);
    var sorted := Sort(KeyLeq, s.keys);
    if e in Tracked(z, rs) {
      TrackedIs(z, rs);
      ArrivalsAre(z, rs);
      assert e in Arrivals(z, rs);
      var r :| r in rs && r.epc == e;
      var k := KeyOf(r);
      assert r in OfKey(k, rs) && KeyHolds(z, s, rs, k);
      var i := IndexOf(sorted, k);
      assert Listing(z, rs)[i] == s.aggregates[k];
      assert s.aggregates[k] in Listing(z, rs);
    }
    if exists a :: a in Listing(z, rs) && a.epc == e {
      var a :| a in Listing(z, rs) && a.epc == e;
      var i: nat :| i < |Listing(z, rs)| && Listing(z, rs)[i] == a;
      assert sorted[i] in sorted && KeyHolds(z, s, rs, sorted[i]);
    }
  }

  /** A tag the cap refused is listed instead if its read is offered first. */
  lemma AboveTheCapOrderMatters(z: Zone, rs: seq<TagRead>) returns (ts: seq<TagRead>)
    requires z.cap >= 1 && |Arrivals(z, rs)| > z.cap
    ensures multiset(ts) == multiset(rs) && Listing(z, ts) != Listing(z, rs)
  {
    var e := Turned(z, rs)[0];
    TrackedIs(z, rs);
    ArrivalsAre(z, rs);
    assert e in Turned(z, rs) && e in Arrivals(z, rs);
    var r :| r in rs && r.epc == e;
    ts := MoveToFront(r, rs);
    MoveToFrontPermutes(r, rs);
    FirstMatchArrivesFirst(z, ts);
    assert Tracked(z, ts)[0] == e;
    ListedTags(z, rs, e);
    ListedTags(z, ts, e);
  }

  ghost predicate OrderFree(z: Zone, rs: seq<TagRead>) {
    forall ts :: multiset(ts) == multiset(rs) ==> Listing(z, ts) == Listing(z, rs)
  }

  /** The published aggregates are independent of the order of the reads exactly when the cap is not exceeded. */
  lemma OrderFreeIffBelowTheCap(z: Zone, rs: seq<TagRead>)
    requires z.cap >= 1
    ensures OrderFree(z, rs) <==> |Arrivals(z, rs)| <= z.cap
    ensures |Arrivals(z, rs)| <= z.cap ==>
      forall ts :: multiset(ts) == multiset(rs) ==> MeanLevel(Taken(z, ts)) == MeanLevel(Taken(z, rs))
  {
    if |Arrivals(z, rs)| <= z.cap {
      forall ts | multiset(ts) == multiset(rs)
        ensures Listing(z, ts) == Listing(z, rs) && MeanLevel(Taken(z, ts)) == MeanLevel(Taken(z, rs))
      {
        SameAggregates(z, rs, ts);
        SameAggregatesSameListing(z, rs, ts);
        SameMean(z, rs, ts);
      }
    } else {
      var ts := AboveTheCapOrderMatters(z, rs);
    }
  }
}
