/** The ENV-001 checker, the canonical replay order, and the byte stream of the determinism hash. */
module EventLog {
  import opened Sorting
  import opened Canonical
  import opened Envelope

  datatype Violation =
    | DuplicateId(first: nat, index: nat)
    | Tie(first: nat, index: nat)
    | NotDense(producer: string)

  /** What the checker reads of one event. */
  datatype Stamp = Stamp(id: string, key: Key)

  function StampOf(e: Event): Stamp {
    Stamp(e.id, TotalOrderKey(e))
  }

  function Stamps(events: seq<Event>): (stamps: seq<Stamp>)
    ensures |stamps| == |events|
    ensures forall i :: 0 <= i < |stamps| ==> stamps[i] == StampOf(events[i])
  {
    seq(|events|, i requires 0 <= i < |events| => StampOf(events[i]))
  }

  function Ids(log: seq<Stamp>): (ids: seq<string>)
    ensures |ids| == |log| && forall i :: 0 <= i < |ids| ==> ids[i] == log[i].id
  {
    seq(|log|, i requires 0 <= i < |log| => log[i].id)
  }

  function KeysOf(log: seq<Stamp>): (keys: seq<Key>)
    ensures |keys| == |log| && forall i :: 0 <= i < |keys| ==> keys[i] == log[i].key
  {
    seq(|log|, i requires 0 <= i < |log| => log[i].key)
  }

  function NumberFrom(s: Stamp, producer: string): seq<nat> {
    if s.key.producer == producer then [s.key.seqNo] else []
  }

  /** The sequence numbers one producer published, in log order. */
  function SeqsOf(log: seq<Stamp>, producer: string): seq<nat> {
    if log == [] then [] else SeqsOf(log[..|log| - 1], producer) + NumberFrom(log[|log| - 1], producer)
  }

  function Producers(log: seq<Stamp>): set<string> {
    set s | s in log :: s.key.producer
  }

  function Range(n: nat): (r: seq<nat>)
    ensures |r| == n && forall i :: 0 <= i < n ==> r[i] == i
  {
    seq(n, i => i)
  }

  predicate NatLeq(a: nat, b: nat) { a <= b }

  // ----- the checker ---------------------------------------------------------------

  function RepeatedId(before: seq<Stamp>, last: Stamp): seq<Violation> {
    if last.id in Ids(before) then [DuplicateId(IndexOf(Ids(before), last.id), |before|)] else []
  }

  function SharedPosition(before: seq<Stamp>, last: Stamp): seq<Violation> {
    if last.key in KeysOf(before) then [Tie(IndexOf(KeysOf(before), last.key), |before|)] else []
  }

  function Scan(log: seq<Stamp>): seq<Violation> {
    if log == [] then []
    else
      var before, last := log[..|log| - 1], log[|log| - 1];
      Scan(before) + RepeatedId(before, last) + SharedPosition(before, last)
  }

  predicate RunsDensely(seqs: seq<nat>) {
    Sort(NatLeq, seqs) == Range(|seqs|)
  }

  function Gap(log: seq<Stamp>, producer: string): seq<Violation> {
    if RunsDensely(SeqsOf(log, producer)) then [] else [NotDense(producer)]
  }

  function Gaps(log: seq<Stamp>, producers: seq<string>): seq<Violation> {
    if producers == [] then []
    else Gaps(log, producers[..|producers| - 1]) + Gap(log, producers[|producers| - 1])
  }

  function Violations(log: seq<Stamp>): seq<Violation> {
    Scan(log) + Gaps(log, SortedSet(Producers(log)))
  }

  ghost predicate FirstPositions<T(!new)>(seen: map<T, nat>, items: seq<T>) {
    && (forall x :: x in seen <==> x in items)
    && (forall x :: x in items ==> seen[x] == IndexOf(items, x))
  }

  function Noted<T(==)>(seen: map<T, nat>, x: T, index: nat): map<T, nat> {
    if x in seen then seen else seen[x := index]
  }

  lemma NotedFirst<T(!new)>(seen: map<T, nat>, items: seq<T>, x: T)
    requires FirstPositions(seen, items)
    ensures FirstPositions(Noted(seen, x, |items|), items + [x])
  {
    forall y | y in items + [x] ensures y in Noted(seen, x, |items|)
      && Noted(seen, x, |items|)[y] == IndexOf(items + [x], y) {
      IndexOfAppended(items, x, y);
    }
  }

  ghost predicate Grouped(byProducer: map<string, seq<nat>>, log: seq<Stamp>) {
    byProducer.Keys == Producers(log) && forall p :: p in byProducer ==> byProducer[p] == SeqsOf(log, p)
  }

  /** by_producer[producer].append(sequence), where a missing entry is an empty list. */
  function Appended(byProducer: map<string, seq<nat>>, s: Stamp): map<string, seq<nat>> {
    var p := s.key.producer;
    byProducer[p := (if p in byProducer then byProducer[p] else []) + [s.key.seqNo]]
  }

  lemma AppendedGroups(byProducer: map<string, seq<nat>>, log: seq<Stamp>, s: Stamp)
    requires Grouped(byProducer, log)
    ensures Grouped(Appended(byProducer, s), log + [s])
  {
    assert (log + [s])[..|log|] == log;
    assert Producers(log + [s]) == Producers(log) + {s.key.producer};
    NothingFrom(log, s.key.producer);
  }

  lemma {:induction false} NothingFrom(log: seq<Stamp>, producer: string)
    ensures producer !in Producers(log) ==> SeqsOf(log, producer) == []
  {
    if log != [] {
      NothingFrom(log[..|log| - 1], producer);
      assert log == log[..|log| - 1] + [log[|log| - 1]];
      assert Producers(log) == Producers(log[..|log| - 1]) + {log[|log| - 1].key.producer};
    }
  }

  lemma OneMoreStamp(log: seq<Stamp>, i: nat)
    requires i < |log|
    ensures log[..i + 1] == log[..i] + [log[i]]
    ensures Ids(log[..i + 1]) == Ids(log[..i]) + [log[i].id]
    ensures KeysOf(log[..i + 1]) == KeysOf(log[..i]) + [log[i].key]
    ensures Scan(log[..i + 1]) == Scan(log[..i]) + RepeatedId(log[..i], log[i]) + SharedPosition(log[..i], log[i])
  {
    assert log[..i + 1][..i] == log[..i];
  }

  lemma RepeatsSeen(before: seq<Stamp>, s: Stamp, seenIds: map<string, nat>, positions: map<Key, nat>)
    requires FirstPositions(seenIds, Ids(before)) && FirstPositions(positions, KeysOf(before))
    ensures RepeatedId(before, s) == if s.id in seenIds then [DuplicateId(seenIds[s.id], |before|)] else []
    ensures SharedPosition(before, s) == if s.key in positions then [Tie(positions[s.key], |before|)] else []
  {
  }

  function Seen(s: Stamp, index: nat, seenIds: map<string, nat>, positions: map<Key, nat>): seq<Violation> {
    (if s.id in seenIds then [DuplicateId(seenIds[s.id], index)] else [])
    + (if s.key in positions then [Tie(positions[s.key], index)] else [])
  }

  method NoteEvent(event: Stamp, index: nat, seenIds: map<string, nat>, positions: map<Key, nat>)
      returns (found: seq<Violation>, ids: map<string, nat>, keys: map<Key, nat>)
    ensures found == Seen(event, index, seenIds, positions)
    ensures ids == Noted(seenIds, event.id, index) && keys == Noted(positions, event.key, index)
  {
    found, ids, keys := [], seenIds, positions;
    if event.id in ids {
      found := found + [DuplicateId(ids[event.id], index)];
    } else {
      ids := ids[event.id := index];
    }
    if event.key in keys {
      found := found + [Tie(keys[event.key], index)];
    } else {
      keys := keys[event.key := index];
    }
  }

  lemma Appending(before: seq<Stamp>, s: Stamp)
    ensures Ids(before + [s]) == Ids(before) + [s.id] && KeysOf(before + [s]) == KeysOf(before) + [s.key]
    ensures Scan(before + [s]) == Scan(before) + (RepeatedId(before, s) + SharedPosition(before, s))
  {
    var log := before + [s];
    assert log[..|before|] == before && log[..|log|] == log;
    OneMoreStamp(log, |before|);
    assert Scan(before) + RepeatedId(before, s) + SharedPosition(before, s)
        == Scan(before) + (RepeatedId(before, s) + SharedPosition(before, s));
  }

  /** One more event: what the scan adds, and what its three dictionaries become. */
  lemma OneMoreScanned(before: seq<Stamp>, s: Stamp, byProducer: map<string, seq<nat>>, seenIds: map<string, nat>,
                       positions: map<Key, nat>)
    requires Grouped(byProducer, before)
    requires FirstPositions(seenIds, Ids(before)) && FirstPositions(positions, KeysOf(before))
    ensures Scan(before + [s]) == Scan(before) + Seen(s, |before|, seenIds, positions)
    ensures Grouped(Appended(byProducer, s), before + [s])
    ensures FirstPositions(Noted(seenIds, s.id, |before|), Ids(before + [s]))
    ensures FirstPositions(Noted(positions, s.key, |before|), KeysOf(before + [s]))
  {
    Appending(before, s);
    RepeatsSeen(before, s, seenIds, positions);
    AppendedGroups(byProducer, before, s);
    NotedFirst(seenIds, Ids(before), s.id);
    NotedFirst(positions, KeysOf(before), s.key);
  }

  method ScanLog(log: seq<Stamp>) returns (violations: seq<Violation>, byProducer: map<string, seq<nat>>)
    ensures violations == Scan(log) && Grouped(byProducer, log)
  {
    violations, byProducer := [], map[];
    var seenIds: map<string, nat> := map[];
    var positions: map<Key, nat> := map[];
    for index := 0 to |log|
      invariant violations == Scan(log[..index]) && Grouped(byProducer, log[..index])
      invariant FirstPositions(seenIds, Ids(log[..index])) && FirstPositions(positions, KeysOf(log[..index]))
    {
      var event := log[index];
      ghost var before := log[..index];
      assert log[..index + 1] == before + [event] && |before| == index;
      OneMoreScanned(before, event, byProducer, seenIds, positions);
      byProducer := Appended(byProducer, event);
      var found;
      found, seenIds, positions := NoteEvent(event, index, seenIds, positions);
      violations := violations + found;
    }
    assert log[..|log|] == log;
  }

  method CheckLogInvariants(events: seq<Event>) returns (violations: seq<Violation>)
    ensures violations == Violations(Stamps(events))
  {
    var byProducer;
    violations, byProducer := ScanLog(Stamps(events));
    var gaps := CheckDensity(Stamps(events), byProducer);
    violations := violations + gaps;
  }

  lemma OneMoreGap(log: seq<Stamp>, producers: seq<string>, i: nat)
    requires i < |producers|
    ensures Gaps(log, producers[..i + 1]) == Gaps(log, producers[..i]) + Gap(log, producers[i])
  {
    assert producers[..i + 1][..i] == producers[..i];
  }

  method CheckDensity(ghost log: seq<Stamp>, byProducer: map<string, seq<nat>>) returns (violations: seq<Violation>)
    requires Grouped(byProducer, log)
    ensures violations == Gaps(log, SortedSet(Producers(log)))
  {
    var producers := SortedSet(byProducer.Keys);
    SortedSetCorrect(byProducer.Keys);
    violations := [];
    for i := 0 to |producers|
      invariant violations == Gaps(log, producers[..i])
    {
      OneMoreGap(log, producers, i);
      assert producers[i] in producers;
      if !RunsDensely(byProducer[producers[i]]) {
        violations := violations + [NotDense(producers[i])];
      }
    }
    assert producers[..|producers|] == producers;
  }

  // ----- what an empty answer means ------------------------------------------------------

  ghost predicate Dense(log: seq<Stamp>, producer: string) {
    multiset(SeqsOf(log, producer)) == multiset(Range(|SeqsOf(log, producer)|))
  }

  /** Distinct ids, distinct positions, and each producer's numbers a permutation of 0..n-1. */
  ghost predicate Clean(log: seq<Stamp>) {
    NoDup(Ids(log)) && NoDup(KeysOf(log)) && forall p :: p in Producers(log) ==> Dense(log, p)
  }

  lemma DenseIffPermutation(seqs: seq<nat>)
    ensures RunsDensely(seqs) <==> multiset(seqs) == multiset(Range(|seqs|))
  {
    SortMultiset(NatLeq, seqs);
    SortSorted(NatLeq, seqs);
    if multiset(seqs) == multiset(Range(|seqs|)) {
      SortedUnique(NatLeq, Sort(NatLeq, seqs), Range(|seqs|));
    }
  }

  lemma {:induction false} ScanEmpty(log: seq<Stamp>)
    ensures Scan(log) == [] <==> NoDup(Ids(log)) && NoDup(KeysOf(log))
  {
    if log != [] {
      var n := |log| - 1;
      ScanEmpty(log[..n]);
      OneMoreStamp(log, n);
      assert log[..n + 1] == log;
      NoDupAppended(Ids(log[..n]), log[n].id);
      NoDupAppended(KeysOf(log[..n]), log[n].key);
      assert Scan(log) == [] <==>
        Scan(log[..n]) == [] && log[n].id !in Ids(log[..n]) && log[n].key !in KeysOf(log[..n]);
    }
  }

  predicate NoGap(log: seq<Stamp>, producer: string) {
    Gap(log, producer) == []
  }

  lemma {:induction false} EveryGapEmpty(log: seq<Stamp>, producers: seq<string>)
    ensures Gaps(log, producers) == [] <==> forall p :: p in producers ==> NoGap(log, p)
  {
    if producers != [] {
      var front, last := producers[..|producers| - 1], producers[|producers| - 1];
      EveryGapEmpty(log, front);
      BothEmpty(Gaps(log, front), Gap(log, last));
      LastOrBefore(producers);
      assert NoGap(log, last) <==> Gap(log, last) == [];
    }
  }

  lemma BothEmpty<T>(a: seq<T>, b: seq<T>)
    ensures a + b == [] <==> a == [] && b == []
  {
  }

  lemma LastOrBefore<T>(s: seq<T>)
    requires s != []
    ensures forall x :: x in s <==> x in s[..|s| - 1] || x == s[|s| - 1]
  {
    assert s == s[..|s| - 1] + [s[|s| - 1]];
  }

  lemma GapsEmpty(log: seq<Stamp>, producers: seq<string>)
    ensures Gaps(log, producers) == [] <==> forall p :: p in producers ==> Dense(log, p)
  {
    EveryGapEmpty(log, producers);
    forall p ensures NoGap(log, p) <==> Dense(log, p) {
      GapEmpty(log, p);
    }
  }

  lemma GapEmpty(log: seq<Stamp>, producer: string)
    ensures Gap(log, producer) == [] <==> Dense(log, producer)
  {
    DenseIffPermutation(SeqsOf(log, producer));
  }

  /** The checker answers nothing exactly on a clean log. */
  lemma NoViolationIffClean(log: seq<Stamp>)
    ensures Violations(log) == [] <==> Clean(log)
  {
    ScanEmpty(log);
    SortedSetCorrect(Producers(log));
    GapsEmpty(log, SortedSet(Producers(log)));
  }

  // ----- what an answer names ------------------------------------------------------------

  /** first and index carry equal values, and first is the earliest position with that value. */
  ghost predicate FirstAndLater<T>(items: seq<T>, first: nat, index: nat) {
    first < index < |items| && items[first] == items[index] && items[first] !in items[..first]
  }

  /** What the scan reports of a log and one more event: what it reported before, and at most two new violations. */
  lemma ScanAppended(before: seq<Stamp>, last: Stamp, first: nat, index: nat)
    ensures DuplicateId(first, index) in Scan(before + [last]) <==>
      DuplicateId(first, index) in Scan(before) || FirstOf(Ids(before), last.id, first, index)
    ensures Tie(first, index) in Scan(before + [last]) <==>
      Tie(first, index) in Scan(before) || FirstOf(KeysOf(before), last.key, first, index)
  {
    Appending(before, last);
  }

  ghost predicate FirstOf<T>(items: seq<T>, x: T, first: nat, index: nat) {
    index == |items| && x in items && first == IndexOf(items, x)
  }

  lemma {:induction false} ScanNamesIds(log: seq<Stamp>, first: nat, index: nat)
    ensures DuplicateId(first, index) in Scan(log) <==> FirstAndLater(Ids(log), first, index)
    decreases |log|
  {
    if log != [] {
      var before, last := log[..|log| - 1], log[|log| - 1];
      assert log == before + [last];
      ScanNamesIds(before, first, index);
      ScanAppended(before, last, first, index);
      assert Ids(log) == Ids(before) + [last.id];
      LaterAppended(Ids(before), last.id, first, index);
    }
  }

  lemma {:induction false} ScanNamesTies(log: seq<Stamp>, first: nat, index: nat)
    ensures Tie(first, index) in Scan(log) <==> FirstAndLater(KeysOf(log), first, index)
    decreases |log|
  {
    if log != [] {
      var before, last := log[..|log| - 1], log[|log| - 1];
      assert log == before + [last];
      ScanNamesTies(before, first, index);
      ScanAppended(before, last, first, index);
      assert KeysOf(log) == KeysOf(before) + [last.key];
      LaterAppended(KeysOf(before), last.key, first, index);
    }
  }

  lemma LaterAppended<T>(items: seq<T>, x: T, first: nat, index: nat)
    ensures FirstAndLater(items + [x], first, index) <==>
      FirstAndLater(items, first, index) || FirstOf(items, x, first, index)
  {
    assert first <= |items| ==> (items + [x])[..first] == items[..first];
    if index == |items| && x in items {
      if FirstAndLater(items + [x], first, index) { FirstIndex(items, x, first); }
    }
  }

  lemma {:induction false} GapsName(log: seq<Stamp>, producers: seq<string>, v: Violation)
    ensures v in Gaps(log, producers) <==> v.NotDense? && v.producer in producers && !Dense(log, v.producer)
    decreases |producers|
  {
    if producers != [] {
      var front, last := producers[..|producers| - 1], producers[|producers| - 1];
      GapsName(log, front, v);
      GapEmpty(log, last);
      LastOrBefore(producers);
    }
  }

  lemma {:induction false} ScanHasNoGap(log: seq<Stamp>, producer: string)
    ensures NotDense(producer) !in Scan(log)
    decreases |log|
  {
    if log != [] { ScanHasNoGap(log[..|log| - 1], producer); }
  }

  /** Exactly what the checker reports: each position whose id, or whose place in the order, an earlier position has,
      with the earliest such position; and each producer whose numbers are not a permutation of 0..n-1. */
  lemma ViolationsAre(log: seq<Stamp>, v: Violation)
    ensures v in Violations(log) <==>
      match v
      case DuplicateId(first, index) => FirstAndLater(Ids(log), first, index)
      case Tie(first, index) => FirstAndLater(KeysOf(log), first, index)
      case NotDense(producer) => producer in Producers(log) && !Dense(log, producer)
  {
    SortedSetCorrect(Producers(log));
    GapsName(log, SortedSet(Producers(log)), v);
    match v
    case DuplicateId(first, index) => ScanNamesIds(log, first, index);
    case Tie(first, index) => ScanNamesTies(log, first, index);
    case NotDense(producer) => ScanHasNoGap(log, producer);
  }

  lemma {:induction false} PublishedNumber(log: seq<Stamp>, i: nat)
    requires i < |log|
    ensures log[i].key.seqNo in multiset(SeqsOf(log, log[i].key.producer))
  {
    if i < |log| - 1 {
      PublishedNumber(log[..|log| - 1], i);
    }
  }

  lemma {:induction false} RepeatedNumber(log: seq<Stamp>, i: nat, j: nat)
    requires i < j < |log| && log[i].key == log[j].key
    ensures multiset(SeqsOf(log, log[j].key.producer))[log[j].key.seqNo] >= 2
  {
    if j < |log| - 1 {
      RepeatedNumber(log[..|log| - 1], i, j);
    } else {
      PublishedNumber(log[..|log| - 1], i);
    }
  }

  /** Density alone rules out ties: a shared position is a repeated sequence number. */
  lemma DenseLogsHaveNoTies(log: seq<Stamp>)
    requires forall p :: p in Producers(log) ==> Dense(log, p)
    ensures NoDup(KeysOf(log))
  {
    forall i, j | 0 <= i < j < |log| ensures KeysOf(log)[i] != KeysOf(log)[j] {
      if log[i].key == log[j].key {
        var p := log[j].key.producer;
        assert log[j] in log && p in Producers(log);
        RepeatedNumber(log, i, j);
        MultiplicityAtMostOne(Range(|SeqsOf(log, p)|), log[j].key.seqNo);
      }
    }
  }

  function Keys(events: seq<Event>): (keys: seq<Key>)
    ensures |keys| == |events| && forall i :: 0 <= i < |keys| ==> keys[i] == TotalOrderKey(events[i])
  {
    seq(|events|, i requires 0 <= i < |events| => TotalOrderKey(events[i]))
  }

  /** A log the checker accepts has no two events at one position. */
  lemma CleanHasDistinctKeys(events: seq<Event>)
    requires Violations(Stamps(events)) == []
    ensures NoDup(Keys(events))
  {
    NoViolationIffClean(Stamps(events));
    assert KeysOf(Stamps(events)) == Keys(events);
  }

  // ----- replay order --------------------------------------------------------------------

  function InTotalOrder(events: seq<Event>): seq<Event> {
    Sort(EventLeq, events)
  }

  ghost predicate StrictlyIncreasing(events: seq<Event>) {
    forall i, j :: 0 <= i < j < |events| ==> KeyBelow(TotalOrderKey(events[i]), TotalOrderKey(events[j]))
  }

  lemma DistinctKeysSeparate(events: seq<Event>)
    requires NoDup(Keys(events))
    ensures NoDup(events)
    ensures forall a: Event, b: Event :: a in events && b in events && TotalOrderKey(a) == TotalOrderKey(b) ==> a == b
  {
    forall i, j | 0 <= i < j < |events| ensures events[i] != events[j] {
      assert Keys(events)[i] != Keys(events)[j];
    }
    forall a: Event, b: Event | a in events && b in events && TotalOrderKey(a) == TotalOrderKey(b) ensures a == b {
      var i :| 0 <= i < |events| && events[i] == a;
      var j :| 0 <= j < |events| && events[j] == b;
      assert Keys(events)[i] == Keys(events)[j];
    }
  }

  /** Sorting keeps the events; without ties the result is strictly increasing. */
  lemma TotalOrderSorts(events: seq<Event>)
    ensures multiset(InTotalOrder(events)) == multiset(events)
    ensures SortedBy(EventLeq, InTotalOrder(events))
    ensures NoDup(Keys(events)) ==> StrictlyIncreasing(InTotalOrder(events))
  {
    EventOrder();
    SortMultiset(EventLeq, events);
    SortSorted(EventLeq, events);
    if NoDup(Keys(events)) {
      DistinctKeysSeparate(events);
      var sorted := InTotalOrder(events);
      SameElements(sorted, events);
      SameMultisetNoDup(events, sorted);
      forall i, j | 0 <= i < j < |sorted| ensures KeyBelow(TotalOrderKey(sorted[i]), TotalOrderKey(sorted[j])) {
        assert EventLeq(sorted[i], sorted[j]) && sorted[i] in events && sorted[j] in events;
      }
    }
  }

  /** Instants first, then producers by their code points, then numbers: all as numbers, never as text. */
  ghost predicate InFieldOrder(a: Event, b: Event) {
    && IntOf(a.simTs) <= IntOf(b.simTs)
    && (IntOf(a.simTs) == IntOf(b.simTs) ==> Precedes(a.producer, b.producer))
    && (IntOf(a.simTs) == IntOf(b.simTs) && a.producer == b.producer ==> IntOf(a.seqNo) <= IntOf(b.seqNo))
  }

  lemma EventLeqIs(a: Event, b: Event)
    ensures EventLeq(a, b) <==> InFieldOrder(a, b)
  {
    StringLeqIs(a.producer, b.producer);
    StringTotal(a.producer, b.producer);
  }

  /** The replay stands in the order of its events' own fields. */
  lemma ReplayIsInFieldOrder(events: seq<Event>, i: nat, j: nat)
    requires i < j < |InTotalOrder(events)|
    ensures InFieldOrder(InTotalOrder(events)[i], InTotalOrder(events)[j])
  {
    TotalOrderSorts(events);
    EventLeqIs(InTotalOrder(events)[i], InTotalOrder(events)[j]);
  }

  lemma IncreasingIsSorted(events: seq<Event>)
    requires StrictlyIncreasing(events)
    ensures SortedBy(EventLeq, events) && NoDup(Keys(events))
  {
    forall i, j | 0 <= i < j < |events| ensures Keys(events)[i] != Keys(events)[j] {
      KeyTotal(TotalOrderKey(events[i]), TotalOrderKey(events[j]));
    }
  }

  /** The replay order of a tie-free log is its only strictly increasing arrangement. */
  lemma OnlyIncreasingArrangement(events: seq<Event>, arranged: seq<Event>)
    requires NoDup(Keys(events)) && multiset(arranged) == multiset(events) && StrictlyIncreasing(arranged)
    ensures arranged == InTotalOrder(events)
  {
    TotalOrderSorts(events);
    IncreasingIsSorted(arranged);
    DistinctKeysSeparate(events);
    SameElements(arranged, events);
    forall a: Event, b: Event | a in arranged && b in arranged && EventLeq(a, b) && EventLeq(b, a) ensures a == b {
      KeyTotal(TotalOrderKey(a), TotalOrderKey(b));
    }
    SortedUnique(EventLeq, arranged, InTotalOrder(events));
  }

  lemma PermutedKeysStayDistinct(events: seq<Event>, permuted: seq<Event>)
    requires multiset(permuted) == multiset(events) && NoDup(Keys(events))
    ensures NoDup(Keys(permuted))
  {
    DistinctKeysSeparate(events);
    SameMultisetNoDup(events, permuted);
    SameElements(events, permuted);
    forall i, j | 0 <= i < j < |permuted| ensures Keys(permuted)[i] != Keys(permuted)[j] {
      assert permuted[i] in events && permuted[j] in events && permuted[i] != permuted[j];
    }
  }

  /** Any two recordings of one tie-free log replay alike. */
  lemma PermutationsReplayAlike(events: seq<Event>, permuted: seq<Event>)
    requires NoDup(Keys(events)) && multiset(permuted) == multiset(events)
    ensures InTotalOrder(permuted) == InTotalOrder(events)
  {
    PermutedKeysStayDistinct(events, permuted);
    TotalOrderSorts(permuted);
    OnlyIncreasingArrangement(events, InTotalOrder(permuted));
  }

  // ----- the hashed bytes ------------------------------------------------------------------

  const SEPARATOR: Byte := 0x1e

  ghost predicate AllLegal(events: seq<Event>) {
    forall e :: e in events ==> Legal(e)
  }

  function RecordBytes(e: Event): seq<Byte>
    requires Legal(e)
  {
    DumpIsWellFormed(e);
    CanonicalPrintable(Dump(e));
    Bytes(CanonicalJson(Dump(e)))
  }

  function Records(events: seq<Event>): (records: seq<seq<Byte>>)
    requires AllLegal(events)
    ensures |records| == |events| && forall i :: 0 <= i < |records| ==> records[i] == RecordBytes(events[i])
  {
    seq(|events|, i requires 0 <= i < |events| && Legal(events[i]) => RecordBytes(events[i]))
  }

  function Framed(records: seq<seq<Byte>>): seq<Byte> {
    if records == [] then [] else Framed(records[..|records| - 1]) + records[|records| - 1] + [SEPARATOR]
  }

  lemma ReplayLegal(events: seq<Event>)
    requires AllLegal(events)
    ensures AllLegal(InTotalOrder(events))
  {
    SortMultiset(EventLeq, events);
    SameElements(InTotalOrder(events), events);
  }

  /** What log_hash feeds its digest. */
  function HashedBytes(events: seq<Event>): seq<Byte>
    requires AllLegal(events)
  {
    ReplayLegal(events);
    Framed(Records(InTotalOrder(events)))
  }

  method FeedDigest(events: seq<Event>) returns (fed: seq<Byte>)
    requires AllLegal(events)
    ensures fed == HashedBytes(events)
  {
    var ordered := InTotalOrder(events);
    ReplayLegal(events);
    fed := [];
    for i := 0 to |ordered|
      invariant fed == Framed(Records(ordered)[..i])
    {
      assert Records(ordered)[..i + 1][..i] == Records(ordered)[..i];
      fed := fed + RecordBytes(ordered[i]);
      fed := fed + [SEPARATOR];
    }
    assert Records(ordered)[..|ordered|] == Records(ordered);
  }

  lemma RecordHasNoSeparator(e: Event)
    requires Legal(e)
    ensures SEPARATOR !in RecordBytes(e)
  {
    DumpIsWellFormed(e);
    CanonicalPrintable(Dump(e));
  }

  /** The length of what stands before the last record: everything up to the last separator. */
  function UpToLastSeparator(b: seq<Byte>): nat {
    if b == [] then 0 else if b[|b| - 1] == SEPARATOR then |b| else UpToLastSeparator(b[..|b| - 1])
  }

  lemma {:induction false} LastRecordStarts(before: seq<Byte>, record: seq<Byte>)
    requires SEPARATOR !in record && (before == [] || before[|before| - 1] == SEPARATOR)
    ensures UpToLastSeparator(before + record) == |before|
  {
    if record == [] {
      assert before + record == before;
    } else {
      var n := |record| - 1;
      assert (before + record)[..|before| + n] == before + record[..n];
      assert record[n] in record;
      LastRecordStarts(before, record[..n]);
    }
  }

  lemma LastFrame(a: seq<Byte>, r: seq<Byte>, b: seq<Byte>, s: seq<Byte>)
    requires a + r + [SEPARATOR] == b + s + [SEPARATOR]
    requires SEPARATOR !in r && SEPARATOR !in s
    requires (a == [] || a[|a| - 1] == SEPARATOR) && (b == [] || b[|b| - 1] == SEPARATOR)
    ensures a == b && r == s
  {
    var x, y := a + r, b + s;
    assert x == (x + [SEPARATOR])[..|x|] && y == (y + [SEPARATOR])[..|y|];
    LastRecordStarts(a, r);
    LastRecordStarts(b, s);
    assert a == x[..|a|] && b == y[..|b|] && r == x[|a|..] && s == y[|b|..];
  }

  ghost predicate NoSeparators(records: seq<seq<Byte>>) {
    forall r :: r in records ==> SEPARATOR !in r
  }

  lemma FramedEnds(records: seq<seq<Byte>>)
    ensures Framed(records) == [] <==> records == []
    ensures records != [] ==> Framed(records)[|Framed(records)| - 1] == SEPARATOR
  {
  }

  /** The framing decodes in one way. */
  lemma {:induction false} FramingDecodes(a: seq<seq<Byte>>, b: seq<seq<Byte>>)
    requires NoSeparators(a) && NoSeparators(b) && Framed(a) == Framed(b)
    ensures a == b
    decreases |a|
  {
    FramedEnds(a);
    FramedEnds(b);
    if a != [] {
      var m, n := |a| - 1, |b| - 1;
      FramedEnds(a[..m]);
      FramedEnds(b[..n]);
      LastFrame(Framed(a[..m]), a[m], Framed(b[..n]), b[n]);
      FramingDecodes(a[..m], b[..n]);
      assert a == a[..m] + [a[m]] && b == b[..n] + [b[n]];
    }
  }

  /** One record's bytes are those of another exactly when the events are equal. */
  lemma RecordsAlike(a: Event, b: Event)
    requires Legal(a) && Legal(b)
    ensures RecordBytes(a) == RecordBytes(b) <==> SameEvent(a, b)
  {
    var v, w := Dump(a), Dump(b);
    DumpIsWellFormed(a);
    DumpIsWellFormed(b);
    CanonicalPrintable(v);
    CanonicalPrintable(w);
    CanonicalIffSame(v, w);
    if RecordBytes(a) == RecordBytes(b) {
      BytesInjective(CanonicalJson(v), CanonicalJson(w));
      SameDumpMeansSameEvent(a, b);
    }
    if SameEvent(a, b) {
      SameDumps(a, b);
    }
  }

  lemma RecordsHaveNoSeparator(events: seq<Event>)
    requires AllLegal(events)
    ensures NoSeparators(Records(events))
  {
    forall i | 0 <= i < |events| ensures SEPARATOR !in Records(events)[i] {
      RecordHasNoSeparator(events[i]);
    }
  }

  ghost predicate SameReplay(x: seq<Event>, y: seq<Event>) {
    |x| == |y| && forall i :: 0 <= i < |x| ==> SameEvent(x[i], y[i])
  }

  lemma FramedAlike(x: seq<Event>, y: seq<Event>)
    requires AllLegal(x) && AllLegal(y)
    ensures Framed(Records(x)) == Framed(Records(y)) <==> SameReplay(x, y)
  {
    if Framed(Records(x)) == Framed(Records(y)) {
      RecordsHaveNoSeparator(x);
      RecordsHaveNoSeparator(y);
      FramingDecodes(Records(x), Records(y));
      forall i | 0 <= i < |x| ensures SameEvent(x[i], y[i]) {
        assert Records(x)[i] == Records(y)[i];
        RecordsAlike(x[i], y[i]);
      }
    }
    if SameReplay(x, y) {
      forall i | 0 <= i < |x| ensures Records(x)[i] == Records(y)[i] {
        RecordsAlike(x[i], y[i]);
      }
      assert Records(x) == Records(y);
    }
  }

  /** Two logs feed the digest equal bytes exactly when they replay as equal events, one by one. */
  lemma EqualBytesEqualReplays(a: seq<Event>, b: seq<Event>)
    requires AllLegal(a) && AllLegal(b)
    ensures HashedBytes(a) == HashedBytes(b) <==> SameReplay(InTotalOrder(a), InTotalOrder(b))
  {
    ReplayLegal(a);
    ReplayLegal(b);
    FramedAlike(InTotalOrder(a), InTotalOrder(b));
  }

  /** Any recording order of a tie-free log feeds the digest the same bytes. */
  lemma PermutationsHashAlike(events: seq<Event>, permuted: seq<Event>)
    requires AllLegal(events) && AllLegal(permuted)
    requires NoDup(Keys(events)) && multiset(permuted) == multiset(events)
    ensures HashedBytes(permuted) == HashedBytes(events)
  {
    PermutationsReplayAlike(events, permuted);
  }
}
