/** Cursor pagination: one page of the log, and the walk a client makes from page to page. */
module Pagination {
  import opened Sorting
  import opened Options
  import opened Envelope
  import opened EventLog
  import opened Cursor

  const MAX_PAGE_SIZE := 10_000

  /** The filters of one request; both instants are inclusive. */
  datatype Window = Window(subjects: Option<seq<string>>, simFrom: Option<int>, simTo: Option<int>)

  datatype EventPage = EventPage(events: seq<Event>, next: Option<Cursor>)

  predicate Selects(w: Window, e: Event) {
    && (w.subjects.Some? ==> e.subject.Some? && e.subject.value in w.subjects.value)
    && (w.simFrom.Some? ==> IntOf(e.simTs) >= w.simFrom.value)
    && (w.simTo.Some? ==> IntOf(e.simTs) <= w.simTo.value)
  }

  function Selected(events: seq<Event>, w: Window): seq<Event> {
    Filter((e: Event) => Selects(w, e), InTotalOrder(events))
  }

  predicate Past(after: Option<Cursor>, e: Event)
  {
    after.None? || KeyBelow(KeyOf(after.value), TotalOrderKey(e))
  }

  function Remaining(events: seq<Event>, w: Window, after: Option<Cursor>): seq<Event>
  {
    Filter((e: Event) => Past(after, e), Selected(events, w))
  }

  /** Err is the ValueError of a limit out of range. */
  function PageOf(events: seq<Event>, after: Option<Cursor>, limit: int, w: Window): (page: Result<EventPage, string>)
  {
    if limit < 1 || limit > MAX_PAGE_SIZE then Err("limit")
    else
      var selected := Remaining(events, w, after);
      var page := if |selected| <= limit then selected else selected[..limit];
      Ok(EventPage(page, if |selected| <= limit || page == [] then None else Some(FromEvent(page[|page| - 1]))))
  }

  // ----- sorted selections ---------------------------------------------------------------

  lemma {:induction false} FilterOrdered(before: (Event, Event) -> bool, keep: Event -> bool, s: seq<Event>)
    requires SortedBy(before, s)
    ensures SortedBy(before, Filter(keep, s))
  {
    if s != [] {
      FilterOrdered(before, keep, s[1..]);
      forall x | x in s[1..] ensures before(s[0], x) {
        var i :| 0 <= i < |s[1..]| && s[1..][i] == x;
        assert x == s[i + 1];
      }
    }
  }

  lemma FilterSorted(keep: Event -> bool, s: seq<Event>)
    requires SortedBy(EventLeq, s)
    ensures SortedBy(EventLeq, Filter(keep, s))
    ensures StrictlyIncreasing(s) ==> StrictlyIncreasing(Filter(keep, s))
  {
    FilterOrdered(EventLeq, keep, s);
    if StrictlyIncreasing(s) {
      FilterOrdered((a: Event, b: Event) => KeyBelow(TotalOrderKey(a), TotalOrderKey(b)), keep, s);
    }
  }

  lemma SelectedSorted(events: seq<Event>, w: Window)
    ensures SortedBy(EventLeq, Selected(events, w))
    ensures NoDup(Keys(events)) ==> StrictlyIncreasing(Selected(events, w))
    ensures forall e: Event :: e in Selected(events, w) <==> e in events && Selects(w, e)
  {
    TotalOrderSorts(events);
    SameElements(InTotalOrder(events), events);
    FilterSorted((e: Event) => Selects(w, e), InTotalOrder(events));
  }

  lemma RemainingSorted(events: seq<Event>, w: Window, after: Option<Cursor>)
    ensures SortedBy(EventLeq, Remaining(events, w, after))
    ensures StrictlyIncreasing(Selected(events, w)) ==> StrictlyIncreasing(Remaining(events, w, after))
    ensures forall e: Event :: e in Remaining(events, w, after) <==> e in Selected(events, w) && Past(after, e)
  {
    SelectedSorted(events, w);
    FilterSorted((e: Event) => Past(after, e), Selected(events, w));
  }

  // ----- the walk ----------------------------------------------------------------------------

  /** What a client holds: the events served so far, its cursor, and whether the last page ended the log. */
  datatype Walk = Walk(served: seq<Event>, after: Option<Cursor>, done: bool)

  predicate InRange(limit: int) {
    1 <= limit <= MAX_PAGE_SIZE
  }

  function Next(walk: Walk, events: seq<Event>, limit: int, w: Window): (r: Walk)
    requires InRange(limit)
  {
    if walk.done then walk
    else
      var page := PageOf(events, walk.after, limit, w).value;
      Walk(walk.served + page.events, page.next, page.next.None?)
  }

  /** The walk after n requests; request i finds the log logs(i) and asks for sizes(i) events. */
  function WalkFor(logs: nat -> seq<Event>, sizes: nat -> int, w: Window, n: nat): (r: Walk)
    requires forall i :: InRange(sizes(i))
  {
    if n == 0 then Walk([], None, false) else Next(WalkFor(logs, sizes, w, n - 1), logs(n - 1), sizes(n - 1), w)
  }

  /** The log only grows, by appends, and never holds two events at one position. */
  ghost predicate GrowsCleanly(logs: nat -> seq<Event>) {
    (forall i: nat :: logs(i) <= logs(i + 1)) && forall i: nat :: NoDup(Keys(logs(i)))
  }

  ghost predicate EndsAt(walk: Walk) {
    walk.after.Some? && walk.served != [] && KeyOf(walk.after.value) == TotalOrderKey(walk.served[|walk.served| - 1])
  }

  /** Between requests: what was served ends at the cursor, and nothing of the first log is behind it unserved. */
  ghost predicate KeepsUp(walk: Walk, first: seq<Event>, current: seq<Event>, w: Window) {
    && StrictlyIncreasing(walk.served)
    && (walk.after.Some? ==> !walk.done && EndsAt(walk))
    && (walk.after.None? && !walk.done ==> walk.served == [])
    && (forall e: Event :: e in walk.served ==> e in current && Selects(w, e))
    && (forall e: Event :: e in first && Selects(w, e) ==> e in walk.served || (!walk.done && Past(walk.after, e)))
  }

  lemma JoinIncreasing(a: seq<Event>, b: seq<Event>)
    requires StrictlyIncreasing(a) && StrictlyIncreasing(b)
    requires a != [] ==> forall e: Event :: e in b ==> KeyBelow(TotalOrderKey(a[|a| - 1]), TotalOrderKey(e))
    ensures StrictlyIncreasing(a + b)
  {
    var s := a + b;
    forall i, j | 0 <= i < j < |s| ensures KeyBelow(TotalOrderKey(s[i]), TotalOrderKey(s[j])) {
      if i < |a| <= j {
        assert s[j] in b;
        if i < |a| - 1 {
          KeyTransitive(TotalOrderKey(s[i]), TotalOrderKey(a[|a| - 1]), TotalOrderKey(s[j]));
        }
      } else if |a| <= i {
        assert s[i] == b[i - |a|] && s[j] == b[j - |a|];
      }
    }
  }

  /** A page is a prefix of what remains, and its cursor is missing exactly when it is all of it. */
  lemma PageFacts(events: seq<Event>, after: Option<Cursor>, limit: int, w: Window)
    requires InRange(limit)
    ensures var page, rest := PageOf(events, after, limit, w).value, Remaining(events, w, after);
      && page.events <= rest && (page.next.None? <==> page.events == rest)
      && (page.next.Some? ==>
        page.events != [] && KeyOf(page.next.value) == TotalOrderKey(page.events[|page.events| - 1]))
      && (limit == 1 || StrictlyIncreasing(Selected(events, w)) ==> StrictlyIncreasing(page.events))
      && (forall e :: e in page.events ==> e in Selected(events, w) && Past(after, e))
  {
    RemainingSorted(events, w, after);
  }

  // ----- what a page serves, in the events' own fields ------------------------------------------

  /** Its subject is one of those asked for, and its instant is between the bounds, both included. */
  ghost predicate Asked(w: Window, e: Event) {
    && (w.subjects.Some? ==> exists i :: 0 <= i < |w.subjects.value| && e.subject == Some(w.subjects.value[i]))
    && (w.simFrom.Some? ==> w.simFrom.value <= IntOf(e.simTs))
    && (w.simTo.Some? ==> IntOf(e.simTs) <= w.simTo.value)
  }

  lemma SelectsAsked(w: Window, e: Event)
    ensures Selects(w, e) <==> Asked(w, e)
  {
  }

  /** Later than the cursor: in instant, or then in producer, or then in number. */
  ghost predicate Beyond(c: Cursor, e: Event) {
    || c.simTs < IntOf(e.simTs)
    || (c.simTs == IntOf(e.simTs) && c.producer != e.producer && Precedes(c.producer, e.producer))
    || (c.simTs == IntOf(e.simTs) && c.producer == e.producer && c.seqNo < IntOf(e.seqNo))
  }

  lemma PastIsBeyond(c: Cursor, e: Event)
    ensures Past(Some(c), e) <==> Beyond(c, e)
  {
    StringLeqIs(c.producer, e.producer);
  }

  ghost predicate Eligible(events: seq<Event>, after: Option<Cursor>, w: Window, e: Event) {
    e in events && Asked(w, e) && (after.Some? ==> Beyond(after.value, e))
  }

  lemma RemainingAre(events: seq<Event>, after: Option<Cursor>, w: Window, e: Event)
    ensures e in Remaining(events, w, after) <==> Eligible(events, after, w, e)
  {
    SelectedSorted(events, w);
    RemainingSorted(events, w, after);
    SelectsAsked(w, e);
    if after.Some? { PastIsBeyond(after.value, e); }
  }

  /** A page answers exactly for a limit in range. It holds only events of the log that were asked for and lie beyond
      the cursor, no more than the limit, in the order of their fields. What it leaves out comes after its last
      event. */
  lemma PageServes(events: seq<Event>, after: Option<Cursor>, limit: int, w: Window)
    ensures PageOf(events, after, limit, w).Ok? <==> 1 <= limit <= 10_000
    ensures PageOf(events, after, limit, w).Ok? ==>
      var page := PageOf(events, after, limit, w).value.events;
      && |page| <= limit
      && (forall e :: e in page ==> Eligible(events, after, w, e))
      && (forall i, j :: 0 <= i < j < |page| ==> InFieldOrder(page[i], page[j]))
      && (forall e :: Eligible(events, after, w, e) ==>
           e in page || (|page| == limit && InFieldOrder(page[limit - 1], e)))
  {
    if 1 <= limit <= 10_000 {
      var rest, page := Remaining(events, w, after), PageOf(events, after, limit, w).value.events;
      RemainingSorted(events, w, after);
      forall e ensures e in rest <==> Eligible(events, after, w, e) {
        RemainingAre(events, after, w, e);
      }
      PrefixServes(rest, page);
      forall e | e in rest ensures e in page || (|page| == limit && InFieldOrder(page[limit - 1], e)) {
        LeftOutComesAfter(rest, page, e);
      }
    }
  }

  lemma PrefixServes(rest: seq<Event>, page: seq<Event>)
    requires SortedBy(EventLeq, rest) && page <= rest
    ensures forall e :: e in page ==> e in rest
    ensures forall i, j :: 0 <= i < j < |page| ==> InFieldOrder(page[i], page[j])
  {
    forall i, j | 0 <= i < j < |page| ensures InFieldOrder(page[i], page[j]) {
      EventLeqIs(rest[i], rest[j]);
    }
  }

  lemma LeftOutComesAfter(rest: seq<Event>, page: seq<Event>, e: Event)
    requires SortedBy(EventLeq, rest) && page <= rest && e in rest
    ensures e in page || page == [] || InFieldOrder(page[|page| - 1], e)
  {
    var i :| 0 <= i < |rest| && rest[i] == e;
    if i < |page| {
      assert page[i] == e;
    } else if page != [] {
      EventLeqIs(rest[|page| - 1], rest[i]);
    }
  }

  lemma RemainingNoDup(events: seq<Event>, after: Option<Cursor>, w: Window)
    requires NoDup(events)
    ensures NoDup(Remaining(events, w, after))
  {
    TotalOrderSorts(events);
    SameMultisetNoDup(events, InTotalOrder(events));
    FilterNoDup((e: Event) => Selects(w, e), InTotalOrder(events));
    FilterNoDup((e: Event) => Past(after, e), Selected(events, w));
  }

  /** The next cursor is made of the fields of the page's last event. */
  lemma NextCursorIs(events: seq<Event>, after: Option<Cursor>, limit: int, w: Window)
    requires InRange(limit) && PageOf(events, after, limit, w).value.next.Some?
    ensures var page := PageOf(events, after, limit, w).value;
      && |page.events| == limit
      && var last := page.events[limit - 1];
         page.next.value == Cursor(IntOf(last.simTs), last.producer, IntOf(last.seqNo))
  {
  }

  /** No cursor comes back only when the page holds all that is left, and on a log without repetitions exactly then. */
  lemma LastPageIff(events: seq<Event>, after: Option<Cursor>, limit: int, w: Window)
    requires InRange(limit)
    ensures var page := PageOf(events, after, limit, w).value;
      && (page.next.None? ==> forall e :: Eligible(events, after, w, e) ==> e in page.events)
      && (page.next.Some? && NoDup(events) ==> exists e :: Eligible(events, after, w, e) && e !in page.events)
  {
    PageFacts(events, after, limit, w);
    var rest, page := Remaining(events, w, after), PageOf(events, after, limit, w).value;
    if page.next.None? {
      forall e | Eligible(events, after, w, e) ensures e in page.events { RemainingAre(events, after, w, e); }
    } else if NoDup(events) {
      OneIsLeftOut(events, after, limit, w);
    }
  }

  lemma OneIsLeftOut(events: seq<Event>, after: Option<Cursor>, limit: nat, w: Window)
    requires NoDup(events) && limit < |Remaining(events, w, after)|
    ensures exists e :: Eligible(events, after, w, e) && e !in Remaining(events, w, after)[..limit]
  {
    var rest := Remaining(events, w, after);
    RemainingNoDup(events, after, w);
    assert rest[limit] in rest && rest[limit] !in rest[..limit];
    RemainingAre(events, after, w, rest[limit]);
  }

  /** What a page leaves out of an increasing rest lies past the page's last event. */
  lemma CutIsClean(rest: seq<Event>, page: seq<Event>, e: Event)
    requires StrictlyIncreasing(rest) && page <= rest && page != [] && e in rest
    ensures e in page || KeyBelow(TotalOrderKey(page[|page| - 1]), TotalOrderKey(e))
  {
    var i :| 0 <= i < |rest| && rest[i] == e;
    if i < |page| {
      assert page[i] == e;
    }
  }

  lemma NextServes(walk: Walk, events: seq<Event>, limit: int, w: Window)
    requires InRange(limit) && !walk.done && StrictlyIncreasing(walk.served)
    requires (walk.after.Some? ==> EndsAt(walk)) && (walk.after.None? ==> walk.served == [])
    requires limit == 1 || StrictlyIncreasing(Selected(events, w))
    ensures var next := Next(walk, events, limit, w);
      && StrictlyIncreasing(next.served)
      && (next.after.Some? ==> !next.done && EndsAt(next)) && (next.after.None? ==> next.done)
  {
    PageFacts(events, walk.after, limit, w);
    var page := PageOf(events, walk.after, limit, w).value.events;
    JoinIncreasing(walk.served, page);
  }

  lemma NextKeepsUp(walk: Walk, first: seq<Event>, before: seq<Event>, events: seq<Event>, limit: int, w: Window)
    requires KeepsUp(walk, first, before, w) && InRange(limit) && !walk.done
    requires before <= events && first <= events && NoDup(Keys(events))
    ensures KeepsUp(Next(walk, events, limit, w), first, events, w)
  {
    SelectedSorted(events, w);
    RemainingSorted(events, w, walk.after);
    PageFacts(events, walk.after, limit, w);
    NextServes(walk, events, limit, w);
    var rest, next := Remaining(events, w, walk.after), Next(walk, events, limit, w);
    var page := PageOf(events, walk.after, limit, w).value.events;
    forall e | e in first && Selects(w, e) ensures e in next.served || (!next.done && Past(next.after, e)) {
      if e !in walk.served {
        assert e in events && e in rest;
        if !next.done {
          CutIsClean(rest, page, e);
        }
      }
    }
    forall e | e in next.served ensures e in events && Selects(w, e) {
      assert e in walk.served || e in page;
    }
  }

  lemma {:induction false} PrefixOfLater(logs: nat -> seq<Event>, i: nat, j: nat)
    requires GrowsCleanly(logs) && i <= j
    ensures logs(i) <= logs(j)
    decreases j - i
  {
    if i < j {
      PrefixOfLater(logs, i, j - 1);
      assert logs(j - 1) <= logs(j - 1 + 1);
    }
  }

  lemma {:induction false} WalkKeepsUp(logs: nat -> seq<Event>, sizes: nat -> int, w: Window, n: nat)
    requires GrowsCleanly(logs) && forall i :: InRange(sizes(i))
    ensures KeepsUp(WalkFor(logs, sizes, w, n), logs(0), logs(if n == 0 then 0 else n - 1), w)
  {
    if n > 0 {
      WalkKeepsUp(logs, sizes, w, n - 1);
      var walk := WalkFor(logs, sizes, w, n - 1);
      var last := if n == 1 then 0 else n - 2;
      PrefixOfLater(logs, 0, n - 1);
      PrefixOfLater(logs, last, n - 1);
      if !walk.done {
        NextKeepsUp(walk, logs(0), logs(last), logs(n - 1), sizes(n - 1), w);
      }
    }
  }

  function Among(events: seq<Event>): Event -> bool {
    (e: Event) => e in events
  }

  /** Of what a finished walk served, the events of the first log are exactly its selection, in order and once each. */
  lemma GrowingLogServedOnce(logs: nat -> seq<Event>, sizes: nat -> int, w: Window, n: nat)
    requires GrowsCleanly(logs) && forall i :: InRange(sizes(i))
    requires WalkFor(logs, sizes, w, n).done
    ensures Filter(Among(logs(0)), WalkFor(logs, sizes, w, n).served) == Selected(logs(0), w)
    ensures StrictlyIncreasing(WalkFor(logs, sizes, w, n).served)
  {
    WalkKeepsUp(logs, sizes, w, n);
    var served := WalkFor(logs, sizes, w, n).served;
    var kept := Filter(Among(logs(0)), served);
    IncreasingIsSorted(served);
    FilterSorted(Among(logs(0)), served);
    SelectedSorted(logs(0), w);
    SameIncreasing(kept, Selected(logs(0), w));
  }

  /** Increasing sequences with the same elements are equal. */
  lemma SameIncreasing(a: seq<Event>, b: seq<Event>)
    requires StrictlyIncreasing(a) && StrictlyIncreasing(b) && forall e: Event :: e in a <==> e in b
    ensures a == b
  {
    IncreasingIsSorted(a);
    IncreasingIsSorted(b);
    DistinctKeysSeparate(a);
    DistinctKeysSeparate(b);
    forall e ensures multiset(a)[e] == multiset(b)[e] {
      MultiplicityAtMostOne(a, e);
      MultiplicityAtMostOne(b, e);
      assert e in a <==> e in multiset(a);
      assert e in b <==> e in multiset(b);
    }
    OnlyIncreasingArrangement(b, a);
    OnlyIncreasingArrangement(b, b);
  }

  // ----- a log that stands still ------------------------------------------------------------

  /** Each request that does not end the walk serves at least one event and leaves that many fewer. */
  lemma RestShrinks(events: seq<Event>, w: Window, after: Option<Cursor>, limit: int)
    requires InRange(limit)
    requires PageOf(events, after, limit, w).value.next.Some?
    ensures |Remaining(events, w, PageOf(events, after, limit, w).value.next)| < |Remaining(events, w, after)|
  {
    RemainingSorted(events, w, after);
    var rest, next := Remaining(events, w, after), PageOf(events, after, limit, w).value.next;
    var selected := Selected(events, w);
    assert next == Some(FromEvent(rest[limit - 1])) && KeyOf(next.value) == TotalOrderKey(rest[limit - 1]);
    forall e: Event | e in selected && Past(next, e) ensures Past(after, e) {
      if after.Some? {
        assert rest[limit - 1] in rest;
        KeyTransitive(KeyOf(after.value), KeyOf(next.value), TotalOrderKey(e));
      }
    }
    KeyTotal(KeyOf(next.value), TotalOrderKey(rest[limit - 1]));
    FewerPass((e: Event) => Past(next, e), (e: Event) => Past(after, e), selected, rest[limit - 1]);
  }

  lemma {:induction false} FewerPass(strict: Event -> bool, lax: Event -> bool, s: seq<Event>, lost: Event)
    requires forall e: Event :: e in s && strict(e) ==> lax(e)
    ensures |Filter(strict, s)| <= |Filter(lax, s)|
    ensures lost in s && lax(lost) && !strict(lost) ==> |Filter(strict, s)| < |Filter(lax, s)|
  {
    if s != [] {
      FewerPass(strict, lax, s[1..], lost);
    }
  }

  ghost predicate Still(logs: nat -> seq<Event>, events: seq<Event>) {
    forall i :: logs(i) == events
  }

  /** From request m on the log no longer changes. */
  ghost predicate StillFrom(logs: nat -> seq<Event>, m: nat, events: seq<Event>) {
    forall i: nat :: i >= m ==> logs(i) == events
  }

  /** How much of the log a walk has before it. */
  function Left(walk: Walk, events: seq<Event>, w: Window): nat {
    |Remaining(events, w, walk.after)|
  }

  lemma NextAdvances(walk: Walk, events: seq<Event>, limit: int, w: Window)
    requires InRange(limit)
    ensures Next(walk, events, limit, w).done || Left(Next(walk, events, limit, w), events, w) < Left(walk, events, w)
    ensures walk.done ==> Next(walk, events, limit, w).done
  {
    if !Next(walk, events, limit, w).done {
      RestShrinks(events, w, walk.after, limit);
    }
  }

  lemma OneMoreRequest(logs: nat -> seq<Event>, sizes: nat -> int, w: Window, k: nat)
    requires forall i :: InRange(sizes(i))
    ensures WalkFor(logs, sizes, w, k + 1) == Next(WalkFor(logs, sizes, w, k), logs(k), sizes(k), w)
  {
  }

  /** What falls at every step that does not end a run has fallen by the number of steps. */
  lemma {:induction false} FallsUntilDone(left: nat -> nat, done: nat -> bool, m: nat, k: nat)
    requires m <= k
    requires forall i: nat :: m <= i < k ==> (done(i) ==> done(i + 1)) && (done(i + 1) || left(i + 1) < left(i))
    ensures done(k) || left(k) + (k - m) <= left(m)
    decreases k - m
  {
    if k > m {
      FallsUntilDone(left, done, m, k - 1);
      assert (done(k - 1) ==> done(k - 1 + 1)) && (done(k - 1 + 1) || left(k - 1 + 1) < left(k - 1));
    }
  }

  lemma RequestAdvances(logs: nat -> seq<Event>, sizes: nat -> int, w: Window, k: nat)
    requires forall i :: InRange(sizes(i))
    ensures var walk, next := WalkFor(logs, sizes, w, k), WalkFor(logs, sizes, w, k + 1);
      (walk.done ==> next.done) && (next.done || Left(next, logs(k), w) < Left(walk, logs(k), w))
  {
    OneMoreRequest(logs, sizes, w, k);
    NextAdvances(WalkFor(logs, sizes, w, k), logs(k), sizes(k), w);
  }

  /** What is still to be served when the log stops growing bounds the requests that remain. */
  function RequestsLeft(logs: nat -> seq<Event>, m: nat, events: seq<Event>, sizes: nat -> int, w: Window): nat
    requires forall i :: InRange(sizes(i))
  {
    Left(WalkFor(logs, sizes, w, m), events, w) + 1
  }

  /** Once the log stops growing, the walk ends within one request for each event that remains, and one more. */
  lemma SettledWalkEnds(logs: nat -> seq<Event>, m: nat, events: seq<Event>, sizes: nat -> int, w: Window, n: nat)
    requires StillFrom(logs, m, events) && forall i :: InRange(sizes(i))
    requires n >= m + RequestsLeft(logs, m, events, sizes, w)
    ensures WalkFor(logs, sizes, w, n).done
  {
    var left, done := (k: nat) => Left(WalkFor(logs, sizes, w, k), events, w),
      (k: nat) => WalkFor(logs, sizes, w, k).done;
    forall k: nat | m <= k ensures (done(k) ==> done(k + 1)) && (done(k + 1) || left(k + 1) < left(k)) {
      RequestAdvances(logs, sizes, w, k);
    }
    FallsUntilDone(left, done, m, n);
  }

  /** A log that grows cleanly for a while and then stands still is walked to the end, and every event it began with is
      served exactly once, in order. */
  lemma SettledLogServedOnce(logs: nat -> seq<Event>, m: nat, events: seq<Event>, sizes: nat -> int, w: Window, n: nat)
    requires GrowsCleanly(logs) && StillFrom(logs, m, events) && forall i :: InRange(sizes(i))
    requires n >= m + RequestsLeft(logs, m, events, sizes, w)
    ensures var walk := WalkFor(logs, sizes, w, n);
      walk.done && StrictlyIncreasing(walk.served) && Filter(Among(logs(0)), walk.served) == Selected(logs(0), w)
  {
    SettledWalkEnds(logs, m, events, sizes, w, n);
    GrowingLogServedOnce(logs, sizes, w, n);
  }

  /** In such a walk an event of the first log is served exactly if it was asked for, and nothing else is served but
      what was asked for and came later. */
  lemma WalkServesWhatWasAsked(logs: nat -> seq<Event>, m: nat, events: seq<Event>, sizes: nat -> int, w: Window,
        n: nat, e: Event)
    requires GrowsCleanly(logs) && StillFrom(logs, m, events) && forall i :: InRange(sizes(i))
    requires n >= m + RequestsLeft(logs, m, events, sizes, w)
    ensures e in logs(0) ==> (e in WalkFor(logs, sizes, w, n).served <==> Asked(w, e))
    ensures e in WalkFor(logs, sizes, w, n).served ==> Asked(w, e) && e in logs(if n == 0 then 0 else n - 1)
  {
    SettledWalkEnds(logs, m, events, sizes, w, n);
    WalkKeepsUp(logs, sizes, w, n);
    SelectsAsked(w, e);
  }

  lemma FilterAll(events: seq<Event>, w: Window)
    ensures Remaining(events, w, None) == Selected(events, w)
  {
    FilterKeepsAll((e: Event) => Past(None, e), Selected(events, w));
  }

  /** On a log that stands still the walk ends within one request per event plus one, whatever the page sizes. */
  lemma StillWalkEnds(logs: nat -> seq<Event>, events: seq<Event>, sizes: nat -> int, w: Window)
    requires Still(logs, events) && forall i :: InRange(sizes(i))
    ensures WalkFor(logs, sizes, w, |Selected(events, w)| + 1).done
  {
    FilterAll(events, w);
    SettledWalkEnds(logs, 0, events, sizes, w, |Selected(events, w)| + 1);
  }

  /** The events served one at a time are strictly increasing even on a log with ties. */
  lemma {:induction false} SinglesIncrease(logs: nat -> seq<Event>, events: seq<Event>, w: Window, n: nat)
    requires Still(logs, events)
    ensures var walk := WalkFor(logs, (i: nat) => 1, w, n);
      && StrictlyIncreasing(walk.served)
      && (walk.after.Some? ==> EndsAt(walk))
      && (walk.after.None? && !walk.done ==> walk.served == [])
  {
    if n > 0 {
      SinglesIncrease(logs, events, w, n - 1);
      var walk := WalkFor(logs, (i: nat) => 1, w, n - 1);
      if !walk.done {
        NextServes(walk, logs(n - 1), 1, w);
      }
    }
  }

  ghost predicate Complete(logs: nat -> seq<Event>, events: seq<Event>, sizes: nat -> int, w: Window)
    requires forall i :: InRange(sizes(i))
  {
    WalkFor(logs, sizes, w, |Selected(events, w)| + 1).served == Selected(events, w)
  }

  lemma TieFreeWalkCompletes(logs: nat -> seq<Event>, events: seq<Event>, sizes: nat -> int, w: Window)
    requires Still(logs, events) && (forall i :: InRange(sizes(i))) && StrictlyIncreasing(Selected(events, w))
    ensures Complete(logs, events, sizes, w)
  {
    StillWalkEnds(logs, events, sizes, w);
    StillWalkServes(logs, events, sizes, w, |Selected(events, w)| + 1);
    SelectedSorted(events, w);
  }

  /** What a walk has still to serve. */
  ghost function Due(walk: Walk, events: seq<Event>, w: Window): seq<Event> {
    if walk.done then [] else Remaining(events, w, walk.after)
  }

  lemma NextIsDue(walk: Walk, events: seq<Event>, limit: int, w: Window)
    requires InRange(limit) && StrictlyIncreasing(Selected(events, w))
    requires walk.served + Due(walk, events, w) == Selected(events, w)
    ensures var next := Next(walk, events, limit, w); next.served + Due(next, events, w) == Selected(events, w)
  {
    if !walk.done {
      var rest := Remaining(events, w, walk.after);
      if |rest| > limit {
        CutSuffix(Selected(events, w), walk.served, rest, limit);
        assert rest == rest[..limit] + rest[limit..];
        assert walk.served + rest[..limit] + rest[limit..] == Selected(events, w);
      }
    }
  }

  ghost predicate AllAccounted(walk: Walk, events: seq<Event>, w: Window) {
    walk.served + Due(walk, events, w) == Selected(events, w)
  }

  lemma RequestAccounts(logs: nat -> seq<Event>, sizes: nat -> int, w: Window, k: nat)
    requires (forall i :: InRange(sizes(i))) && StrictlyIncreasing(Selected(logs(k), w))
    requires AllAccounted(WalkFor(logs, sizes, w, k), logs(k), w)
    ensures AllAccounted(WalkFor(logs, sizes, w, k + 1), logs(k), w)
  {
    OneMoreRequest(logs, sizes, w, k);
    NextIsDue(WalkFor(logs, sizes, w, k), logs(k), sizes(k), w);
  }

  /** What has been served and what is due make up the selection. */
  lemma {:induction false} StillWalkServes(logs: nat -> seq<Event>, events: seq<Event>, sizes: nat -> int, w: Window,
        n: nat)
    requires Still(logs, events) && (forall i :: InRange(sizes(i))) && StrictlyIncreasing(Selected(events, w))
    ensures AllAccounted(WalkFor(logs, sizes, w, n), events, w)
  {
    if n == 0 {
      FilterAll(events, w);
    } else {
      StillWalkServes(logs, events, sizes, w, n - 1);
      assert logs(n - 1) == events;
      RequestAccounts(logs, sizes, w, n - 1);
    }
  }

  /** In an increasing selection, the events past the last of a page are those after the page. */
  lemma CutSuffix(selected: seq<Event>, served: seq<Event>, rest: seq<Event>, limit: nat)
    requires StrictlyIncreasing(selected) && selected == served + rest && 1 <= limit < |rest|
    ensures Filter((e: Event) => Past(Some(FromEvent(rest[limit - 1])), e), selected) == rest[limit..]
  {
    var k := |served| + limit;
    var keep := (e: Event) => Past(Some(FromEvent(rest[limit - 1])), e);
    assert selected[k - 1] == rest[limit - 1];
    assert selected == selected[..k] + selected[k..] && selected[k..] == rest[limit..];
    forall e: Event | e in selected[..k] ensures !keep(e) {
      var i :| 0 <= i < k && selected[i] == e;
      KeyTotal(TotalOrderKey(selected[i]), TotalOrderKey(selected[k - 1]));
    }
    forall e: Event | e in selected[k..] ensures keep(e) {
      var i :| 0 <= i < |selected| - k && selected[k..][i] == e;
      assert selected[k + i] == e;
    }
    KeepsNone(keep, selected[..k], selected[k..]);
    FilterKeepsAll(keep, selected[k..]);
  }

  lemma {:induction false} KeepsNone(keep: Event -> bool, a: seq<Event>, b: seq<Event>)
    requires forall e: Event :: e in a ==> !keep(e)
    ensures Filter(keep, a + b) == Filter(keep, b)
  {
    if a == [] {
      assert a + b == b;
    } else {
      assert (a + b)[1..] == a[1..] + b;
      assert a[0] in a;
      KeepsNone(keep, a[1..], b);
    }
  }

  /** Walks of every schedule of page sizes serve the whole selection exactly when it holds no tie. */
  lemma CompleteIffTieFree(logs: nat -> seq<Event>, events: seq<Event>, w: Window)
    requires Still(logs, events)
    ensures (forall sizes: nat -> int :: (forall i :: InRange(sizes(i))) ==> Complete(logs, events, sizes, w))
      <==> StrictlyIncreasing(Selected(events, w))
  {
    if StrictlyIncreasing(Selected(events, w)) {
      forall sizes: nat -> int | (forall i :: InRange(sizes(i))) ensures Complete(logs, events, sizes, w) {
        TieFreeWalkCompletes(logs, events, sizes, w);
      }
    } else {
      var ones := (i: nat) => 1;
      SinglesIncrease(logs, events, w, |Selected(events, w)| + 1);
      assert forall i :: InRange(ones(i));
      assert !Complete(logs, events, ones, w);
    }
  }
}
