/** Tag reads as a portal reports them, the prefix filter, and the running aggregate of one tag on one antenna. */
module TagReads {
  import opened Options
  import opened Sorting
  import opened Text

  const EPC_LENGTH := 24

  predicate IsHex(c: char) {
    IsDigit(c) || 'A' <= c <= 'F'
  }

  predicate AllHex(s: string) {
    forall i :: 0 <= i < |s| ==> IsHex(s[i])
  }

  predicate IsEpc(s: string) {
    |BeforeDollar(s)| == EPC_LENGTH && AllHex(BeforeDollar(s))
  }

  /** An identifier is 24 upper-case hexadecimal digits, and Python's $ lets a newline follow them. */
  lemma EpcsAre(s: string)
    ensures IsEpc(s) <==> (|s| == 24 || (|s| == 25 && s[24] == '\n'))
                          && forall i :: 0 <= i < 24 ==> s[i] in "0123456789ABCDEF"
  {
    assert forall c: char :: c in "0123456789ABCDEF" <==> '0' <= c <= '9' || 'A' <= c <= 'F';
  }

  type Pos = n: int | n >= 1 witness 1

  /** Instants are ticks; levels are whole dBm. */
  datatype TagRead = TagRead(epc: string, simTs: int, antennaPort: int, rssiDbm: int, phaseDeg: real, readCount: Pos)

  datatype ReadRefusal = BadEpc | BadPort | BadLevel | BadPhase | BadCount

  function NewRead(epc: string, simTs: int, antennaPort: int, rssiDbm: int, phaseDeg: real, readCount: int)
    : (r: Result<TagRead, ReadRefusal>)
    ensures r.Ok? <==> IsEpc(epc) && antennaPort >= 1 && rssiDbm < 0 && 0.0 <= phaseDeg < 360.0 && readCount >= 1
    ensures r.Ok? ==> r.value == TagRead(epc, simTs, antennaPort, rssiDbm, phaseDeg, readCount)
  {
    if !IsEpc(epc) then Err(BadEpc)
    else if antennaPort < 1 then Err(BadPort)
    else if rssiDbm >= 0 then Err(BadLevel)
    else if !(0.0 <= phaseDeg < 360.0) then Err(BadPhase)
    else if readCount < 1 then Err(BadCount)
    else Ok(TagRead(epc, simTs, antennaPort, rssiDbm, phaseDeg, readCount))
  }

  // ----- the prefix filter ------------------------------------------------------------------

  datatype FilterRefusal = EmptyPrefix | TooLong | NotHex

  function NewFilter(prefix: string): (r: Result<string, FilterRefusal>) {
    var candidate := Strip(prefix);
    if candidate == [] then Err(EmptyPrefix)
    else if |candidate| > EPC_LENGTH then Err(TooLong)
    else if BeforeDollar(candidate) == [] || !AllHex(BeforeDollar(candidate)) then Err(NotHex)
    else Ok(candidate)
  }

  lemma {:induction false} RStripEnds(s: string)
    ensures RStrip(s) != [] ==> !IsSpace(RStrip(s)[|RStrip(s)| - 1])
    decreases |s|
  {
    if s != [] && IsSpace(s[|s| - 1]) {
      RStripEnds(s[..|s| - 1]);
    }
  }

  /** Padding a hexadecimal text to the length of an identifier. */
  function Padded(s: string): (r: string)
    requires |s| <= EPC_LENGTH && AllHex(s)
    ensures |r| == EPC_LENGTH && AllHex(r) && StartsWith(r, s)
    decreases EPC_LENGTH - |s|
  {
    if |s| == EPC_LENGTH then s else Padded(s + "0")
  }

  /** A prefix is accepted exactly when, stripped, it is not empty and some legal identifier starts with it. */
  lemma FilterAcceptsIffItCanMatch(prefix: string)
    ensures NewFilter(prefix).Ok? <==> Strip(prefix) != [] && exists epc :: IsEpc(epc) && StartsWith(epc, Strip(prefix))
    ensures NewFilter(prefix).Ok? ==> NewFilter(prefix).value == Strip(prefix)
  {
    var candidate := Strip(prefix);
    RStripEnds(LStrip(prefix));
    assert candidate != [] ==> BeforeDollar(candidate) == candidate;
    if NewFilter(prefix).Ok? {
      assert IsEpc(Padded(candidate)) && StartsWith(Padded(candidate), candidate);
    }
    if candidate != [] && exists epc :: IsEpc(epc) && StartsWith(epc, candidate) {
      var epc :| IsEpc(epc) && StartsWith(epc, candidate);
      StartsInside(epc, candidate);
    }
  }

  lemma NoLonger(epc: string, candidate: string)
    requires IsEpc(epc) && StartsWith(epc, candidate)
    requires candidate != [] && !IsSpace(candidate[|candidate| - 1])
    ensures |candidate| <= EPC_LENGTH
  {
    if |candidate| == |epc| {
      assert candidate == epc;
    }
  }

  lemma StartsInside(epc: string, candidate: string)
    requires IsEpc(epc) && StartsWith(epc, candidate)
    requires candidate != [] && !IsSpace(candidate[|candidate| - 1])
    ensures |candidate| <= EPC_LENGTH && AllHex(candidate)
  {
    var core := BeforeDollar(epc);
    assert forall i :: 0 <= i < |candidate| ==> candidate[i] == epc[i];
    NoLonger(epc, candidate);
    forall i | 0 <= i < |candidate| ensures IsHex(candidate[i]) {
      assert candidate[i] == core[i];
    }
  }

  // ----- one aggregate ---------------------------------------------------------------------

  type Key = (string, int)

  datatype ReadAggregate = ReadAggregate(epc: string, antennaPort: int, readCount: Pos, rssiMin: int, rssiMax: int,
                                         rssiMean: real, firstSeen: int, lastSeen: int)

  function KeyOf(r: TagRead): Key {
    (r.epc, r.antennaPort)
  }

  function Min(a: int, b: int): int { if a <= b then a else b }

  function Max(a: int, b: int): int { if a >= b then a else b }

  /** The weighted mean of what is known, count reads, and more reads at one level. */
  function Blend(mean: real, count: Pos, level: int, more: Pos): real {
    (mean * count as real + level as real * more as real) / (count + more) as real
  }

  function Accumulate(existing: Option<ReadAggregate>, read: TagRead): ReadAggregate {
    match existing
    case None =>
      ReadAggregate(read.epc, read.antennaPort, read.readCount, read.rssiDbm, read.rssiDbm, read.rssiDbm as real,
                    read.simTs, read.simTs)
    case Some(a) =>
      var total: Pos := a.readCount + read.readCount;
      var mean := Blend(a.rssiMean, a.readCount, read.rssiDbm, read.readCount);
      ReadAggregate(a.epc, a.antennaPort, total, Min(a.rssiMin, read.rssiDbm), Max(a.rssiMax, read.rssiDbm), mean,
                    Min(a.firstSeen, read.simTs), Max(a.lastSeen, read.simTs))
  }

  function Count(rs: seq<TagRead>): (n: nat) {
    if rs == [] then 0 else Count(rs[..|rs| - 1]) + rs[|rs| - 1].readCount
  }

  /** The levels of the reads, each weighted by how often the reader saw it. */
  function Weight(rs: seq<TagRead>): (n: int) {
    if rs == [] then 0 else Weight(rs[..|rs| - 1]) + rs[|rs| - 1].rssiDbm * rs[|rs| - 1].readCount
  }

  ghost predicate IsLeast(x: int, value: TagRead -> int, rs: seq<TagRead>) {
    (forall r :: r in rs ==> x <= value(r)) && exists r :: r in rs && x == value(r)
  }

  ghost predicate IsGreatest(x: int, value: TagRead -> int, rs: seq<TagRead>) {
    (forall r :: r in rs ==> x >= value(r)) && exists r :: r in rs && x == value(r)
  }

  function Level(r: TagRead): int { r.rssiDbm }

  function Stamp(r: TagRead): int { r.simTs }

  ghost predicate MeanOf(mean: real, count: int, weight: int) {
    mean * count as real == weight as real
  }

  ghost predicate Ranges(a: ReadAggregate, rs: seq<TagRead>) {
    && IsLeast(a.rssiMin, Level, rs) && IsGreatest(a.rssiMax, Level, rs)
    && IsLeast(a.firstSeen, Stamp, rs) && IsGreatest(a.lastSeen, Stamp, rs)
  }

  /** What an aggregate ought to say about the reads of its key: no reference to how it was built. */
  ghost predicate Summarises(a: ReadAggregate, k: Key, rs: seq<TagRead>) {
    && (a.epc, a.antennaPort) == k
    && a.readCount == Count(rs)
    && MeanOf(a.rssiMean, a.readCount, Weight(rs))
    && Ranges(a, rs)
  }

  lemma FirstRead(k: Key, read: TagRead)
    requires KeyOf(read) == k
    ensures Summarises(Accumulate(None, read), k, [read])
  {
    SumsAppended([], read);
    assert [] + [read] == [read];
    FirstMean(read.rssiDbm, read.readCount);
    assert read in [read] && Level(read) == read.rssiDbm && Stamp(read) == read.simTs;
  }

  lemma FirstMean(level: int, count: Pos)
    ensures MeanOf(level as real, count, level * count)
  {
    Products(level, count);
  }

  lemma LeastAppended(x: int, value: TagRead -> int, rs: seq<TagRead>, read: TagRead)
    requires IsLeast(x, value, rs)
    ensures IsLeast(Min(x, value(read)), value, rs + [read])
  {
    var r :| r in rs && x == value(r);
    assert r in rs + [read] && read in rs + [read];
  }

  lemma GreatestAppended(x: int, value: TagRead -> int, rs: seq<TagRead>, read: TagRead)
    requires IsGreatest(x, value, rs)
    ensures IsGreatest(Max(x, value(read)), value, rs + [read])
  {
    var r :| r in rs && x == value(r);
    assert r in rs + [read] && read in rs + [read];
  }

  lemma RunningMean(mean: real, count: Pos, weight: int, level: int, more: Pos)
    requires MeanOf(mean, count, weight)
    ensures MeanOf(Blend(mean, count, level, more), count + more, weight + level * more)
  {
    var sum := mean * count as real + level as real * more as real;
    assert sum == (weight + level * more) as real by {
      Products(level, more);
    }
    Divides(sum, (count + more) as real);
  }

  lemma Products(a: int, b: int)
    ensures a as real * b as real == (a * b) as real
  {
  }

  lemma Divides(x: real, n: real)
    requires n > 0.0
    ensures (x / n) * n == x
  {
  }

  lemma MeanAppended(a: ReadAggregate, weight: int, read: TagRead)
    requires MeanOf(a.rssiMean, a.readCount, weight)
    ensures MeanOf(Accumulate(Some(a), read).rssiMean, Accumulate(Some(a), read).readCount,
      weight + read.rssiDbm * read.readCount)
  {
    RunningMean(a.rssiMean, a.readCount, weight, read.rssiDbm, read.readCount);
  }

  lemma RangesAppended(a: ReadAggregate, rs: seq<TagRead>, read: TagRead)
    requires Ranges(a, rs)
    ensures Ranges(Accumulate(Some(a), read), rs + [read])
  {
    LeastAppended(a.rssiMin, Level, rs, read);
    GreatestAppended(a.rssiMax, Level, rs, read);
    LeastAppended(a.firstSeen, Stamp, rs, read);
    GreatestAppended(a.lastSeen, Stamp, rs, read);
  }

  lemma SumsAppended(rs: seq<TagRead>, read: TagRead)
    ensures Count(rs + [read]) == Count(rs) + read.readCount
    ensures Weight(rs + [read]) == Weight(rs) + read.rssiDbm * read.readCount
  {
    assert (rs + [read])[..|rs|] == rs;
  }

  lemma NextRead(a: ReadAggregate, k: Key, rs: seq<TagRead>, read: TagRead)
    requires Summarises(a, k, rs) && KeyOf(read) == k
    ensures Summarises(Accumulate(Some(a), read), k, rs + [read])
  {
    SumsAppended(rs, read);
    RangesAppended(a, rs, read);
    MeanAppended(a, Weight(rs), read);
  }

  lemma {:induction false} CountWithout(rs: seq<TagRead>, i: nat)
    requires i < |rs|
    ensures Count(rs) == rs[i].readCount + Count(rs[..i] + rs[i + 1..])
    ensures Weight(rs) == rs[i].rssiDbm * rs[i].readCount + Weight(rs[..i] + rs[i + 1..])
    decreases |rs|
  {
    var n := |rs| - 1;
    var rest := rs[..i] + rs[i + 1..];
    if i == n {
      assert rest == rs[..n];
    } else {
      CountWithout(rs[..n], i);
      assert rest[..|rest| - 1] == rs[..n][..i] + rs[..n][i + 1..];
      assert rest[|rest| - 1] == rs[n];
    }
  }

  lemma RemovedAt<T>(b: seq<T>, i: nat)
    requires i < |b|
    ensures multiset(b) == multiset(b[..i] + b[i + 1..]) + multiset{b[i]}
  {
    assert b == (b[..i] + [b[i]]) + b[i + 1..];
    assert multiset(b[..i] + [b[i]]) == multiset(b[..i]) + multiset{b[i]};
  }

  lemma Without<T>(a: seq<T>, b: seq<T>, i: nat)
    requires a != [] && multiset(a) == multiset(b) && i < |b| && b[i] == a[|a| - 1]
    ensures multiset(a[..|a| - 1]) == multiset(b[..i] + b[i + 1..])
  {
    RemovedAt(b, i);
    RemovedAt(a, |a| - 1);
    assert a[..|a| - 1] + a[|a|..] == a[..|a| - 1];
    SameRest(multiset(a[..|a| - 1]), multiset(b[..i] + b[i + 1..]), multiset{b[i]});
  }

  lemma SameRest<T>(a: multiset<T>, b: multiset<T>, x: multiset<T>)
    requires a + x == b + x
    ensures a == b
  {
    assert a == (a + x) - x && b == (b + x) - x;
  }

  lemma {:induction false} CountPermuted(a: seq<TagRead>, b: seq<TagRead>)
    requires multiset(a) == multiset(b)
    ensures Count(a) == Count(b) && Weight(a) == Weight(b)
    decreases |a|
  {
    SameElements(a, b);
    if a != [] {
      var i := IndexOf(b, a[|a| - 1]);
      Without(a, b, i);
      CountPermuted(a[..|a| - 1], b[..i] + b[i + 1..]);
      CountWithout(b, i);
    }
  }

  lemma LeastUnique(x: int, y: int, value: TagRead -> int, rs: seq<TagRead>, ts: seq<TagRead>)
    requires forall r :: r in rs <==> r in ts
    requires (IsLeast(x, value, rs) && IsLeast(y, value, ts)) || (IsGreatest(x, value, rs) && IsGreatest(y, value, ts))
    ensures x == y
  {
  }

  /** There is one aggregate that summarises given reads, whatever order they came in. */
  lemma SummaryUnique(a: ReadAggregate, b: ReadAggregate, k: Key, rs: seq<TagRead>, ts: seq<TagRead>)
    requires multiset(rs) == multiset(ts)
    requires Summarises(a, k, rs) && Summarises(b, k, ts)
    ensures a == b
  {
    SameElements(rs, ts);
    CountPermuted(rs, ts);
    LeastUnique(a.rssiMin, b.rssiMin, Level, rs, ts);
    LeastUnique(a.rssiMax, b.rssiMax, Level, rs, ts);
    LeastUnique(a.firstSeen, b.firstSeen, Stamp, rs, ts);
    LeastUnique(a.lastSeen, b.lastSeen, Stamp, rs, ts);
    SameMean(a.rssiMean, b.rssiMean, a.readCount, Weight(rs));
  }

  lemma SameMean(x: real, y: real, count: Pos, weight: int)
    requires MeanOf(x, count, weight) && MeanOf(y, count, weight)
    ensures x == y
  {
  }
}
