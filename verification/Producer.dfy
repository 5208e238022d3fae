/** A log one process role writes with a counter of its own: clean by construction. */
module Producer {
  import opened Decimals
  import opened Envelope
  import opened EventLog

  /** The i-th event carries number i, and its id ends in that number. */
  ghost predicate Numbered(log: seq<Event>, prefix: string, producer: string) {
    forall i :: 0 <= i < |log| ==>
      log[i].id == prefix + Print(i) && log[i].producer == producer && log[i].seqNo == Print(i)
  }

  lemma NumberedKey(log: seq<Event>, prefix: string, producer: string, i: nat)
    requires Numbered(log, prefix, producer) && i < |log|
    ensures TotalOrderKey(log[i]).seqNo == i && TotalOrderKey(log[i]).producer == producer
  {
    PrintIsDecimal(i);
  }

  lemma NumberedIdsDiffer(log: seq<Event>, prefix: string, producer: string, i: nat, j: nat)
    requires Numbered(log, prefix, producer) && i < j < |log|
    ensures log[i].id != log[j].id
  {
    if log[i].id == log[j].id {
      assert Print(i) == log[i].id[|prefix|..] && Print(j) == log[j].id[|prefix|..];
      PrintInjective(i, j);
    }
  }

  lemma {:induction false} NumbersInOrder(log: seq<Event>, prefix: string, producer: string)
    requires Numbered(log, prefix, producer)
    ensures SeqsOf(Stamps(log), producer) == Range(|log|)
  {
    if log != [] {
      var n := |log| - 1;
      NumbersInOrder(log[..n], prefix, producer);
      assert Stamps(log)[..n] == Stamps(log[..n]);
      NumberedKey(log, prefix, producer, n);
      assert NumberFrom(Stamps(log)[n], producer) == [n];
    }
  }

  /** The checker accepts a numbered log. */
  lemma NumberedIsClean(log: seq<Event>, prefix: string, producer: string)
    requires Numbered(log, prefix, producer)
    ensures Violations(Stamps(log)) == []
  {
    var stamps := Stamps(log);
    forall i, j | 0 <= i < j < |stamps| ensures Ids(stamps)[i] != Ids(stamps)[j] {
      NumberedIdsDiffer(log, prefix, producer, i, j);
    }
    forall p | p in Producers(stamps) ensures Dense(stamps, p) {
      var s :| s in stamps && s.key.producer == p;
      var i :| 0 <= i < |stamps| && stamps[i] == s;
      NumberedKey(log, prefix, producer, i);
      NumbersInOrder(log, prefix, producer);
    }
    DenseLogsHaveNoTies(stamps);
    NoViolationIffClean(stamps);
  }

  ghost predicate InstantsRise(log: seq<Event>) {
    forall i, j :: 0 <= i < j < |log| ==> IntOf(log[i].simTs) <= IntOf(log[j].simTs)
  }

  /** Written under a clock that never goes back, it already stands in replay order. */
  lemma NumberedReplaysAsWritten(log: seq<Event>, prefix: string, producer: string)
    requires Numbered(log, prefix, producer) && InstantsRise(log)
    ensures StrictlyIncreasing(log) && InTotalOrder(log) == log
  {
    forall i, j | 0 <= i < j < |log| ensures KeyBelow(TotalOrderKey(log[i]), TotalOrderKey(log[j])) {
      NumberedKey(log, prefix, producer, i);
      NumberedKey(log, prefix, producer, j);
    }
    NumberedIsClean(log, prefix, producer);
    CleanHasDistinctKeys(log);
    OnlyIncreasingArrangement(log, log);
  }
}
