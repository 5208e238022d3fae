/** The event envelope, its total order key, and the JSON it is dumped to. */
module Envelope {
  import opened Sorting
  import opened Options
  import opened Decimals
  import opened Json
  import opened Canonical

  const PRODUCER_IDS: seq<string> := ["sim", "api", "dashboard", "agent", "device-agent", "cli"]

  /** twinflowsimts and twinflowseq are decimal strings; data is a dictionary of JSON values. */
  datatype Envelope = Envelope(id: string, source: string, etype: string, time: string, subject: Option<string>,
                               dataschema: string, simTs: string, runId: string, producer: string, seqNo: string,
                               causation: Option<string>, correlation: Option<string>, partitionKey: Option<string>,
                               traceparent: Option<string>, tracestate: Option<string>, data: seq<Field>)

  type Event = Envelope

  /** What the model's declarative constraints leave constructible. */
  predicate Legal(e: Event) {
    IsDecimal(e.simTs) && IsDecimal(e.seqNo) && e.producer in PRODUCER_IDS && WellFormed(Obj(e.data))
  }

  /** int(text), on the decimal strings a legal envelope holds. */
  function IntOf(text: string): nat {
    if AllDigits(text) then Value(text) else 0
  }

  datatype Key = Key(simTs: nat, producer: string, seqNo: nat)

  function TotalOrderKey(e: Event): Key {
    Key(IntOf(e.simTs), e.producer, IntOf(e.seqNo))
  }

  /** Tuple order; the producers are ASCII, so their byte order is their code point order. */
  predicate KeyBelow(a: Key, b: Key) {
    || a.simTs < b.simTs
    || (a.simTs == b.simTs && a.producer != b.producer && StringLeq(a.producer, b.producer))
    || (a.simTs == b.simTs && a.producer == b.producer && a.seqNo < b.seqNo)
  }

  predicate EventLeq(a: Event, b: Event) {
    TotalOrderKey(a) == TotalOrderKey(b) || KeyBelow(TotalOrderKey(a), TotalOrderKey(b))
  }

  lemma KeyTotal(a: Key, b: Key)
    ensures a == b || KeyBelow(a, b) || KeyBelow(b, a)
    ensures !(KeyBelow(a, b) && KeyBelow(b, a)) && (a == b ==> !KeyBelow(a, b))
  {
    StringTotal(a.producer, b.producer);
  }

  lemma KeyTransitive(a: Key, b: Key, c: Key)
    requires KeyBelow(a, b) && KeyBelow(b, c)
    ensures KeyBelow(a, c)
  {
    if a.simTs == b.simTs == c.simTs && a.producer != b.producer && b.producer != c.producer {
      StringTransitive(a.producer, b.producer, c.producer);
      StringTotal(a.producer, b.producer);
    }
  }

  lemma EventOrder()
    ensures TotalPreorder(EventLeq)
  {
    forall a: Event, b: Event ensures EventLeq(a, b) || EventLeq(b, a) {
      KeyTotal(TotalOrderKey(a), TotalOrderKey(b));
    }
    forall a: Event, b: Event, c: Event | EventLeq(a, b) && EventLeq(b, c) ensures EventLeq(a, c) {
      if TotalOrderKey(a) != TotalOrderKey(b) && TotalOrderKey(b) != TotalOrderKey(c) {
        KeyTransitive(TotalOrderKey(a), TotalOrderKey(b), TotalOrderKey(c));
      }
    }
  }

  // ----- model_dump(mode="json", exclude_none=True) ------------------------------------

  const ATTRIBUTES: seq<string> := ["specversion", "id", "source", "type", "time", "datacontenttype", "subject",
    "dataschema", "twinflowsimts", "twinflowrunid", "twinflowproducerid", "twinflowseq", "twinflowcausationid",
    "twinflowcorrid", "partitionkey", "traceparent", "tracestate", "data"]

  function OptionalText(value: Option<string>): Option<Json> {
    match value case None => None case Some(s) => Some(Str(s))
  }

  /** The value of each attribute, None where the envelope carries none. */
  function AttributeValues(e: Event): seq<Option<Json>> {
    [Some(Str("1.0")), Some(Str(e.id)), Some(Str(e.source)), Some(Str(e.etype)), Some(Str(e.time)),
     Some(Str("application/json")), OptionalText(e.subject), Some(Str(e.dataschema)), Some(Str(e.simTs)),
     Some(Str(e.runId)), Some(Str(e.producer)), Some(Str(e.seqNo)), OptionalText(e.causation),
     OptionalText(e.correlation), OptionalText(e.partitionKey), OptionalText(e.traceparent), OptionalText(e.tracestate),
     Some(Obj(e.data))]
  }

  /** exclude_none: an attribute without a value is left out. */
  function Present(keys: seq<string>, values: seq<Option<Json>>): seq<Field>
    requires |keys| == |values|
  {
    if keys == [] then []
    else (if values[0].Some? then [Field(keys[0], values[0].value)] else []) + Present(keys[1..], values[1..])
  }

  function Dump(e: Event): Json {
    Obj(Present(ATTRIBUTES, AttributeValues(e)))
  }

  lemma AttributesAreDistinct()
    ensures NoDup(ATTRIBUTES)
  {
    var a := ATTRIBUTES;
    assert |a[0]| == 11 && a[0][0] == 's' && |a[1]| == 2 && |a[2]| == 6 && |a[3]| == 4 && a[3][1] == 'y';
    assert |a[4]| == 4 && a[4][1] == 'i' && |a[5]| == 15 && |a[6]| == 7 && |a[7]| == 10;
    assert |a[8]| == 13 && a[8][8] == 's' && |a[9]| == 13 && a[9][8] == 'r' && |a[10]| == 18;
    assert |a[11]| == 11 && a[11][1] == 'w' && |a[12]| == 19 && |a[13]| == 14 && |a[14]| == 12;
    assert a[0][1] == 'p' && |a[15]| == 11 && a[15][1] == 'r' && a[7][0] == 'd' && |a[16]| == 10 && a[16][0] == 't';
    assert |a[17]| == 4 && a[17][1] == 'a';
  }

  lemma {:induction false} PresentKeys(keys: seq<string>, values: seq<Option<Json>>)
    requires |keys| == |values| && NoDup(keys)
    ensures DistinctKeys(Present(keys, values))
    ensures forall f :: f in Present(keys, values) ==>
      exists i :: 0 <= i < |keys| && f.key == keys[i] && values[i] == Some(f.value)
  {
    if keys != [] {
      var rest := Present(keys[1..], values[1..]);
      PresentKeys(keys[1..], values[1..]);
      forall f | f in rest
        ensures f.key != keys[0] && exists i :: 0 <= i < |keys| && f.key == keys[i] && values[i] == Some(f.value)
      {
        var i :| 0 <= i < |keys[1..]| && f.key == keys[1..][i] && values[1..][i] == Some(f.value);
        assert keys[i + 1] == f.key && values[i + 1] == Some(f.value);
      }
    }
  }

  lemma AttributeWellFormed(e: Event, i: nat)
    requires Legal(e) && i < 18 && AttributeValues(e)[i].Some?
    ensures WellFormed(AttributeValues(e)[i].value)
  {
    assert i < 17 ==> AttributeValues(e)[i].value.Str?;
  }

  lemma DumpIsWellFormed(e: Event)
    requires Legal(e)
    ensures WellFormed(Dump(e))
  {
    AttributesAreDistinct();
    var values := AttributeValues(e);
    PresentKeys(ATTRIBUTES, values);
    forall f | f in Dump(e).fields ensures WellFormed(f.value) {
      var i :| 0 <= i < |ATTRIBUTES| && f.key == ATTRIBUTES[i] && values[i] == Some(f.value);
      AttributeWellFormed(e, i);
    }
  }

  // ----- equal dumps are equal events ----------------------------------------------------

  /** Equal envelopes: every attribute equal, data equal as a dictionary. */
  ghost predicate SameEvent(a: Event, b: Event) {
    a.(data := []) == b.(data := []) && SameValue(Obj(a.data), Obj(b.data))
  }

  /** The value a list of fields gives a key, None where it has none. */
  ghost predicate Gives(fields: seq<Field>, key: string, value: Option<Json>) {
    match value
    case None => forall f :: f in fields ==> f.key != key
    case Some(v) => Field(key, v) in fields
  }

  lemma {:induction false} PresentGives(keys: seq<string>, values: seq<Option<Json>>, i: nat)
    requires |keys| == |values| && NoDup(keys) && i < |keys|
    ensures Gives(Present(keys, values), keys[i], values[i])
  {
    if i > 0 {
      PresentGives(keys[1..], values[1..], i - 1);
      assert keys[1..][i - 1] == keys[i] && keys[0] != keys[i];
    } else {
      PresentKeys(keys[1..], values[1..]);
      forall f | f in Present(keys[1..], values[1..]) ensures f.key != keys[0] {
        var j :| 0 <= j < |keys[1..]| && f.key == keys[1..][j] && values[1..][j] == Some(f.value);
        assert keys[j + 1] != keys[0];
      }
    }
  }

  ghost predicate SameOption(a: Option<Json>, b: Option<Json>) {
    (a.Some? <==> b.Some?) && (a.Some? ==> SameValue(a.value, b.value))
  }

  /** Equal dictionaries give every key the same value. */
  lemma SameDictionariesGive(a: seq<Field>, b: seq<Field>, key: string, va: Option<Json>, vb: Option<Json>)
    requires SameValue(Obj(a), Obj(b)) && DistinctKeys(a) && DistinctKeys(b)
    requires Gives(a, key, va) && Gives(b, key, vb)
    ensures SameOption(va, vb)
  {
    if va.Some? {
      var i :| 0 <= i < |a| && a[i] == Field(key, va.value);
      assert HasField(a[i], b);
      var j :| 0 <= j < |b| && a[i].key == b[j].key && SameValue(a[i].value, b[j].value);
      assert b[j] in b;
      var k :| 0 <= k < |b| && b[k] == Field(key, vb.value);
      assert j == k;
    } else if vb.Some? {
      MissingKey(a, b, key, vb.value);
    }
  }

  /** Of two equal dictionaries neither has a key the other lacks. */
  lemma MissingKey(a: seq<Field>, b: seq<Field>, key: string, v: Json)
    requires SameValue(Obj(a), Obj(b)) && DistinctKeys(a) && DistinctKeys(b)
    requires Field(key, v) in b
    ensures exists f :: f in a && f.key == key
  {
    var keysA, keysB := set f | f in a :: f.key, set f | f in b :: f.key;
    KeyCount(a);
    KeyCount(b);
    forall k | k in keysA ensures k in keysB {
      var f :| f in a && f.key == k;
      var i :| 0 <= i < |a| && a[i] == f;
      assert HasField(a[i], b);
      var j :| 0 <= j < |b| && a[i].key == b[j].key && SameValue(a[i].value, b[j].value);
      assert b[j] in b;
    }
    SubsetCardinality(keysA, keysB);
    assert Field(key, v).key in keysB;
  }

  lemma {:induction false} KeyCount(a: seq<Field>)
    requires DistinctKeys(a)
    ensures |set f | f in a :: f.key| == |a|
  {
    if a != [] {
      KeyCount(a[1..]);
      FirstKey(a);
    }
  }

  lemma FirstKey(a: seq<Field>)
    requires a != [] && DistinctKeys(a)
    ensures (set f | f in a :: f.key) == {a[0].key} + set f | f in a[1..] :: f.key
    ensures a[0].key !in set f | f in a[1..] :: f.key
  {
    assert a == [a[0]] + a[1..];
  }

  lemma {:induction false} PresentAlike(keys: seq<string>, a: seq<Option<Json>>, b: seq<Option<Json>>)
    requires |keys| == |a| == |b| && forall i :: 0 <= i < |keys| ==> SameOption(a[i], b[i])
    ensures |Present(keys, a)| == |Present(keys, b)|
    ensures forall i :: 0 <= i < |Present(keys, a)| ==>
      Present(keys, a)[i].key == Present(keys, b)[i].key
        && SameValue(Present(keys, a)[i].value, Present(keys, b)[i].value)
  {
    if keys != [] {
      assert SameOption(a[0], b[0]);
      forall i | 0 <= i < |keys[1..]| ensures SameOption(a[1..][i], b[1..][i]) {
        assert SameOption(a[i + 1], b[i + 1]);
      }
      PresentAlike(keys[1..], a[1..], b[1..]);
    }
  }

  lemma SameDumps(a: Event, b: Event)
    requires SameEvent(a, b)
    ensures SameValue(Dump(a), Dump(b))
  {
    var x, y := Dump(a).fields, Dump(b).fields;
    PresentAlike(ATTRIBUTES, AttributeValues(a), AttributeValues(b));
    forall i | 0 <= i < |x| ensures HasField(x[i], y) {
      assert x[i].key == y[i].key && SameValue(x[i].value, y[i].value);
    }
  }

  lemma SameDumpMeansSameEvent(a: Event, b: Event)
    requires Legal(a) && Legal(b) && SameValue(Dump(a), Dump(b))
    ensures SameEvent(a, b)
  {
    AttributesAreDistinct();
    DumpIsWellFormed(a);
    DumpIsWellFormed(b);
    forall i | 0 <= i < 18 ensures SameOption(AttributeValues(a)[i], AttributeValues(b)[i]) {
      PresentGives(ATTRIBUTES, AttributeValues(a), i);
      PresentGives(ATTRIBUTES, AttributeValues(b), i);
      SameDictionariesGive(Dump(a).fields, Dump(b).fields, ATTRIBUTES[i], AttributeValues(a)[i], AttributeValues(b)[i]);
    }
    SameAttributes(a, b);
  }

  lemma SameContext(a: Event, b: Event)
    requires forall i :: 0 <= i < 9 ==> SameOption(AttributeValues(a)[i], AttributeValues(b)[i])
    ensures a.id == b.id && a.source == b.source && a.etype == b.etype && a.time == b.time
    ensures a.subject == b.subject && a.dataschema == b.dataschema && a.simTs == b.simTs
  {
    var va, vb := AttributeValues(a), AttributeValues(b);
    assert SameOption(va[1], vb[1]) && SameOption(va[2], vb[2]) && SameOption(va[3], vb[3]) && SameOption(va[4], vb[4]);
    assert SameOption(va[6], vb[6]) && SameOption(va[7], vb[7]) && SameOption(va[8], vb[8]);
  }

  lemma SameExtensions(a: Event, b: Event)
    requires forall i :: 9 <= i < 17 ==> SameOption(AttributeValues(a)[i], AttributeValues(b)[i])
    ensures a.runId == b.runId && a.producer == b.producer && a.seqNo == b.seqNo
    ensures a.causation == b.causation && a.correlation == b.correlation
    ensures a.partitionKey == b.partitionKey && a.traceparent == b.traceparent && a.tracestate == b.tracestate
  {
    var va, vb := AttributeValues(a), AttributeValues(b);
    assert SameOption(va[9], vb[9]) && SameOption(va[10], vb[10]) && SameOption(va[11], vb[11])
      && SameOption(va[12], vb[12]);
    assert SameOption(va[13], vb[13]) && SameOption(va[14], vb[14]) && SameOption(va[15], vb[15])
      && SameOption(va[16], vb[16]);
  }

  lemma SameAttributes(a: Event, b: Event)
    requires forall i :: 0 <= i < 18 ==> SameOption(AttributeValues(a)[i], AttributeValues(b)[i])
    ensures SameEvent(a, b)
  {
    SameContext(a, b);
    SameExtensions(a, b);
    assert SameOption(AttributeValues(a)[17], AttributeValues(b)[17]);
  }
}
