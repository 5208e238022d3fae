/** The canonical serialization: bytes that are a function of the value and of nothing else. */
module Canonical {
  import opened Sorting
  import opened Options
  import opened Json

  type Byte = b: int | 0 <= b < 256

  predicate KeyLeq(a: Field, b: Field) {
    StringLeq(a.key, b.key)
  }

  /** sort_keys at every level. */
  function Normalize(v: Json): Json
    decreases v
  {
    match v
    case Arr(items) => Arr(NormalizeItems(items))
    case Obj(fields) => Obj(Sort(KeyLeq, NormalizeFields(fields)))
    case _ => v
  }

  function NormalizeItems(items: seq<Json>): (r: seq<Json>)
    ensures |r| == |items|
    decreases items
  {
    if items == [] then [] else [Normalize(items[0])] + NormalizeItems(items[1..])
  }

  function NormalizeFields(fields: seq<Field>): (r: seq<Field>)
    ensures |r| == |fields|
    decreases fields
  {
    if fields == [] then [] else [Field(fields[0].key, Normalize(fields[0].value))] + NormalizeFields(fields[1..])
  }

  function CanonicalJson(v: Json): string {
    Render(Normalize(v))
  }

  lemma {:induction false} NormalItem(items: seq<Json>, i: nat)
    requires i < |items|
    ensures NormalizeItems(items)[i] == Normalize(items[i])
  {
    if i > 0 {
      NormalItem(items[1..], i - 1);
    }
  }

  lemma {:induction false} NormalField(fields: seq<Field>, i: nat)
    requires i < |fields|
    ensures NormalizeFields(fields)[i] == Field(fields[i].key, Normalize(fields[i].value))
  {
    if i > 0 {
      NormalField(fields[1..], i - 1);
    }
  }

  lemma KeyOrder()
    ensures TotalPreorder(KeyLeq)
  {
    StringOrder();
  }

  lemma DistinctKeysMeansNoDup(fields: seq<Field>)
    requires DistinctKeys(fields)
    ensures NoDup(fields)
    ensures forall f, g :: f in fields && g in fields && f.key == g.key ==> f == g
  {
    forall f, g | f in fields && g in fields && f.key == g.key ensures f == g {
      var i :| 0 <= i < |fields| && fields[i] == f;
      var j :| 0 <= j < |fields| && fields[j] == g;
      assert i == j;
    }
  }

  lemma PermutedKeysStayDistinct(a: seq<Field>, b: seq<Field>)
    requires multiset(a) == multiset(b) && DistinctKeys(a)
    ensures DistinctKeys(b)
  {
    DistinctKeysMeansNoDup(a);
    SameMultisetNoDup(a, b);
    SameElements(a, b);
    forall i, j | 0 <= i < j < |b| ensures b[i].key != b[j].key {
      assert b[i] in a && b[j] in a;
    }
  }

  lemma NormalFieldsDistinct(fields: seq<Field>)
    requires DistinctKeys(fields)
    ensures DistinctKeys(NormalizeFields(fields))
  {
    forall i, j | 0 <= i < j < |fields| ensures NormalizeFields(fields)[i].key != NormalizeFields(fields)[j].key {
      NormalField(fields, i);
      NormalField(fields, j);
    }
  }

  lemma {:induction false} NormalizeWellFormed(v: Json)
    requires WellFormed(v)
    ensures WellFormed(Normalize(v))
    decreases v
  {
    match v
    case Arr(items) =>
      forall i | 0 <= i < |items| ensures WellFormed(NormalizeItems(items)[i]) {
        NormalItem(items, i);
        NormalizeWellFormed(items[i]);
      }
    case Obj(fields) =>
      var normal := NormalizeFields(fields);
      var sorted := Sort(KeyLeq, normal);
      NormalFieldsDistinct(fields);
      SortMultiset(KeyLeq, normal);
      PermutedKeysStayDistinct(normal, sorted);
      SameElements(normal, sorted);
      forall f | f in sorted ensures WellFormed(f.value) {
        var i :| 0 <= i < |normal| && normal[i] == f;
        NormalField(fields, i);
        NormalizeWellFormed(fields[i].value);
      }
    case _ =>
  }

  /** Reading canonical text gives the value back with its keys in order. */
  lemma CanonicalReadsBack(v: Json)
    requires WellFormed(v)
    ensures Loads(CanonicalJson(v)) == Some(Normalize(v))
  {
    NormalizeWellFormed(v);
    LoadsRender(Normalize(v));
  }

  // ----- equality of values ------------------------------------------------------------

  /** Equality of Python values of one type: dictionaries are equal whatever order their keys were inserted in. */
  ghost predicate SameValue(v: Json, w: Json)
    decreases v
  {
    match v
    case Arr(items) => w.Arr? && |items| == |w.items| && forall i :: 0 <= i < |items| ==>
      SameValue(items[i], w.items[i])
    case Obj(fields) => w.Obj? && |fields| == |w.fields|
                        && forall i :: 0 <= i < |fields| ==> HasField(fields[i], w.fields)
    case _ => v == w
  }

  ghost predicate HasField(f: Field, fields: seq<Field>)
    decreases f
  {
    exists j :: 0 <= j < |fields| && f.key == fields[j].key && SameValue(f.value, fields[j].value)
  }

  lemma SameSizedSubset(a: seq<Field>, b: seq<Field>)
    requires NoDup(a) && NoDup(b) && |a| == |b| && forall f :: f in a ==> f in b
    ensures multiset(a) == multiset(b)
  {
    NoDupCardinality(a);
    NoDupCardinality(b);
    SubsetCardinality(Elems(a), Elems(b));
    forall f ensures multiset(a)[f] == multiset(b)[f] {
      MultiplicityAtMostOne(a, f);
      MultiplicityAtMostOne(b, f);
      assert f in a <==> f in Elems(a);
      assert f in b <==> f in Elems(b);
      assert f in a <==> f in multiset(a);
      assert f in b <==> f in multiset(b);
    }
  }

  lemma SortedFieldsEqual(a: seq<Field>, b: seq<Field>)
    requires DistinctKeys(a) && multiset(a) == multiset(b)
    ensures Sort(KeyLeq, a) == Sort(KeyLeq, b)
  {
    KeyOrder();
    SortSorted(KeyLeq, a);
    SortSorted(KeyLeq, b);
    SortMultiset(KeyLeq, a);
    SortMultiset(KeyLeq, b);
    DistinctKeysMeansNoDup(a);
    SameElements(Sort(KeyLeq, a), a);
    StringOrder();
    SortedUnique(KeyLeq, Sort(KeyLeq, a), Sort(KeyLeq, b));
  }

  lemma {:induction false} SameValueNormalizes(v: Json, w: Json)
    requires WellFormed(v) && WellFormed(w) && SameValue(v, w)
    ensures Normalize(v) == Normalize(w)
    decreases v
  {
    match v
    case Arr(items) =>
      forall i | 0 <= i < |items| ensures NormalizeItems(items)[i] == NormalizeItems(w.items)[i] {
        NormalItem(items, i);
        NormalItem(w.items, i);
        SameValueNormalizes(items[i], w.items[i]);
      }
    case Obj(fields) =>
      var a, b := NormalizeFields(fields), NormalizeFields(w.fields);
      forall f | f in a ensures f in b {
        var i :| 0 <= i < |a| && a[i] == f;
        NormalField(fields, i);
        assert HasField(fields[i], w.fields);
        var j :| 0 <= j < |w.fields| && fields[i].key == w.fields[j].key
          && SameValue(fields[i].value, w.fields[j].value);
        NormalField(w.fields, j);
        SameValueNormalizes(fields[i].value, w.fields[j].value);
        assert b[j] == f;
      }
      NormalFieldsDistinct(fields);
      NormalFieldsDistinct(w.fields);
      DistinctKeysMeansNoDup(a);
      DistinctKeysMeansNoDup(b);
      SameSizedSubset(a, b);
      SortedFieldsEqual(a, b);
    case _ =>
  }

  lemma {:induction false} NormalizedAlikeIsSame(v: Json, w: Json)
    requires Normalize(v) == Normalize(w)
    ensures SameValue(v, w)
    decreases v, 1
  {
    match v
    case Arr(items) =>
      forall i | 0 <= i < |items| ensures SameValue(items[i], w.items[i]) {
        NormalItem(items, i);
        NormalItem(w.items, i);
        NormalizedAlikeIsSame(items[i], w.items[i]);
      }
    case Obj(fields) => FieldsAlike(fields, w.fields);
    case _ =>
  }

  lemma {:induction false} FieldsAlike(a: seq<Field>, b: seq<Field>)
    requires Sort(KeyLeq, NormalizeFields(a)) == Sort(KeyLeq, NormalizeFields(b))
    ensures |a| == |b| && forall i :: 0 <= i < |a| ==> HasField(a[i], b)
    decreases a, 0
  {
    SortMultiset(KeyLeq, NormalizeFields(a));
    SortMultiset(KeyLeq, NormalizeFields(b));
    SameElements(NormalizeFields(a), NormalizeFields(b));
    forall i | 0 <= i < |a| ensures HasField(a[i], b) {
      NormalField(a, i);
      assert NormalizeFields(a)[i] in NormalizeFields(b);
      var j :| 0 <= j < |b| && NormalizeFields(b)[j] == NormalizeFields(a)[i];
      NormalField(b, j);
      NormalizedAlikeIsSame(a[i].value, b[j].value);
    }
  }

  /** Two values have the same canonical text exactly when they are equal. */
  lemma CanonicalIffSame(v: Json, w: Json)
    requires WellFormed(v) && WellFormed(w)
    ensures CanonicalJson(v) == CanonicalJson(w) <==> SameValue(v, w)
  {
    if CanonicalJson(v) == CanonicalJson(w) {
      CanonicalReadsBack(v);
      CanonicalReadsBack(w);
      NormalizedAlikeIsSame(v, w);
    }
    if SameValue(v, w) {
      SameValueNormalizes(v, w);
    }
  }

  // ----- characters and bytes ------------------------------------------------------------

  predicate Printable(s: string) {
    forall i :: 0 <= i < |s| ==> 32 <= s[i] as int <= 126
  }

  /** The UTF-8 bytes of ASCII text. */
  function Bytes(s: string): (b: seq<Byte>)
    requires Printable(s)
    ensures |b| == |s| && forall i :: 0 <= i < |b| ==> b[i] == s[i] as int
  {
    seq(|s|, i requires 0 <= i < |s| => s[i] as int)
  }

  lemma BytesInjective(a: string, b: string)
    requires Printable(a) && Printable(b) && Bytes(a) == Bytes(b)
    ensures a == b
  {
    assert |a| == |b|;
    forall i | 0 <= i < |a| ensures a[i] == b[i] {
      assert Bytes(a)[i] == Bytes(b)[i];
    }
  }

  lemma EscapeCharPrintable(c: char)
    ensures Printable(EscapeChar(c))
  {
    assert forall n: nat | n < 0x10000 :: Printable(Hex4(n));
  }

  lemma {:induction false} EscapePrintable(s: string)
    ensures Printable(Escape(s))
  {
    if s != [] {
      EscapeCharPrintable(s[0]);
      EscapePrintable(s[1..]);
    }
  }

  lemma {:induction false} NumberTextPrintable(s: string)
    requires NumberRun(s) == |s|
    ensures Printable(s)
  {
    if s != [] {
      NumberTextPrintable(s[1..]);
    }
  }

  /** Control characters are always escaped, so canonical text is printable ASCII. */
  lemma {:induction false} RenderPrintable(v: Json)
    requires WellFormed(v)
    ensures Printable(Render(v))
    decreases v, 1
  {
    match v
    case Int(n) =>
      IntTextCorrect(n);
      NumberTextPrintable(IntText(n));
    case Float(text) => NumberTextPrintable(text);
    case Str(s) => EscapePrintable(s);
    case Arr(items) =>
      if items != [] {
        assert items[0] in items;
        RenderPrintable(items[0]);
        ItemsPrintable(items[1..]);
        ArrayPrintable(items);
      }
    case Obj(fields) =>
      if fields != [] {
        assert fields[0] in fields;
        FieldPrintable(fields[0]);
        FieldsPrintable(fields[1..]);
        ObjectPrintable(fields);
      }
    case _ =>
  }

  lemma ArrayPrintable(items: seq<Json>)
    requires items != [] && Printable(Render(items[0])) && Printable(RenderItems(items[1..]))
    ensures Printable(Render(Arr(items)))
  {
  }

  lemma ObjectPrintable(fields: seq<Field>)
    requires fields != [] && Printable(RenderField(fields[0])) && Printable(RenderFields(fields[1..]))
    ensures Printable(Render(Obj(fields)))
  {
  }

  lemma {:induction false} FieldPrintable(f: Field)
    requires WellFormed(f.value)
    ensures Printable(RenderField(f))
    decreases f, 0
  {
    EscapePrintable(f.key);
    RenderPrintable(f.value);
  }

  lemma {:induction false} ItemsPrintable(items: seq<Json>)
    requires forall x :: x in items ==> WellFormed(x)
    ensures Printable(RenderItems(items))
    decreases items, 0
  {
    if items != [] {
      RenderPrintable(items[0]);
      ItemsPrintable(items[1..]);
    }
  }

  lemma {:induction false} FieldsPrintable(fields: seq<Field>)
    requires forall f :: f in fields ==> WellFormed(f.value)
    ensures Printable(RenderFields(fields))
    decreases fields, 0
  {
    if fields != [] {
      FieldPrintable(fields[0]);
      FieldsPrintable(fields[1..]);
    }
  }

  lemma CanonicalPrintable(v: Json)
    requires WellFormed(v)
    ensures Printable(CanonicalJson(v))
  {
    NormalizeWellFormed(v);
    RenderPrintable(Normalize(v));
  }
}
