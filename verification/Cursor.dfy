/** The pagination cursor and its opaque encoding. */
module Cursor {
  import opened Sorting
  import opened Options
  import opened Json
  import opened Canonical
  import opened Base64
  import opened Envelope
  import E = Envelope

  datatype Cursor = Cursor(simTs: nat, producer: string, seqNo: nat)

  predicate IsLegal(c: Cursor) {
    c.producer in PRODUCER_IDS
  }

  /** The constructor with its three checks; None is the CursorError. */
  function MakeCursor(simTs: int, producer: string, seqNo: int): (c: Option<Cursor>)
    ensures c.Some? ==> IsLegal(c.value)
  {
    if simTs < 0 || seqNo < 0 || producer !in PRODUCER_IDS then None else Some(Cursor(simTs, producer, seqNo))
  }

  function FromEvent(e: Event): (c: Cursor)
    ensures E.Legal(e) ==> MakeCursor(IntOf(e.simTs), e.producer, IntOf(e.seqNo)) == Some(c)
  {
    Cursor(IntOf(e.simTs), e.producer, IntOf(e.seqNo))
  }

  function KeyOf(c: Cursor): Key {
    Key(c.simTs, c.producer, c.seqNo)
  }

  function Payload(c: Cursor): Json {
    Obj([Field("p", Str(c.producer)), Field("s", Int(c.seqNo)), Field("t", Int(c.simTs))])
  }

  function EncodeCursor(c: Cursor): string {
    PayloadWellFormed(c);
    CanonicalPrintable(Payload(c));
    StripPads(Encode(Bytes(CanonicalJson(Payload(c)))))
  }

  predicate ExactKeys(fields: seq<Field>) {
    && Lookup(fields, "p").Some? && Lookup(fields, "s").Some? && Lookup(fields, "t").Some?
    && forall i :: 0 <= i < |fields| ==> fields[i].key == "p" || fields[i].key == "s" || fields[i].key == "t"
  }

  predicate IsAscii(s: string) {
    forall i :: 0 <= i < |s| ==> s[i] as int < 128
  }

  /** The text of bytes that are ASCII; other bytes are refused here. */
  function AsciiText(b: seq<Byte>): Option<string> {
    if forall i :: 0 <= i < |b| ==> b[i] < 128 then
      Some(seq(|b|, i requires 0 <= i < |b| && b[i] < 128 => b[i] as char))
    else None
  }

  /** The three typed parts, or a refusal. */
  function FromPayload(payload: Json): Option<Cursor> {
    if !payload.Obj? || !ExactKeys(payload.fields) then None
    else match (Lookup(payload.fields, "t"), Lookup(payload.fields, "p"), Lookup(payload.fields, "s"))
      case (Some(Int(t)), Some(Str(p)), Some(Int(s))) => MakeCursor(t, p, s)
      case _ => None
  }

  /** None is the CursorError every failure raises. */
  function DecodeCursor(text: string): Option<Cursor> {
    if text == [] || !IsAscii(text) then None
    else match Decode(Padded(text))
      case None => None
      case Some(raw) =>
        match AsciiText(raw)
        case None => None
        case Some(json) =>
          match Loads(json)
          case None => None
          case Some(payload) => FromPayload(payload)
  }

  lemma PayloadWellFormed(c: Cursor)
    ensures WellFormed(Payload(c))
  {
    var fields := Payload(c).fields;
    assert fields[0].key[0] == 'p' && fields[1].key[0] == 's' && fields[2].key[0] == 't';
  }

  lemma PayloadIsSorted(c: Cursor)
    ensures Normalize(Payload(c)) == Payload(c)
  {
    var p, s, t := Field("p", Str(c.producer)), Field("s", Int(c.seqNo)), Field("t", Int(c.simTs));
    assert NormalizeFields([t]) == [t] by { assert [t][1..] == []; }
    assert NormalizeFields([s, t]) == [s, t] by { assert [s, t][1..] == [t]; }
    assert NormalizeFields([p, s, t]) == [p, s, t] by { assert [p, s, t][1..] == [s, t]; }
    assert KeyLeq(s, t) && KeyLeq(p, s);
    assert Sort(KeyLeq, [t]) == [t] by { assert [t][1..] == []; }
    assert Sort(KeyLeq, [s, t]) == [s, t] by { assert [s, t][1..] == [t]; }
    assert Sort(KeyLeq, [p, s, t]) == [p, s, t] by { assert [p, s, t][1..] == [s, t]; }
  }

  lemma AsciiTextOfBytes(s: string)
    requires Printable(s)
    ensures AsciiText(Bytes(s)) == Some(s)
  {
    assert forall i :: 0 <= i < |s| ==> Bytes(s)[i] < 128;
    assert AsciiText(Bytes(s)).value == s;
  }

  lemma PayloadReadsBack(c: Cursor)
    requires IsLegal(c)
    ensures FromPayload(Payload(c)) == Some(c)
  {
    var fields := Payload(c).fields;
    assert fields[0].key == "p" && fields[1].key == "s" && fields[2].key == "t";
    assert "p"[0] != "s"[0] && "p"[0] != "t"[0] && "s"[0] != "t"[0];
    assert Lookup(fields, "p") == Some(Str(c.producer));
    assert Lookup(fields[1..], "s") == Some(Int(c.seqNo));
    assert fields[1..][1..] == fields[2..];
    assert Lookup(fields[2..], "t") == Some(Int(c.simTs));
    assert Lookup(fields[1..], "t") == Some(Int(c.simTs));
  }

  lemma AlphabetIsAscii(s: string)
    requires InAlphabet(s)
    ensures IsAscii(s)
  {
  }

  /** A minted cursor reads back as itself. */
  lemma DecodeOfEncode(c: Cursor)
    requires IsLegal(c)
    ensures DecodeCursor(EncodeCursor(c)) == Some(c)
  {
    var v := Payload(c);
    PayloadWellFormed(c);
    CanonicalPrintable(v);
    var json := CanonicalJson(v);
    var raw := Bytes(json);
    PayloadIsSorted(c);
    RenderStart(v);
    PaddingComesBack(raw);
    DecodeEncode(raw);
    AsciiTextOfBytes(json);
    CanonicalReadsBack(v);
    PayloadReadsBack(c);
    AlphabetIsAscii(EncodeCursor(c));
  }

  /** One position has one encoding, and no two positions share it. */
  lemma EncodeInjective(c: Cursor, d: Cursor)
    requires IsLegal(c) && IsLegal(d) && EncodeCursor(c) == EncodeCursor(d)
    ensures c == d
  {
    DecodeOfEncode(c);
    DecodeOfEncode(d);
  }

  /** An encoded cursor travels in a query string without padding or reserved marks. */
  lemma EncodedIsUrlSafe(c: Cursor)
    ensures InAlphabet(EncodeCursor(c)) && EncodeCursor(c) != []
  {
    PayloadWellFormed(c);
    CanonicalPrintable(Payload(c));
    PayloadIsSorted(c);
    RenderStart(Payload(c));
    PaddingComesBack(Bytes(CanonicalJson(Payload(c))));
  }

  /** A decoded payload is accepted exactly when it is an object with the three keys and no other, of the right types,
      and its parts make a legal position. */
  lemma PayloadAcceptedIff(payload: Json, c: Cursor)
    ensures FromPayload(payload) == Some(c) <==>
      && IsLegal(c) && payload.Obj? && (set f | f in payload.fields :: f.key) == {"p", "s", "t"}
      && Lookup(payload.fields, "p") == Some(Str(c.producer))
      && Lookup(payload.fields, "s") == Some(Int(c.seqNo)) && Lookup(payload.fields, "t") == Some(Int(c.simTs))
  {
    if payload.Obj? {
      ExactKeysIff(payload.fields);
    }
  }

  lemma {:induction false} LookupFinds(fields: seq<Field>, key: string)
    ensures Lookup(fields, key).Some? <==> exists f :: f in fields && f.key == key
  {
    if fields != [] {
      LookupFinds(fields[1..], key);
      assert fields == [fields[0]] + fields[1..];
    }
  }

  lemma ExactKeysIff(fields: seq<Field>)
    ensures ExactKeys(fields) <==> (set f | f in fields :: f.key) == {"p", "s", "t"}
  {
    var keys := set f | f in fields :: f.key;
    LookupFinds(fields, "p");
    LookupFinds(fields, "s");
    LookupFinds(fields, "t");
    if ExactKeys(fields) {
      forall key ensures key in keys <==> key in {"p", "s", "t"} { }
    } else if keys == {"p", "s", "t"} {
      assert "p" in keys && "s" in keys && "t" in keys;
      forall i | 0 <= i < |fields| ensures fields[i].key in {"p", "s", "t"} { assert fields[i].key in keys; }
    }
  }

  /** Whatever is accepted is a legal position. */
  lemma DecodedIsLegal(text: string)
    ensures DecodeCursor(text).Some? ==> IsLegal(DecodeCursor(text).value)
  {
  }
}
