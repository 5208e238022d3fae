/** The texts themselves: which characters are written and accepted, where the other laws speak of what they mean. */
module Formats {
  import opened Options
  import opened Text
  import opened Decimals
  import opened Json
  import opened Canonical
  import opened Base64
  import opened Envelope
  import opened Cursor
  import L = EventLog
  import A = Autonomy
  import C = Commands
  import S = StreamNames

  // ----- base64url (sections 4 and 5 of RFC 4648) -----------------------------------------------

  const UPPER := "ABCDEFGHIJKLMNOPQRSTUVWXYZ"
  const LOWER := "abcdefghijklmnopqrstuvwxyz"
  const DIGITS := "0123456789"
  const ALPHABET := UPPER + LOWER + DIGITS + "-_"

  lemma LettersInOrder(i: nat)
    ensures i < 26 ==> UPPER[i] as int == 'A' as int + i && LOWER[i] as int == 'a' as int + i
    ensures i < 10 ==> DIGITS[i] as int == '0' as int + i
  {
  }

  /** The characters of the alphabet in its order; plus and slash are read as minus and underscore. */
  lemma AlphabetIs(v: nat)
    requires v < 64
    ensures SextetChar(v) == ALPHABET[v] && CharSextet(ALPHABET[v]) == Some(v)
    ensures CharSextet('+') == CharSextet('-') && CharSextet('/') == CharSextet('_')
  {
    LettersInOrder(if v < 26 then v else if v < 52 then v - 26 else if v < 62 then v - 52 else 0);
  }

  /** Three bytes are written as the four digits, base 64, of the number they are base 256. */
  lemma QuadIs(x: Byte, y: Byte, z: Byte) returns (a: nat, b: nat, c: nat, d: nat)
    ensures a < 64 && b < 64 && c < 64 && d < 64
    ensures ((a * 64 + b) * 64 + c) * 64 + d == (x * 256 + y) * 256 + z
    ensures Quad(x, y, z) == [ALPHABET[a], ALPHABET[b], ALPHABET[c], ALPHABET[d]]
  {
    a, b, c, d := x / 4, x % 4 * 16 + y / 16, y % 16 * 4 + z / 64, z % 64;
    AlphabetIs(a);
    AlphabetIs(b);
    AlphabetIs(c);
    AlphabetIs(d);
  }

  /** Whole groups are written one after another; one byte left over keeps two digits and two marks, two keep three and
      one. */
  lemma GroupsAre(x: Byte, y: Byte, z: Byte, rest: seq<Byte>)
    ensures Encode([x, y, z] + rest) == Quad(x, y, z) + Encode(rest)
    ensures Encode([x]) == [Quad(x, 0, 0)[0], Quad(x, 0, 0)[1], '=', '=']
    ensures Encode([x, y]) == [Quad(x, y, 0)[0], Quad(x, y, 0)[1], Quad(x, y, 0)[2], '=']
    ensures Encode([]) == ""
  {
    assert ([x, y, z] + rest)[3..] == rest;
  }

  // ----- JSON text (section 7 of RFC 8259) ---------------------------------------------------------

  const HEX := "0123456789abcdef"

  lemma HexDigitIs(d: nat)
    requires d < 16
    ensures HexDigit(d) == HEX[d] && HexValue(HEX[d]) == Some(d) && HexValue("0123456789ABCDEF"[d]) == Some(d)
  {
  }

  lemma DividesTwice(n: nat)
    ensures n / 0x100 == n / 0x10 / 0x10 && n / 0x1000 == n / 0x10 / 0x10 / 0x10
  {
  }

  /** A \u escape: the number's four hexadecimal digits, the highest first, in lower case. */
  lemma UnicodeEscapeIs(n: nat)
    requires n < 0x10000
    ensures UnicodeEscape(n) ==
      ['\\', 'u', HEX[n / 0x1000], HEX[n / 0x100 % 0x10], HEX[n / 0x10 % 0x10], HEX[n % 0x10]]
  {
    DividesTwice(n);
    HexDigitIs(n / 0x10 / 0x10 / 0x10);
    HexDigitIs(n / 0x10 / 0x10 % 0x10);
    HexDigitIs(n / 0x10 % 0x10);
    HexDigitIs(n % 0x10);
  }

  /** How a character is written inside a string: the seven short escapes, printable ASCII as it is, everything else
      escaped by number, past the basic plane as a surrogate pair. */
  lemma EscapesAre(c: char)
    ensures var n := c as int;
      EscapeChar(c) ==
      (if n == 0x22 then ['\\', '"'] else if n == 0x5c then ['\\', '\\'] else if n == 10 then "\\n"
       else if n == 13 then "\\r" else if n == 9 then "\\t" else if n == 8 then "\\b" else if n == 12 then "\\f"
       else if 0x20 <= n <= 0x7e then [c]
       else if n < 0x10000 then UnicodeEscape(n)
       else UnicodeEscape(0xd800 + (n - 0x10000) / 0x400) + UnicodeEscape(0xdc00 + (n - 0x10000) % 0x400))
  {
  }

  /** Nothing but a comma between items: no blanks. */
  lemma ItemsAreSeparated(v: Json, w: Json)
    ensures Render(Arr([v, w])) == "[" + Render(v) + "," + Render(w) + "]" && Render(Arr([])) == "[]"
  {
    assert [v, w][1..] == [w];
    LastItem(w);
  }

  /** Nothing but a colon after a key in its quotes, and a comma between fields. */
  lemma FieldsAreSeparated(k: string, v: Json, l: string, w: Json)
    ensures Render(Obj([Field(k, v), Field(l, w)])) ==
      "{" + ("\"" + Escape(k) + "\":" + Render(v)) + "," + ("\"" + Escape(l) + "\":" + Render(w)) + "}"
    ensures Render(Obj([])) == "{}"
  {
    var f, g := Field(k, v), Field(l, w);
    assert [f, g][1..] == [g];
    LastField(g);
    FieldText(k, v);
    FieldText(l, w);
  }

  lemma FieldText(k: string, v: Json)
    ensures RenderField(Field(k, v)) == "\"" + Escape(k) + "\":" + Render(v)
  {
  }

  lemma LastItem(w: Json)
    ensures RenderItems([w]) == "," + Render(w)
  {
    assert [w][1..] == [] && "," + Render(w) + [] == "," + Render(w);
  }

  lemma LastField(g: Field)
    ensures RenderFields([g]) == "," + RenderField(g)
  {
    assert [g][1..] == [] && "," + RenderField(g) + [] == "," + RenderField(g);
  }

  predicate IsPlain(s: string) {
    forall i :: 0 <= i < |s| ==> ' ' <= s[i] <= '~' && s[i] != '"' && s[i] != '\\'
  }

  lemma {:induction false} PlainIsUnescaped(s: string)
    requires IsPlain(s)
    ensures Escape(s) == s
  {
    if s != [] {
      PlainIsUnescaped(s[1..]);
      assert s == [s[0]] + s[1..];
    }
  }

  // ----- cursors ----------------------------------------------------------------------------------

  function TextPart(key: char, text: string): string {
    "\"" + [key] + "\":\"" + text + "\""
  }

  function NumberPart(key: char, n: nat): string {
    "\"" + [key] + "\":" + Print(n)
  }

  /** What an encoded cursor holds, before it is base64: its three parts under one-letter keys. */
  lemma CursorTextIs(c: Cursor)
    requires IsLegal(c)
    ensures CanonicalJson(Payload(c)) ==
      "{" + TextPart('p', c.producer) + "," + NumberPart('s', c.seqNo) + "," + NumberPart('t', c.simTs) + "}"
  {
    RolesArePlain(c.producer);
    PayloadIsSorted(c);
    PlainParts('p', c.producer, 's', c.seqNo);
    PlainParts('p', c.producer, 't', c.simTs);
    PayloadText(c);
  }

  lemma PayloadText(c: Cursor)
    ensures Render(Payload(c)) ==
      "{" + RenderField(Field("p", Str(c.producer))) + "," + RenderField(Field("s", Int(c.seqNo))) + ","
      + RenderField(Field("t", Int(c.simTs))) + "}"
  {
    ThreeFieldsText(Field("p", Str(c.producer)), Field("s", Int(c.seqNo)), Field("t", Int(c.simTs)));
  }

  lemma PlainParts(key: char, text: string, other: char, n: nat)
    requires IsPlain([key]) && IsPlain([other]) && IsPlain(text)
    ensures RenderField(Field([key], Str(text))) == TextPart(key, text)
    ensures RenderField(Field([other], Int(n))) == NumberPart(other, n)
  {
    PlainIsUnescaped([key]);
    PlainIsUnescaped([other]);
    PlainIsUnescaped(text);
  }

  lemma ThreeFieldsText(p: Field, s: Field, t: Field)
    ensures Render(Obj([p, s, t])) == "{" + RenderField(p) + "," + RenderField(s) + "," + RenderField(t) + "}"
  {
    assert [p, s, t][1..] == [s, t] && [s, t][1..] == [t];
    LastField(t);
    assert RenderFields([s, t]) == "," + RenderField(s) + ("," + RenderField(t));
  }

  lemma RolesArePlain(producer: string)
    requires producer in PRODUCER_IDS
    ensures IsPlain(producer)
  {
  }

  /** An encoded cursor needs no escaping in a URL. */
  lemma CursorIsUrlSafe(c: Cursor, i: nat)
    requires IsLegal(c) && i < |EncodeCursor(c)|
    ensures EncodeCursor(c)[i] in ALPHABET
  {
    EncodedIsUrlSafe(c);
    var ch := EncodeCursor(c)[i];
    AlphabetIs(CharSextet(ch).value);
    SextetOf(ch);
  }

  lemma SextetOf(ch: char)
    requires CharSextet(ch).Some? && ch != '+' && ch != '/'
    ensures CharSextet(ch).value < 64 && SextetChar(CharSextet(ch).value) == ch
  {
  }

  /** Nothing is read from no text, nor from text outside ASCII. */
  lemma DecodeRefuses(text: string, i: nat)
    ensures DecodeCursor("") == None
    ensures i < |text| && text[i] as int >= 128 ==> DecodeCursor(text) == None
  {
  }

  // ----- the dumped attributes -------------------------------------------------------------------------

  /** The attribute names an event is dumped under. */
  lemma DumpCarries(e: Event)
    ensures var fields := Dump(e).fields;
      && Gives(fields, "specversion", Some(Str("1.0"))) && Gives(fields, "id", Some(Str(e.id)))
      && Gives(fields, "source", Some(Str(e.source))) && Gives(fields, "type", Some(Str(e.etype)))
      && Gives(fields, "time", Some(Str(e.time))) && Gives(fields, "dataschema", Some(Str(e.dataschema)))
      && Gives(fields, "datacontenttype", Some(Str("application/json"))) && Gives(fields, "data", Some(Obj(e.data)))
      && Gives(fields, "subject", OptionalText(e.subject))
  {
    AttributesAreDistinct();
    var values := AttributeValues(e);
    PresentGives(ATTRIBUTES, values, 0);
    PresentGives(ATTRIBUTES, values, 1);
    PresentGives(ATTRIBUTES, values, 2);
    PresentGives(ATTRIBUTES, values, 3);
    PresentGives(ATTRIBUTES, values, 4);
    PresentGives(ATTRIBUTES, values, 5);
    PresentGives(ATTRIBUTES, values, 6);
    PresentGives(ATTRIBUTES, values, 7);
    PresentGives(ATTRIBUTES, values, 17);
  }

  /** The order and the run of an event, and the optional attributes, which are left out where they are missing. */
  lemma ExtensionsAreDumped(e: Event)
    ensures var fields := Dump(e).fields;
      && Gives(fields, "twinflowsimts", Some(Str(e.simTs))) && Gives(fields, "twinflowrunid", Some(Str(e.runId)))
      && Gives(fields, "twinflowproducerid", Some(Str(e.producer))) && Gives(fields, "twinflowseq", Some(Str(e.seqNo)))
      && Gives(fields, "twinflowcausationid", OptionalText(e.causation))
      && Gives(fields, "twinflowcorrid", OptionalText(e.correlation))
      && Gives(fields, "partitionkey", OptionalText(e.partitionKey))
      && Gives(fields, "traceparent", OptionalText(e.traceparent))
      && Gives(fields, "tracestate", OptionalText(e.tracestate))
  {
    AttributesAreDistinct();
    var values := AttributeValues(e);
    PresentGives(ATTRIBUTES, values, 8);
    PresentGives(ATTRIBUTES, values, 9);
    PresentGives(ATTRIBUTES, values, 10);
    PresentGives(ATTRIBUTES, values, 11);
    PresentGives(ATTRIBUTES, values, 12);
    PresentGives(ATTRIBUTES, values, 13);
    PresentGives(ATTRIBUTES, values, 14);
    PresentGives(ATTRIBUTES, values, 15);
    PresentGives(ATTRIBUTES, values, 16);
  }

  /** What one more record adds to the digest: its bytes and the byte 0x1e. */
  lemma RecordIsFramed(records: seq<seq<Byte>>, r: seq<Byte>)
    ensures L.Framed([]) == [] && L.Framed(records + [r]) == L.Framed(records) + r + [0x1e]
  {
    assert (records + [r])[..|records|] == records;
  }

  // ----- patterns ----------------------------------------------------------------------------------------

  lemma CharacterClasses(c: char)
    ensures c in LOWER <==> IsLower(c)
    ensures c in DIGITS <==> IsDigit(c)
    ensures c in UPPER <==> IsUpper(c)
  {
  }

  /** s, or s without the one newline that Python's $ lets follow. */
  predicate EndsWith(s: string, core: string) {
    s == core || s == core + "\n"
  }

  lemma CoreIs(s: string, core: string)
    requires core != "" && core[|core| - 1] != '\n'
    ensures EndsWith(s, core) <==> BeforeDollar(s) == core
  {
    if BeforeDollar(s) == core && s != core { assert s == core + "\n"; }
    if s == core + "\n" { assert s[..|s| - 1] == core; }
  }

  /** A tool is named by a lower-case letter and then such letters, digits and underscores. */
  lemma ToolNamesAre(core: string)
    ensures core != "" && core[|core| - 1] != '\n' ==>
      (A.IsToolName(core + "\n") <==> A.IsToolName(core))
      && (A.IsToolName(core) <==>
          core[0] in LOWER && forall i :: 0 <= i < |core| ==> core[i] in LOWER || core[i] in DIGITS || core[i] == '_')
    ensures !A.IsToolName("") && !A.IsToolName("*")
  {
    forall c: char ensures (c in LOWER <==> IsLower(c)) && (c in DIGITS <==> IsDigit(c)) { CharacterClasses(c); }
    if core != "" && core[|core| - 1] != '\n' {
      CoreIs(core, core);
      CoreIs(core + "\n", core);
    }
  }

  /** A command id is c, a hyphen and at least four digits. */
  lemma CommandIdsAre(core: string)
    ensures core != "" && core[|core| - 1] != '\n' ==>
      (C.IsCommandId(core + "\n") <==> C.IsCommandId(core))
      && (C.IsCommandId(core) <==>
        |core| >= 6 && core[..2] == "c-" && forall i :: 2 <= i < |core| ==> core[i] in DIGITS)
  {
    forall c: char ensures c in DIGITS <==> IsDigit(c) { CharacterClasses(c); }
    if core != "" && core[|core| - 1] != '\n' {
      CoreIs(core, core);
      CoreIs(core + "\n", core);
      assert |core| >= 2 ==> (core[..2] == "c-" <==> core[0] == 'c' && core[1] == '-');
    }
  }

  /** An entity id has 1 to 64 letters of either case, digits, underscores and hyphens. */
  lemma EntityIdsAre(core: string)
    ensures core != "" && core[|core| - 1] != '\n' ==>
      (S.IsEntityId(core + "\n") <==> S.IsEntityId(core))
      && (S.IsEntityId(core) <==>
          |core| <= 64 && forall i :: 0 <= i < |core| ==>
            core[i] in LOWER || core[i] in UPPER || core[i] in DIGITS || core[i] in "_-")
    ensures !S.IsEntityId("")
  {
    forall c: char ensures (c in LOWER <==> IsLower(c)) && (c in DIGITS <==> IsDigit(c))
      && (c in UPPER <==> IsUpper(c)) { CharacterClasses(c); }
    if core != "" && core[|core| - 1] != '\n' {
      CoreIs(core, core);
      CoreIs(core + "\n", core);
    }
  }
}
