/** Canonical JSON as json.dumps(sort_keys=True, separators=(",", ":")) writes it, and json.loads reading it back. */
module Json {
  import opened Options
  import opened Text
  import opened Decimals

  /** A dictionary is its items in insertion order; a float is the text json.dumps prints for it. */
  datatype Json =
    | Null
    | Bool(b: bool)
    | Int(n: int)
    | Float(text: string)
    | Str(s: string)
    | Arr(items: seq<Json>)
    | Obj(fields: seq<Field>)

  datatype Field = Field(key: string, value: Json)

  /** The value of a key in a decoded dictionary. */
  function Lookup(fields: seq<Field>, key: string): Option<Json> {
    if fields == [] then None else if fields[0].key == key then Some(fields[0].value) else Lookup(fields[1..], key)
  }

  // ----- numbers ------------------------------------------------------------------

  predicate NumberChar(c: char) {
    IsDigit(c) || c == '-' || c == '+' || c == '.' || c == 'e' || c == 'E'
  }

  predicate IsIntText(s: string) {
    IsDecimal(s) || (s != [] && s[0] == '-' && IsDecimal(s[1..]))
  }

  function IntText(n: int): string {
    if n < 0 then "-" + Print(-n) else Print(n)
  }

  function IntValue(s: string): int
    requires IsIntText(s)
  {
    var magnitude: int := Value(if s[0] == '-' then s[1..] else s);
    if s[0] == '-' then -magnitude else magnitude
  }

  /** How many digits s starts with. */
  function DigitRun(s: string): (n: nat)
    ensures n <= |s|
  {
    if s != [] && IsDigit(s[0]) then 1 + DigitRun(s[1..]) else 0
  }

  /** An integer part, then a fraction or an exponent or both. */
  predicate IsFloatText(s: string) {
    var unsigned := if s != [] && s[0] == '-' then s[1..] else s;
    var whole := DigitRun(unsigned);
    && whole > 0 && (unsigned[0] == '0' ==> whole == 1)
    && var tail := unsigned[whole..];
    if tail != [] && tail[0] == '.' then
      var fraction := DigitRun(tail[1..]);
      fraction > 0 && (tail[1 + fraction..] == [] || IsExponent(tail[1 + fraction..]))
    else IsExponent(tail)
  }

  predicate IsExponent(s: string) {
    && s != [] && (s[0] == 'e' || s[0] == 'E')
    && var digits := if |s| > 1 && (s[1] == '-' || s[1] == '+') then s[2..] else s[1..];
    digits != [] && AllDigits(digits)
  }

  /** The longest run of number characters s starts with. */
  function NumberRun(s: string): (n: nat)
    ensures n <= |s|
  {
    if s != [] && NumberChar(s[0]) then 1 + NumberRun(s[1..]) else 0
  }

  // ----- strings ---------------------------------------------------------------------

  function HexDigit(d: nat): char
    requires d < 16
  {
    if d < 10 then DigitChar(d) else ('a' as int + (d - 10)) as char
  }

  function HexValue(c: char): Option<nat> {
    if IsDigit(c) then Some(DigitValue(c))
    else if 'a' <= c <= 'f' then Some(c as int - 'a' as int + 10)
    else if 'A' <= c <= 'F' then Some(c as int - 'A' as int + 10)
    else None
  }

  function Hex4(n: nat): string
    requires n < 0x10000
  {
    var a := n / 16;
    var b := a / 16;
    [HexDigit(b / 16), HexDigit(b % 16), HexDigit(a % 16), HexDigit(n % 16)]
  }

  function ReadHex4(s: string): Option<nat> {
    if |s| < 4 then None
    else match (HexValue(s[0]), HexValue(s[1]), HexValue(s[2]), HexValue(s[3]))
      case (Some(a), Some(b), Some(c), Some(d)) => Some(4096 * a + 256 * b + 16 * c + d)
      case _ => None
  }

  /** The one-letter escapes, and the characters they stand for. */
  function ShortEscape(c: char): Option<char> {
    var n := c as int;
    if c == '\"' then Some('\"') else if c == '\\' then Some('\\')
    else if n == 10 then Some('n') else if n == 13 then Some('r') else if n == 9 then Some('t')
    else if n == 8 then Some('b') else if n == 12 then Some('f') else None
  }

  function ReadShort(c: char): Option<char> {
    if c == '\"' then Some('\"') else if c == '\\' then Some('\\') else if c == '/' then Some('/')
    else if c == 'n' then Some(10 as char) else if c == 'r' then Some(13 as char) else if c == 't' then Some(9 as char)
    else if c == 'b' then Some(8 as char) else if c == 'f' then Some(12 as char) else None
  }

  function UnicodeEscape(n: nat): string
    requires n < 0x10000
  {
    ['\\', 'u'] + Hex4(n)
  }

  /** Everything outside printable ASCII is escaped, a character past the basic plane as a surrogate pair. */
  function EscapeChar(c: char): string {
    var n := c as int;
    if ShortEscape(c).Some? then ['\\', ShortEscape(c).value]
    else if 32 <= n <= 126 then [c]
    else if n < 0x10000 then UnicodeEscape(n)
    else UnicodeEscape(0xd800 + (n - 0x10000) / 1024) + UnicodeEscape(0xdc00 + (n - 0x10000) % 1024)
  }

  function Escape(s: string): string {
    if s == [] then [] else EscapeChar(s[0]) + Escape(s[1..])
  }

  /** One character of a string literal and how much text it took; a control character or a bad escape is refused. */
  function ReadChar(s: string): (r: Option<(char, nat)>)
    ensures r.Some? ==> 0 < r.value.1 <= |s|
  {
    if s == [] || s[0] == '\"' || s[0] as int < 32 then None
    else if s[0] != '\\' then Some((s[0], 1))
    else if |s| < 2 then None
    else if s[1] != 'u' then (match ReadShort(s[1]) case None => None case Some(c) => Some((c, 2)))
    else match ReadHex4(s[2..])
      case None => None
      case Some(high) =>
        if high < 0xd800 || 0xe000 <= high < 0x10000 then Some((high as char, 6))
        else if high < 0xdc00 && |s| >= 12 && s[6] == '\\' && s[7] == 'u' then
          match ReadHex4(s[8..])
          case None => None
          case Some(low) =>
            if 0xdc00 <= low < 0xe000 then Some(((0x10000 + (high - 0xd800) * 1024 + (low - 0xdc00)) as char, 12))
              else None
        else None
  }

  /** The characters up to the closing quote, and the text after it. */
  function ReadString(s: string): (r: Option<(string, string)>)
    ensures r.Some? ==> |r.value.1| < |s|
    decreases |s|
  {
    if s == [] then None
    else if s[0] == '\"' then Some(([], s[1..]))
    else match ReadChar(s)
      case None => None
      case Some((c, used)) =>
        match ReadString(s[used..])
        case None => None
        case Some((more, rest)) => Some(([c] + more, rest))
  }

  // ----- writing ----------------------------------------------------------------------

  function Quote(s: string): string {
    "\"" + Escape(s) + "\""
  }

  function Render(v: Json): string
    decreases v
  {
    match v
    case Null => "null"
    case Bool(b) => if b then "true" else "false"
    case Int(n) => IntText(n)
    case Float(text) => text
    case Str(s) => Quote(s)
    case Arr(items) => if items == [] then "[]" else "[" + Render(items[0]) + RenderItems(items[1..]) + "]"
    case Obj(fields) => if fields == [] then "{}" else "{" + RenderField(fields[0]) + RenderFields(fields[1..]) + "}"
  }

  function RenderField(f: Field): string
    decreases f
  {
    Quote(f.key) + ":" + Render(f.value)
  }

  /** Every item after the first, each behind its comma. */
  function RenderItems(items: seq<Json>): string
    decreases items
  {
    if items == [] then [] else "," + Render(items[0]) + RenderItems(items[1..])
  }

  function RenderFields(fields: seq<Field>): string
    decreases fields
  {
    if fields == [] then [] else "," + RenderField(fields[0]) + RenderFields(fields[1..])
  }

  // ----- reading -----------------------------------------------------------------------

  predicate IsWhite(c: char) {
    c as int == 32 || c as int == 9 || c as int == 10 || c as int == 13
  }

  function Skip(s: string): (r: string)
    ensures |r| <= |s|
  {
    if s != [] && IsWhite(s[0]) then Skip(s[1..]) else s
  }

  /** A dictionary assignment: a repeated key keeps its place and takes the later value. */
  function SetField(fields: seq<Field>, key: string, value: Json): seq<Field> {
    if fields == [] then [Field(key, value)]
    else if fields[0].key == key then [Field(key, value)] + fields[1..]
    else [fields[0]] + SetField(fields[1..], key, value)
  }

  type Reading<T> = Option<(T, string)>

  function ReadLiteral(s: string): (r: Reading<Json>)
    ensures r.Some? ==> |r.value.1| < |s|
  {
    if StartsWith(s, "null") then Some((Null, s[4..]))
    else if StartsWith(s, "true") then Some((Bool(true), s[4..]))
    else if StartsWith(s, "false") then Some((Bool(false), s[5..]))
    else if StartsWith(s, "NaN") then Some((Float("NaN"), s[3..]))
    else if StartsWith(s, "Infinity") then Some((Float("Infinity"), s[8..]))
    else if StartsWith(s, "-Infinity") then Some((Float("-Infinity"), s[9..]))
    else None
  }

  function ReadNumber(s: string): (r: Reading<Json>)
    ensures r.Some? ==> |r.value.1| < |s|
  {
    var n := NumberRun(s);
    var token := s[..n];
    if IsIntText(token) then Some((Int(IntValue(token)), s[n..]))
    else if IsFloatText(token) then Some((Float(token), s[n..]))
    else None
  }

  /** One value at the start of s and the text after it. */
  function ReadValue(s: string): (r: Reading<Json>)
    ensures r.Some? ==> |r.value.1| < |s|
    decreases |s|, 0
  {
    if s == [] then None
    else if s[0] == '\"' then
      (match ReadString(s[1..]) case None => None case Some((text, rest)) => Some((Str(text), rest)))
    else if s[0] == '[' then
      var t := Skip(s[1..]);
      if t != [] && t[0] == ']' then Some((Arr([]), t[1..]))
      else match ReadItems(t, []) case None => None case Some((items, rest)) => Some((Arr(items), rest))
    else if s[0] == '{' then
      var t := Skip(s[1..]);
      if t != [] && t[0] == '}' then Some((Obj([]), t[1..]))
      else match ReadFields(t, []) case None => None case Some((fields, rest)) => Some((Obj(fields), rest))
    else if ReadLiteral(s).Some? then ReadLiteral(s)
    else ReadNumber(s)
  }

  /** Values separated by commas up to the closing bracket, added to those read so far. */
  function ReadItems(s: string, read: seq<Json>): (r: Reading<seq<Json>>)
    ensures r.Some? ==> |r.value.1| < |s|
    decreases |s|, 1
  {
    match ReadValue(s)
    case None => None
    case Some((v, rest)) =>
      var t := Skip(rest);
      if t != [] && t[0] == ']' then Some((read + [v], t[1..]))
      else if t != [] && t[0] == ',' then ReadItems(Skip(t[1..]), read + [v])
      else None
  }

  function ReadFields(s: string, read: seq<Field>): (r: Reading<seq<Field>>)
    ensures r.Some? ==> |r.value.1| < |s|
    decreases |s|, 1
  {
    if s == [] || s[0] != '\"' then None
    else match ReadString(s[1..])
      case None => None
      case Some((key, afterKey)) =>
        var t := Skip(afterKey);
        if t == [] || t[0] != ':' then None
        else match ReadValue(Skip(t[1..]))
          case None => None
          case Some((v, rest)) =>
            var u := Skip(rest);
            if u != [] && u[0] == '}' then Some((SetField(read, key, v), u[1..]))
            else if u != [] && u[0] == ',' then ReadFields(Skip(u[1..]), SetField(read, key, v))
            else None
  }

  /** json.loads: one value, white space around it, nothing else. */
  function Loads(s: string): Option<Json> {
    match ReadValue(Skip(s))
    case None => None
    case Some((v, rest)) => if Skip(rest) == [] then Some(v) else None
  }

  // ----- well-formed values ----------------------------------------------------------------

  predicate DistinctKeys(fields: seq<Field>) {
    forall i, j :: 0 <= i < j < |fields| ==> fields[i].key != fields[j].key
  }

  predicate WellFormed(v: Json)
    decreases v
  {
    match v
    case Float(text) => IsFloatText(text) && NumberRun(text) == |text| && !IsIntText(text)
    case Arr(items) => forall x :: x in items ==> WellFormed(x)
    case Obj(fields) => DistinctKeys(fields) && forall f :: f in fields ==> WellFormed(f.value)
    case _ => true
  }

  // ----- reading what was written ------------------------------------------------------------

  lemma HexRoundTrip(d: nat)
    requires d < 16
    ensures HexValue(HexDigit(d)) == Some(d)
  {
  }

  lemma Hex4RoundTrip(n: nat, rest: string)
    requires n < 0x10000
    ensures ReadHex4(Hex4(n) + rest) == Some(n)
  {
    var a := n / 16;
    var b := a / 16;
    HexRoundTrip(b / 16);
    HexRoundTrip(b % 16);
    HexRoundTrip(a % 16);
    HexRoundTrip(n % 16);
    assert b == 16 * (b / 16) + b % 16 && a == 16 * b + a % 16 && n == 16 * a + n % 16;
  }

  lemma BasicCharRoundTrip(n: nat, rest: string)
    requires n < 0xd800 || 0xe000 <= n < 0x10000
    ensures ReadChar(UnicodeEscape(n) + rest) == Some((n as char, 6))
  {
    var s := UnicodeEscape(n) + rest;
    assert s[2..] == Hex4(n) + rest;
    Hex4RoundTrip(n, rest);
  }

  lemma PairRoundTrip(high: nat, low: nat, rest: string)
    requires 0xd800 <= high < 0xdc00 <= low < 0xe000
    ensures ReadChar(UnicodeEscape(high) + (UnicodeEscape(low) + rest)) ==
      Some(((0x10000 + (high - 0xd800) * 1024 + (low - 0xdc00)) as char, 12))
  {
    var tail := UnicodeEscape(low) + rest;
    var s := UnicodeEscape(high) + tail;
    assert s[2..] == Hex4(high) + tail && s[6..] == tail;
    assert s[6] == tail[0] && s[7] == tail[1] && s[8..] == tail[2..];
    assert tail[2..] == Hex4(low) + rest;
    Hex4RoundTrip(high, tail);
    Hex4RoundTrip(low, rest);
  }

  lemma OneLineCharRoundTrip(c: char, rest: string)
    requires ShortEscape(c).Some? || 32 <= c as int <= 126
    ensures ReadChar(EscapeChar(c) + rest) == Some((c, |EscapeChar(c)|))
  {
    var s := EscapeChar(c) + rest;
    assert s[0] == EscapeChar(c)[0];
    if ShortEscape(c).Some? {
      assert s[1] == ShortEscape(c).value && ReadShort(s[1]) == Some(c);
    }
  }

  lemma Surrogates(n: nat)
    requires 0x10000 <= n < 0x110000
    ensures 0xd800 <= 0xd800 + (n - 0x10000) / 1024 < 0xdc00 <= 0xdc00 + (n - 0x10000) % 1024 < 0xe000
    ensures 0x10000 + (n - 0x10000) / 1024 * 1024 + (n - 0x10000) % 1024 == n
  {
  }

  lemma LongCharRoundTrip(c: char, rest: string)
    requires ShortEscape(c).None? && c as int >= 0x10000
    ensures ReadChar(EscapeChar(c) + rest) == Some((c, |EscapeChar(c)|))
  {
    var n := c as int;
    Surrogates(n);
    LongEscape(c);
    PairReads(c, 0xd800 + (n - 0x10000) / 1024, 0xdc00 + (n - 0x10000) % 1024, EscapeChar(c), rest);
  }

  lemma PairReads(c: char, high: nat, low: nat, text: string, rest: string)
    requires 0xd800 <= high < 0xdc00 <= low < 0xe000 && c as int == 0x10000 + (high - 0xd800) * 1024 + (low - 0xdc00)
    requires text == UnicodeEscape(high) + UnicodeEscape(low)
    ensures ReadChar(text + rest) == Some((c, |text|))
  {
    assert text + rest == UnicodeEscape(high) + (UnicodeEscape(low) + rest);
    PairRoundTrip(high, low, rest);
  }

  lemma LongEscape(c: char)
    requires ShortEscape(c).None? && c as int >= 0x10000
    ensures var n := c as int - 0x10000;
      EscapeChar(c) == UnicodeEscape(0xd800 + n / 1024) + UnicodeEscape(0xdc00 + n % 1024)
  {
  }

  lemma CharRoundTrip(c: char, rest: string)
    ensures ReadChar(EscapeChar(c) + rest) == Some((c, |EscapeChar(c)|))
  {
    if ShortEscape(c).Some? || 32 <= c as int <= 126 {
      OneLineCharRoundTrip(c, rest);
    } else if c as int < 0x10000 {
      BasicCharRoundTrip(c as int, rest);
    } else {
      LongCharRoundTrip(c, rest);
    }
  }

  lemma EscapedStart(c: char)
    ensures EscapeChar(c)[0] != '\"'
  {
  }

  lemma {:induction false} StringRoundTrip(s: string, rest: string)
    ensures ReadString(Escape(s) + "\"" + rest) == Some((s, rest))
  {
    var text := Escape(s) + "\"" + rest;
    if s != [] {
      var tail := Escape(s[1..]) + "\"" + rest;
      CharRoundTrip(s[0], tail);
      EscapedStart(s[0]);
      assert text == EscapeChar(s[0]) + tail;
      assert text[|EscapeChar(s[0])|..] == tail;
      StringRoundTrip(s[1..], rest);
      assert [s[0]] + s[1..] == s;
    } else {
      assert text[0] == '\"' && text[1..] == rest;
    }
  }

  /** What may follow a value in canonical text: the number before it must end there. */
  predicate Ends(rest: string) {
    rest == [] || !NumberChar(rest[0])
  }

  lemma {:induction false} RunOfNumber(token: string, rest: string)
    requires NumberRun(token) == |token| && Ends(rest)
    ensures NumberRun(token + rest) == |token|
  {
    if token != [] {
      assert (token + rest)[1..] == token[1..] + rest;
      RunOfNumber(token[1..], rest);
    } else {
      assert token + rest == rest;
    }
  }

  lemma {:induction false} DigitsAreNumberRun(s: string)
    requires AllDigits(s)
    ensures NumberRun(s) == |s|
  {
    if s != [] {
      DigitsAreNumberRun(s[1..]);
    }
  }

  lemma IntTextCorrect(n: int)
    ensures IsIntText(IntText(n)) && IntValue(IntText(n)) == n && NumberRun(IntText(n)) == |IntText(n)|
  {
    var m := if n < 0 then -n else n;
    PrintIsDecimal(m);
    DigitsAreNumberRun(Print(m));
    if n < 0 {
      assert IntText(n)[1..] == Print(m);
    }
  }

  lemma StartsAlike(s: string, prefix: string, i: nat)
    requires StartsWith(s, prefix) && i < |prefix|
    ensures i < |s| && s[i] == prefix[i]
  {
    assert s[..|prefix|][i] == prefix[i];
  }

  lemma NumberIsNoLiteral(s: string)
    requires s != [] && (IsDigit(s[0]) || (|s| > 1 && s[0] == '-' && IsDigit(s[1])))
    ensures ReadLiteral(s).None?
  {
    if StartsWith(s, "null") { StartsAlike(s, "null", 0); }
    if StartsWith(s, "true") { StartsAlike(s, "true", 0); }
    if StartsWith(s, "false") { StartsAlike(s, "false", 0); }
    if StartsWith(s, "NaN") { StartsAlike(s, "NaN", 0); }
    if StartsWith(s, "Infinity") { StartsAlike(s, "Infinity", 0); }
    if StartsWith(s, "-Infinity") {
      StartsAlike(s, "-Infinity", 0);
      StartsAlike(s, "-Infinity", 1);
    }
  }

  lemma NumberRoundTrip(token: string, rest: string, v: Json)
    requires NumberRun(token) == |token| && Ends(rest) && token != []
    requires IsDigit(token[0]) || (|token| > 1 && token[0] == '-' && IsDigit(token[1]))
    requires if IsIntText(token) then v == Int(IntValue(token)) else IsFloatText(token) && v == Float(token)
    ensures ReadValue(token + rest) == Some((v, rest))
  {
    var s := token + rest;
    RunOfNumber(token, rest);
    assert s[0] == token[0] && (|token| > 1 ==> s[1] == token[1]);
    NumberIsNoLiteral(s);
    assert s[..|token|] == token && s[|token|..] == rest;
  }

  lemma FloatStart(text: string)
    requires IsFloatText(text)
    ensures IsDigit(text[0]) || (|text| > 1 && text[0] == '-' && IsDigit(text[1]))
  {
  }

  /** Canonical text starts with no white space and with none of the closing marks. */
  lemma {:induction false} RenderStart(v: Json)
    requires WellFormed(v)
    ensures Render(v) != [] && !IsWhite(Render(v)[0]) && Render(v)[0] != ']' && Render(v)[0] != '}'
  {
    match v
    case Int(n) => IntTextCorrect(n);
    case Float(text) => FloatStart(text);
    case _ =>
  }

  lemma SkipNothing(s: string)
    requires s == [] || !IsWhite(s[0])
    ensures Skip(s) == s
  {
  }

  lemma LiteralRoundTrip(v: Json, rest: string)
    requires v.Null? || v.Bool?
    ensures ReadValue(Render(v) + rest) == Some((v, rest))
  {
    var s := Render(v) + rest;
    if v.Bool? && !v.b {
      assert s[..5] == "false" && s[5..] == rest;
    } else {
      assert s[..4] == (if v.Null? then "null" else "true") && s[4..] == rest;
    }
  }

  lemma {:induction false} ValueRoundTrip(v: Json, rest: string)
    requires WellFormed(v) && Ends(rest)
    ensures ReadValue(Render(v) + rest) == Some((v, rest))
    decreases v, 1
  {
    var s := Render(v) + rest;
    match v
    case Null => LiteralRoundTrip(v, rest);
    case Bool(b) => LiteralRoundTrip(v, rest);
    case Int(n) =>
      IntTextCorrect(n);
      PrintIsDecimal(if n < 0 then -n else n);
      NumberRoundTrip(IntText(n), rest, v);
    case Float(text) =>
      FloatStart(text);
      NumberRoundTrip(text, rest, v);
    case Str(text) =>
      assert s[1..] == Escape(text) + "\"" + rest;
      StringRoundTrip(text, rest);
    case Arr(items) => ArrayRoundTrip(items, rest);
    case Obj(fields) => ObjectRoundTrip(fields, rest);
  }

  lemma {:induction false} ArrayRoundTrip(items: seq<Json>, rest: string)
    requires WellFormed(Arr(items)) && Ends(rest)
    ensures ReadValue(Render(Arr(items)) + rest) == Some((Arr(items), rest))
    decreases items, 2
  {
    var s := Render(Arr(items)) + rest;
    if items == [] {
      assert s[0] == '[' && s[1..] == "]" + rest;
      SkipNothing("]" + rest);
      assert ("]" + rest)[1..] == rest;
    } else {
      var inner := Render(items[0]) + (RenderItems(items[1..]) + "]" + rest);
      assert s[0] == '[' && s[1..] == inner;
      RenderStart(items[0]);
      SkipNothing(inner);
      ItemsRoundTrip(items, [], rest);
      assert [] + items == items;
    }
  }

  lemma Regroup<T>(a: seq<T>, b: seq<T>)
    requires b != []
    ensures a + [b[0]] + b[1..] == a + b
  {
  }

  lemma MoreItemsText(items: seq<Json>, rest: string)
    ensures items == [] ==> RenderItems(items) + "]" + rest == "]" + rest
    ensures items != [] ==>
      RenderItems(items) + "]" + rest == "," + (Render(items[0]) + (RenderItems(items[1..]) + "]" + rest))
  {
  }

  lemma {:induction false} ItemsRoundTrip(items: seq<Json>, read: seq<Json>, rest: string)
    requires items != [] && (forall x :: x in items ==> WellFormed(x)) && Ends(rest)
    ensures ReadItems(Render(items[0]) + (RenderItems(items[1..]) + "]" + rest), read) == Some((read + items, rest))
    decreases items, 1
  {
    var tail := RenderItems(items[1..]) + "]" + rest;
    assert items[0] in items;
    ValueRoundTrip(items[0], tail);
    SkipNothing(tail);
    MoreItemsText(items[1..], rest);
    Regroup(read, items);
    if |items| == 1 {
      assert read + [items[0]] == read + items;
    } else {
      var next := Render(items[1]) + (RenderItems(items[1..][1..]) + "]" + rest);
      assert tail[1..] == next;
      RenderStart(items[1]);
      SkipNothing(next);
      ItemsRoundTrip(items[1..], read + [items[0]], rest);
    }
  }

  lemma {:induction false} SetNewField(fields: seq<Field>, f: Field)
    requires forall g :: g in fields ==> g.key != f.key
    ensures SetField(fields, f.key, f.value) == fields + [f]
  {
    if fields != [] {
      SetNewField(fields[1..], f);
      assert fields == [fields[0]] + fields[1..];
    }
  }

  lemma ObjectText(fields: seq<Field>, rest: string)
    requires fields != []
    ensures Render(Obj(fields)) + rest == "{" + (RenderField(fields[0]) + (RenderFields(fields[1..]) + "}" + rest))
  {
  }

  lemma FieldText(f: Field, rest: string)
    ensures RenderField(f) + rest != []
      && (RenderField(f) + rest)[0] == '\"' && Skip(RenderField(f) + rest) == RenderField(f) + rest
  {
    SkipNothing(RenderField(f) + rest);
  }

  lemma MoreFieldsText(fields: seq<Field>, rest: string)
    ensures fields == [] ==> RenderFields(fields) + "}" + rest == "}" + rest
    ensures fields != [] ==>
      RenderFields(fields) + "}" + rest == "," + (RenderField(fields[0]) + (RenderFields(fields[1..]) + "}" + rest))
  {
  }

  lemma EmptyObjectRoundTrip(rest: string)
    requires Ends(rest)
    ensures ReadValue(Render(Obj([])) + rest) == Some((Obj([]), rest))
  {
    var s := Render(Obj([])) + rest;
    assert s[0] == '{' && s[1..] == "}" + rest;
    SkipNothing("}" + rest);
    assert ("}" + rest)[1..] == rest;
  }

  lemma {:induction false} ObjectRoundTrip(fields: seq<Field>, rest: string)
    requires WellFormed(Obj(fields)) && Ends(rest)
    ensures ReadValue(Render(Obj(fields)) + rest) == Some((Obj(fields), rest))
    decreases fields, 2
  {
    if fields == [] {
      EmptyObjectRoundTrip(rest);
    } else {
      var tail := RenderFields(fields[1..]) + "}" + rest;
      var inner := RenderField(fields[0]) + tail;
      assert [] + fields == fields;
      FieldsRoundTrip(fields, [], rest);
      ObjectText(fields, rest);
      OpenBrace(inner, fields[0], tail);
      ReadBraced(inner);
    }
  }

  lemma OpenBrace(inner: string, f: Field, tail: string)
    requires inner == RenderField(f) + tail
    ensures ("{" + inner)[0] == '{' && ("{" + inner)[1..] == inner && Skip(inner) == inner && inner != []
      && inner[0] == '\"'
  {
    FieldText(f, tail);
  }

  lemma ReadBraced(inner: string)
    requires inner != [] && inner[0] == '\"' && Skip(inner) == inner
    ensures ReadValue("{" + inner) ==
      match ReadFields(inner, []) case None => None case Some((fields, rest)) => Some((Obj(fields), rest))
  {
    assert ("{" + inner)[0] == '{' && ("{" + inner)[1..] == inner;
  }

  lemma KeyText(f: Field, tail: string)
    ensures RenderField(f) + tail == "\"" + (Escape(f.key) + "\"" + (":" + (Render(f.value) + tail)))
    ensures (RenderField(f) + tail)[0] == '\"'
    ensures (RenderField(f) + tail)[1..] == Escape(f.key) + "\"" + (":" + (Render(f.value) + tail))
  {
  }

  /** A field is read up to what follows its value, and a comma there leads to the next one. */
  lemma {:induction false} FieldRoundTrip(f: Field, tail: string, read: seq<Field>)
    requires WellFormed(f.value) && tail != [] && (tail[0] == '}' || tail[0] == ',')
    ensures ReadFields(RenderField(f) + tail, read) ==
      if tail[0] == '}' then Some((SetField(read, f.key, f.value), tail[1..]))
      else ReadFields(Skip(tail[1..]), SetField(read, f.key, f.value))
    decreases f, 0
  {
    var s, afterColon := RenderField(f) + tail, Render(f.value) + tail;
    var afterKey := ":" + afterColon;
    KeyText(f, tail);
    StringRoundTrip(f.key, afterKey);
    SkipNothing(afterKey);
    assert afterKey[1..] == afterColon;
    RenderStart(f.value);
    SkipNothing(afterColon);
    ValueRoundTrip(f.value, tail);
    SkipNothing(tail);
  }

  lemma {:induction false} FieldsRoundTrip(fields: seq<Field>, read: seq<Field>, rest: string)
    requires fields != [] && (forall f :: f in fields ==> WellFormed(f.value)) && Ends(rest)
    requires DistinctKeys(read + fields)
    ensures ReadFields(RenderField(fields[0]) + (RenderFields(fields[1..]) + "}" + rest), read) ==
      Some((read + fields, rest))
    decreases fields, 1
  {
    var f, tail := fields[0], RenderFields(fields[1..]) + "}" + rest;
    assert f in fields;
    NewKey(read, fields);
    SetNewField(read, f);
    FieldRoundTrip(f, tail, read);
    MoreFieldsText(fields[1..], rest);
    Regroup(read, fields);
    if |fields| == 1 {
      assert read + [f] == read + fields;
    } else {
      var next := RenderField(fields[1]) + (RenderFields(fields[1..][1..]) + "}" + rest);
      assert tail[1..] == next;
      FieldText(fields[1], RenderFields(fields[1..][1..]) + "}" + rest);
      FieldsRoundTrip(fields[1..], read + [f], rest);
    }
  }

  lemma NewKey(read: seq<Field>, fields: seq<Field>)
    requires fields != [] && DistinctKeys(read + fields)
    ensures forall g :: g in read ==> g.key != fields[0].key
  {
    var all := read + fields;
    forall g | g in read ensures g.key != fields[0].key {
      var i :| 0 <= i < |read| && read[i] == g;
      assert all[i] == g && all[|read|] == fields[0];
    }
  }

  /** Reading what was written gives the value back, items in the order they were written. */
  lemma LoadsRender(v: Json)
    requires WellFormed(v)
    ensures Loads(Render(v)) == Some(v)
  {
    RenderStart(v);
    SkipNothing(Render(v));
    assert Render(v) + [] == Render(v);
    ValueRoundTrip(v, []);
  }
}
