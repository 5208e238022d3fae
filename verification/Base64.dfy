/** base64url (section 5 of RFC 4648) as Python writes it, and its decoder, which drops foreign characters. */
module Base64 {
  import opened Options
  import opened Canonical

  function SextetChar(v: nat): char
    requires v < 64
  {
    if v < 26 then ('A' as int + v) as char
    else if v < 52 then ('a' as int + (v - 26)) as char
    else if v < 62 then ('0' as int + (v - 52)) as char
    else if v == 62 then '-' else '_'
  }

  /** Both alphabets are read: the url-safe marks are translated to the plain ones first. */
  function CharSextet(c: char): Option<nat> {
    if 'A' <= c <= 'Z' then Some(c as int - 'A' as int)
    else if 'a' <= c <= 'z' then Some(c as int - 'a' as int + 26)
    else if '0' <= c <= '9' then Some(c as int - '0' as int + 52)
    else if c == '-' || c == '+' then Some(62)
    else if c == '_' || c == '/' then Some(63)
    else None
  }

  function Quad(x: Byte, y: Byte, z: Byte): string {
    [SextetChar(x / 4), SextetChar(x % 4 * 16 + y / 16), SextetChar(y % 16 * 4 + z / 64), SextetChar(z % 64)]
  }

  function Encode(b: seq<Byte>): string {
    if b == [] then []
    else if |b| == 1 then Quad(b[0], 0, 0)[..2] + "=="
    else if |b| == 2 then Quad(b[0], b[1], 0)[..3] + "="
    else Quad(b[0], b[1], b[2]) + Encode(b[3..])
  }

  /** The decoder's loop: quad is the position in the current group, left the bits held over, pads the marks seen. */
  function DecodeFrom(s: string, quad: nat, left: nat, pads: nat): Option<seq<Byte>>
    requires quad < 4 && left < 64
  {
    if s == [] then (if quad == 0 then Some([]) else None)
    else if s[0] == '=' then
      if quad >= 2 && quad + pads + 1 >= 4 then Some([])
      else DecodeFrom(s[1..], quad, left, if quad >= 2 then pads + 1 else pads)
    else match CharSextet(s[0])
      case None => DecodeFrom(s[1..], quad, left, pads)
      case Some(v) =>
        if quad == 0 then DecodeFrom(s[1..], 1, v, 0)
        else if quad == 1 then Emit((left * 4 + v / 16) % 256, DecodeFrom(s[1..], 2, v % 16, 0))
        else if quad == 2 then Emit((left * 16 + v / 4) % 256, DecodeFrom(s[1..], 3, v % 4, 0))
        else Emit((left * 64 + v) % 256, DecodeFrom(s[1..], 0, 0, 0))
  }

  function Emit(b: Byte, rest: Option<seq<Byte>>): Option<seq<Byte>> {
    match rest case None => None case Some(more) => Some([b] + more)
  }

  function Decode(s: string): Option<seq<Byte>> {
    DecodeFrom(s, 0, 0, 0)
  }

  lemma SextetRoundTrip(v: nat)
    requires v < 64
    ensures CharSextet(SextetChar(v)) == Some(v) && SextetChar(v) != '='
  {
  }

  lemma QuadBits(x: Byte, y: Byte, z: Byte)
    ensures x / 4 < 64 && x % 4 * 16 + y / 16 < 64 && y % 16 * 4 + z / 64 < 64 && z % 64 < 64
    ensures (x / 4 * 4 + (x % 4 * 16 + y / 16) / 16) % 256 == x
    ensures ((x % 4 * 16 + y / 16) % 16 * 16 + (y % 16 * 4 + z / 64) / 4) % 256 == y
    ensures ((y % 16 * 4 + z / 64) % 4 * 64 + z % 64) % 256 == z
  {
    assert x == x / 4 * 4 + x % 4 && y == y / 16 * 16 + y % 16 && z == z / 64 * 64 + z % 64;
    assert (x % 4 * 16 + y / 16) / 16 == x % 4 && (x % 4 * 16 + y / 16) % 16 == y / 16;
    assert (y % 16 * 4 + z / 64) / 4 == y % 16 && (y % 16 * 4 + z / 64) % 4 == z / 64;
  }

  /** One character of the alphabet is one step of the decoder. */
  lemma DecodeStep(v: nat, rest: string, quad: nat, left: nat, pads: nat)
    requires v < 64 && quad < 4 && left < 64
    ensures DecodeFrom([SextetChar(v)] + rest, quad, left, pads) ==
      if quad == 0 then DecodeFrom(rest, 1, v, 0)
      else if quad == 1 then Emit((left * 4 + v / 16) % 256, DecodeFrom(rest, 2, v % 16, 0))
      else if quad == 2 then Emit((left * 16 + v / 4) % 256, DecodeFrom(rest, 3, v % 4, 0))
      else Emit((left * 64 + v) % 256, DecodeFrom(rest, 0, 0, 0))
  {
    SextetRoundTrip(v);
    var s := [SextetChar(v)] + rest;
    assert s[0] == SextetChar(v) && s[1..] == rest;
  }

  lemma QuadDecodes(x: Byte, y: Byte, z: Byte, rest: string)
    ensures DecodeFrom(Quad(x, y, z) + rest, 0, 0, 0) == Emit(x, Emit(y, Emit(z, DecodeFrom(rest, 0, 0, 0))))
  {
    QuadBits(x, y, z);
    var a, b, c, d := x / 4, x % 4 * 16 + y / 16, y % 16 * 4 + z / 64, z % 64;
    var s3 := [SextetChar(d)] + rest;
    var s2 := [SextetChar(c)] + s3;
    var s1 := [SextetChar(b)] + s2;
    assert Quad(x, y, z) + rest == [SextetChar(a)] + s1;
    DecodeStep(a, s1, 0, 0, 0);
    LastThree(x, y, z, a, b, c, d, rest);
  }

  lemma LastThree(x: Byte, y: Byte, z: Byte, a: nat, b: nat, c: nat, d: nat, rest: string)
    requires a < 64 && b < 64 && c < 64 && d < 64
    requires x == (a * 4 + b / 16) % 256 && y == (b % 16 * 16 + c / 4) % 256 && z == (c % 4 * 64 + d) % 256
    ensures DecodeFrom([SextetChar(b)] + ([SextetChar(c)] + ([SextetChar(d)] + rest)), 1, a, 0) ==
      Emit(x, Emit(y, Emit(z, DecodeFrom(rest, 0, 0, 0))))
  {
    var s3 := [SextetChar(d)] + rest;
    var s2 := [SextetChar(c)] + s3;
    DecodeStep(b, s2, 1, a, 0);
    DecodeStep(c, s3, 2, b % 16, 0);
    DecodeStep(d, rest, 3, c % 4, 0);
  }

  lemma OneByteDecodes(x: Byte)
    ensures DecodeFrom(Quad(x, 0, 0)[..2] + "==", 0, 0, 0) == Some([x])
  {
    QuadBits(x, 0, 0);
    var a, b := x / 4, x % 4 * 16;
    assert Quad(x, 0, 0)[..2] + "==" == [SextetChar(a)] + ([SextetChar(b)] + "==");
    DecodeStep(a, [SextetChar(b)] + "==", 0, 0, 0);
    DecodeStep(b, "==", 1, a, 0);
    assert "=="[1..] == "=";
    assert DecodeFrom("=", 2, b % 16, 1) == Some([]);
    assert DecodeFrom("==", 2, b % 16, 0) == Some([]);
    assert [x] + [] == [x];
  }

  lemma TwoBytesDecode(x: Byte, y: Byte)
    ensures DecodeFrom(Quad(x, y, 0)[..3] + "=", 0, 0, 0) == Some([x, y])
  {
    QuadBits(x, y, 0);
    var a, b, c := x / 4, x % 4 * 16 + y / 16, y % 16 * 4;
    var s2 := [SextetChar(c)] + "=";
    var s1 := [SextetChar(b)] + s2;
    assert Quad(x, y, 0)[..3] + "=" == [SextetChar(a)] + s1;
    DecodeStep(a, s1, 0, 0, 0);
    DecodeStep(b, s2, 1, a, 0);
    DecodeStep(c, "=", 2, b % 16, 0);
    assert DecodeFrom("=", 3, c % 4, 0) == Some([]);
    assert [y] + [] == [y] && [x] + [y] == [x, y];
  }

  lemma {:induction false} DecodeEncode(b: seq<Byte>)
    ensures Decode(Encode(b)) == Some(b)
  {
    if |b| == 1 {
      OneByteDecodes(b[0]);
      assert b == [b[0]];
    } else if |b| == 2 {
      TwoBytesDecode(b[0], b[1]);
      assert b == [b[0], b[1]];
    } else if |b| > 2 {
      QuadDecodes(b[0], b[1], b[2], Encode(b[3..]));
      DecodeEncode(b[3..]);
      assert [b[0]] + ([b[1]] + ([b[2]] + b[3..])) == b;
    }
  }

  // ----- padding ---------------------------------------------------------------------

  function StripPads(s: string): string {
    if s != [] && s[|s| - 1] == '=' then StripPads(s[..|s| - 1]) else s
  }

  function Pads(n: nat): string {
    seq(n, i => '=')
  }

  /** text + "=" * (-len(text) % 4) */
  function Padded(s: string): string {
    s + Pads((4 - |s| % 4) % 4)
  }

  predicate InAlphabet(s: string) {
    forall i :: 0 <= i < |s| ==> CharSextet(s[i]).Some? && s[i] != '+' && s[i] != '/'
  }

  lemma QuadInAlphabet(x: Byte, y: Byte, z: Byte)
    ensures InAlphabet(Quad(x, y, z))
  {
    assert forall v: nat | v < 64 :: CharSextet(SextetChar(v)).Some? && SextetChar(v) != '+' && SextetChar(v) != '/';
  }

  ghost predicate Shape(text: string, core: string, pads: nat) {
    text == core + Pads(pads) && InAlphabet(core) && pads < 3 && (|core| + pads) % 4 == 0
  }

  lemma ShapeGrows(x: Byte, y: Byte, z: Byte, text: string, core: string, pads: nat)
    requires Shape(text, core, pads)
    ensures Shape(Quad(x, y, z) + text, Quad(x, y, z) + core, pads)
  {
    QuadInAlphabet(x, y, z);
    assert Quad(x, y, z) + text == (Quad(x, y, z) + core) + Pads(pads);
  }

  /** Encoded text is whole groups: characters of the url-safe alphabet, then at most two marks. */
  lemma {:induction false} EncodeShape(b: seq<Byte>) returns (core: string, pads: nat)
    ensures Shape(Encode(b), core, pads) && (b != [] ==> core != [])
  {
    if b == [] {
      core, pads := [], 0;
    } else if |b| == 1 {
      QuadInAlphabet(b[0], 0, 0);
      core, pads := Quad(b[0], 0, 0)[..2], 2;
      assert Pads(2) == "==";
    } else if |b| == 2 {
      QuadInAlphabet(b[0], b[1], 0);
      core, pads := Quad(b[0], b[1], 0)[..3], 1;
      assert Pads(1) == "=";
    } else {
      core, pads := EncodeShape(b[3..]);
      ShapeGrows(b[0], b[1], b[2], Encode(b[3..]), core, pads);
      core := Quad(b[0], b[1], b[2]) + core;
    }
  }

  lemma {:induction false} StripPadsOff(core: string, pads: nat)
    requires core == [] || core[|core| - 1] != '='
    ensures StripPads(core + Pads(pads)) == core
  {
    if pads > 0 {
      var s := core + Pads(pads);
      assert s[..|s| - 1] == core + Pads(pads - 1);
      StripPadsOff(core, pads - 1);
    } else {
      assert core + Pads(0) == core;
    }
  }

  lemma PadCount(n: nat, pads: nat)
    requires pads < 3 && (n + pads) % 4 == 0
    ensures (4 - n % 4) % 4 == pads
  {
  }

  /** Stripping the padding loses nothing: the length says how many marks to put back. */
  lemma PaddingComesBack(b: seq<Byte>)
    ensures Padded(StripPads(Encode(b))) == Encode(b)
    ensures InAlphabet(StripPads(Encode(b)))
    ensures b != [] ==> StripPads(Encode(b)) != []
  {
    var core, pads := EncodeShape(b);
    assert core != [] ==> CharSextet('=').None?;
    StripPadsOff(core, pads);
    PadCount(|core|, pads);
  }
}
