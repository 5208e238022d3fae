/** Stream names: the grammar, the placeholders in a name, and what filling them one at a time amounts to. */
module StreamNames {
  import opened Options
  import opened Sorting
  import opened Text

  predicate IsKeyChar(c: char) {
    IsLower(c) || IsDigit(c) || c == '_'
  }

  /** The length of the run of lowercase letters, digits and underscores that s opens with. */
  function Run(s: string): (n: nat)
    ensures n <= |s|
    ensures n < |s| ==> !IsKeyChar(s[n])
  {
    if s != [] && IsKeyChar(s[0]) then 1 + Run(s[1..]) else 0
  }

  lemma {:induction false} RunChars(s: string)
    ensures forall i :: 0 <= i < Run(s) ==> IsKeyChar(s[i])
  {
    if s != [] && IsKeyChar(s[0]) {
      RunChars(s[1..]);
    }
  }

  /** The key of the placeholder that s opens with. */
  function Placeholder(s: string): (r: Option<string>)
    ensures r.Some? ==> r.value != [] && |r.value| + 2 <= |s|
  {
    if s == [] || s[0] != '{' then None
    else
      var n := Run(s[1..]);
      if n == 0 || 1 + n >= |s| || s[1 + n] != '}' then None else Some(s[1..1 + n])
  }

  /** The length of the segment that s opens with. */
  function Segment(s: string): (r: Option<nat>)
    ensures r.Some? ==> 0 < r.value <= |s|
  {
    if Run(s) > 0 then Some(Run(s))
    else if Placeholder(s).Some? then Some(|Placeholder(s).value| + 2)
    else None
  }

  predicate IsVersion(s: string) {
    var core := BeforeDollar(s);
    && |core| >= 3 && core[0] == '@' && core[1] == 'v' && '1' <= core[2] <= '9'
    && forall i :: 3 <= i < |core| ==> IsDigit(core[i])
  }

  /** What may follow a segment: more segments, then perhaps a version, then the end or one last newline. */
  predicate IsTail(s: string)
    decreases |s|
  {
    || s == [] || s == "\n"
    || IsVersion(s)
    || (s[0] == '.' && Segment(s[1..]).Some? && IsTail(s[1 + Segment(s[1..]).value..]))
  }

  predicate IsName(s: string) {
    && Segment(s).Some?
    && var tail := s[Segment(s).value..];
       tail != [] && tail[0] == '.' && IsTail(tail)
  }

  predicate IsSlugChar(c: char) {
    IsLower(c) || IsUpper(c) || IsDigit(c) || c == '_' || c == '-'
  }

  predicate IsEntityId(s: string) {
    var core := BeforeDollar(s);
    1 <= |core| <= 64 && forall i :: 0 <= i < |core| ==> IsSlugChar(core[i])
  }

  // ----- names as pieces -------------------------------------------------------------------

  datatype Piece = Lit(c: char) | Hole(key: string)

  function PiecesOf(s: string): seq<Piece>
    decreases |s|
  {
    if s == [] then []
    else match Placeholder(s)
         case Some(key) => [Hole(key)] + PiecesOf(s[|key| + 2..])
         case None => [Lit(s[0])] + PiecesOf(s[1..])
  }

  function Show(p: Piece): string {
    match p
    case Lit(c) => [c]
    case Hole(key) => "{" + key + "}"
  }

  function Render(ps: seq<Piece>): string {
    if ps == [] then "" else Show(ps[0]) + Render(ps[1..])
  }

  /** findall: the keys of the placeholders, from left to right. */
  function KeysIn(ps: seq<Piece>): (r: set<string>) {
    set p | p in ps && p.Hole? :: p.key
  }

  function Required(name: string): set<string> {
    KeysIn(PiecesOf(name))
  }

  predicate Braceless(s: string) {
    forall i :: 0 <= i < |s| ==> s[i] != '{' && s[i] != '}'
  }

  predicate KeyText(s: string) {
    forall i :: 0 <= i < |s| ==> IsKeyChar(s[i])
  }

  predicate PlainPiece(p: Piece) {
    match p
    case Lit(c) => c != '{' && c != '}'
    case Hole(key) => KeyText(key)
  }

  ghost predicate Plain(ps: seq<Piece>) {
    forall i :: 0 <= i < |ps| ==> PlainPiece(ps[i])
  }

  // ----- filling ----------------------------------------------------------------------------

  /** Python's str.replace for a text that is not empty. */
  function Replace(s: string, what: string, into: string): string
    requires what != []
    decreases |s|
  {
    if s == [] then []
    else if StartsWith(s, what) then into + Replace(s[|what|..], what, into)
    else [s[0]] + Replace(s[1..], what, into)
  }

  function LitsOf(s: string): (r: seq<Piece>)
    ensures |r| == |s| && forall i :: 0 <= i < |r| ==> r[i] == Lit(s[i])
  {
    seq(|s|, i requires 0 <= i < |s| => Lit(s[i]))
  }

  /** Every hole named key becomes the text value. */
  function Fill(ps: seq<Piece>, key: string, value: string): seq<Piece> {
    if ps == [] then []
    else (if ps[0] == Hole(key) then LitsOf(value) else [ps[0]]) + Fill(ps[1..], key, value)
  }

  /** All holes at once. */
  function Filled(ps: seq<Piece>, args: map<string, string>): string {
    if ps == [] then ""
    else ShowWith(ps[0], args) + Filled(ps[1..], args)
  }

  lemma RenderCons(p: Piece, ps: seq<Piece>)
    ensures Render([p] + ps) == Show(p) + Render(ps)
  {
    assert ([p] + ps)[1..] == ps;
  }

  function HeadOf(s: string): Piece
    requires s != []
  {
    if Placeholder(s).Some? then Hole(Placeholder(s).value) else Lit(s[0])
  }

  lemma FirstPiece(s: string)
    requires s != []
    ensures |Show(HeadOf(s))| <= |s| && s == Show(HeadOf(s)) + s[|Show(HeadOf(s))|..]
    ensures PiecesOf(s) == [HeadOf(s)] + PiecesOf(s[|Show(HeadOf(s))|..])
  {
  }

  lemma {:induction false} RenderPieces(s: string)
    ensures Render(PiecesOf(s)) == s
    decreases |s|
  {
    if s != [] {
      var head := HeadOf(s);
      FirstPiece(s);
      var rest := s[|Show(head)|..];
      RenderPieces(rest);
      RenderCons(head, PiecesOf(rest));
    }
  }

  lemma Associative(a: string, b: string, c: string)
    ensures (a + b) + c == a + (b + c)
  {
  }

  lemma {:induction false} RenderAppend(a: seq<Piece>, b: seq<Piece>)
    ensures Render(a + b) == Render(a) + Render(b)
  {
    if a == [] {
      assert a + b == b;
    } else {
      var tail := a[1..];
      assert a + b == [a[0]] + (tail + b) && a == [a[0]] + tail;
      calc {
        Render(a + b);
        { RenderCons(a[0], tail + b); }
        Show(a[0]) + Render(tail + b);
        { RenderAppend(tail, b); }
        Show(a[0]) + (Render(tail) + Render(b));
        { Associative(Show(a[0]), Render(tail), Render(b)); }
        (Show(a[0]) + Render(tail)) + Render(b);
        { RenderCons(a[0], tail); }
        Render(a) + Render(b);
      }
    }
  }

  lemma {:induction false} RenderLits(s: string)
    ensures Render(LitsOf(s)) == s
  {
    if s != [] {
      RenderLits(s[1..]);
      assert LitsOf(s)[1..] == LitsOf(s[1..]);
    }
  }

  lemma {:induction false} ReplaceSkips(lead: string, rest: string, what: string, into: string)
    requires what != [] && what[0] == '{' && forall i :: 0 <= i < |lead| ==> lead[i] != '{'
    ensures Replace(lead + rest, what, into) == lead + Replace(rest, what, into)
  {
    if lead == [] {
      assert lead + rest == rest;
    } else {
      ReplaceSkips(lead[1..], rest, what, into);
      assert (lead + rest)[1..] == lead[1..] + rest;
    }
  }

  /** A placeholder is only mistaken for another when the keys agree. */
  lemma OtherPlaceholder(key: string, other: string, rest: string)
    requires Braceless(key) && Braceless(other) && key != other
    ensures !StartsWith("{" + other + "}" + rest, "{" + key + "}")
  {
    var s, what := "{" + other + "}" + rest, "{" + key + "}";
    if StartsWith(s, what) {
      SameBraced(key, other, rest);
    }
  }

  lemma SameBraced(key: string, other: string, rest: string)
    requires Braceless(key) && Braceless(other)
    requires StartsWith("{" + other + "}" + rest, "{" + key + "}")
    ensures key == other
  {
    var s, what := "{" + other + "}" + rest, "{" + key + "}";
    assert forall i :: 0 <= i < |what| ==> s[i] == what[i];
    assert forall i :: 0 <= i < |other| ==> s[i + 1] == other[i];
    assert forall i :: 0 <= i < |key| ==> what[i + 1] == key[i];
    assert what[|key| + 1] == '}' && s[|other| + 1] == '}';
    assert |key| == |other|;
    forall i | 0 <= i < |key| ensures key[i] == other[i] {
      assert what[i + 1] == s[i + 1];
    }
  }

  lemma {:induction false} ReplaceFills(ps: seq<Piece>, key: string, value: string)
    requires Plain(ps) && Braceless(key)
    ensures Replace(Render(ps), "{" + key + "}", value) == Render(Fill(ps, key, value))
  {
    var what := "{" + key + "}";
    if ps != [] {
      ReplaceFills(ps[1..], key, value);
      var rest := Render(ps[1..]);
      if ps[0] == Hole(key) {
        assert Render(ps) == what + rest;
        assert (what + rest)[|what|..] == rest && StartsWith(what + rest, what);
        RenderLits(value);
        RenderAppend(LitsOf(value), Fill(ps[1..], key, value));
      } else {
        assert PlainPiece(ps[0]);
        ReplaceFirst(ps[0], rest, key, value);
        assert Fill(ps, key, value) == [ps[0]] + Fill(ps[1..], key, value);
      }
    }
  }

  lemma ReplaceFirst(p: Piece, rest: string, key: string, value: string)
    requires PlainPiece(p) && Braceless(key) && p != Hole(key)
    ensures Replace(Show(p) + rest, "{" + key + "}", value) == Show(p) + Replace(rest, "{" + key + "}", value)
  {
    match p
    case Lit(c) =>
      ReplaceSkips([c], rest, "{" + key + "}", value);
    case Hole(other) =>
      ReplaceOther(other, rest, key, value);
  }

  lemma ReplaceOther(other: string, rest: string, key: string, value: string)
    requires Braceless(other) && Braceless(key) && other != key
    ensures Replace("{" + other + "}" + rest, "{" + key + "}", value) ==
      "{" + other + "}" + Replace(rest, "{" + key + "}", value)
  {
    var what, lead := "{" + key + "}", other + "}";
    var s := "{" + other + "}" + rest;
    OtherPlaceholder(key, other, rest);
    assert s[0] == '{' && s[1..] == lead + rest;
    ReplaceSkips(lead, rest, what, value);
    assert Replace(s, what, value) == ['{'] + (lead + Replace(rest, what, value));
  }

  lemma {:induction false} FillIsPlain(ps: seq<Piece>, key: string, value: string)
    requires Plain(ps) && Braceless(value)
    ensures Plain(Fill(ps, key, value))
  {
    if ps != [] {
      FillIsPlain(ps[1..], key, value);
    }
  }

  lemma {:induction false} FillThenFilled(ps: seq<Piece>, key: string, args: map<string, string>)
    requires key in args
    ensures Filled(Fill(ps, key, args[key]), args) == Filled(ps, args)
  {
    if ps != [] {
      FillThenFilled(ps[1..], key, args);
      if ps[0] == Hole(key) {
        LitsFilled(args[key], Fill(ps[1..], key, args[key]), args);
      } else {
        assert Fill(ps, key, args[key])[1..] == Fill(ps[1..], key, args[key]);
      }
    }
  }

  function ShowWith(p: Piece, args: map<string, string>): string {
    if p.Hole? && p.key in args then args[p.key] else Show(p)
  }

  lemma FilledCons(p: Piece, ps: seq<Piece>, args: map<string, string>)
    ensures Filled([p] + ps, args) == ShowWith(p, args) + Filled(ps, args)
  {
    assert ([p] + ps)[1..] == ps;
  }

  lemma {:induction false} LitsFilled(s: string, ps: seq<Piece>, args: map<string, string>)
    ensures Filled(LitsOf(s) + ps, args) == s + Filled(ps, args)
  {
    if s == [] {
      assert LitsOf(s) + ps == ps;
    } else {
      var tail := LitsOf(s[1..]) + ps;
      assert LitsOf(s) + ps == [Lit(s[0])] + tail && s == [s[0]] + s[1..];
      calc {
        Filled(LitsOf(s) + ps, args);
        { FilledCons(Lit(s[0]), tail, args); }
        [s[0]] + Filled(tail, args);
        { LitsFilled(s[1..], ps, args); }
        [s[0]] + (s[1..] + Filled(ps, args));
        { Associative([s[0]], s[1..], Filled(ps, args)); }
        ([s[0]] + s[1..]) + Filled(ps, args);
      }
    }
  }

  lemma {:induction false} FillKeys(ps: seq<Piece>, key: string, value: string)
    ensures KeysIn(Fill(ps, key, value)) == KeysIn(ps) - {key}
  {
    if ps != [] {
      FillKeys(ps[1..], key, value);
      var head := if ps[0] == Hole(key) then LitsOf(value) else [ps[0]];
      assert Fill(ps, key, value) == head + Fill(ps[1..], key, value);
      assert KeysIn(Fill(ps, key, value)) == KeysIn(head) + KeysIn(Fill(ps[1..], key, value));
      assert ps == [ps[0]] + ps[1..];
      assert KeysIn(ps) == KeysIn([ps[0]]) + KeysIn(ps[1..]);
    }
  }

  lemma FirstHole(ps: seq<Piece>)
    requires ps != []
    ensures ps[0].Hole? ==> ps[0].key in KeysIn(ps)
  {
  }

  lemma {:induction false} NothingToFill(ps: seq<Piece>, args: map<string, string>)
    requires KeysIn(ps) == {}
    ensures Filled(ps, args) == Render(ps)
  {
    if ps != [] {
      FirstHole(ps);
      assert forall p :: p in ps[1..] ==> p in ps;
      assert KeysIn(ps[1..]) <= KeysIn(ps);
      NothingToFill(ps[1..], args);
    }
  }

  // ----- the pieces of a legal name ----------------------------------------------------------

  predicate AfterHole(ps: seq<Piece>) {
    ps == [] || ps == [Lit('\n')] || ps[0] == Lit('.') || ps[0] == Lit('@')
  }

  /** A hole ends at a dot, at the version or at the end, and the version has no hole. */
  ghost predicate Separable(ps: seq<Piece>) {
    ps == [] || (Separable(ps[1..]) && (ps[0].Hole? ==> AfterHole(ps[1..])) && (ps[0] == Lit('@') ==> KeysIn(ps) == {}))
  }

  lemma {:induction false} LitsPieces(lead: string, rest: string)
    requires forall i :: 0 <= i < |lead| ==> lead[i] != '{'
    ensures PiecesOf(lead + rest) == LitsOf(lead) + PiecesOf(rest)
  {
    if lead == [] {
      assert lead + rest == rest;
    } else {
      LitsPieces(lead[1..], rest);
      assert (lead + rest)[1..] == lead[1..] + rest;
      assert LitsOf(lead) == [Lit(lead[0])] + LitsOf(lead[1..]);
    }
  }

  lemma {:induction false} LitsSeparable(lead: string, ps: seq<Piece>)
    requires Plain(ps) && Separable(ps)
    requires forall i :: 0 <= i < |lead| ==> lead[i] != '{' && lead[i] != '}' && lead[i] != '@'
    ensures Plain(LitsOf(lead) + ps) && Separable(LitsOf(lead) + ps)
  {
    if lead == [] {
      assert LitsOf(lead) + ps == ps;
    } else {
      LitsSeparable(lead[1..], ps);
      assert (LitsOf(lead) + ps)[1..] == LitsOf(lead[1..]) + ps;
    }
  }

  lemma {:induction false} LitsAlone(s: string)
    requires forall i :: 0 <= i < |s| ==> s[i] != '{' && s[i] != '}'
    ensures PiecesOf(s) == LitsOf(s) && Plain(LitsOf(s)) && Separable(LitsOf(s)) && KeysIn(LitsOf(s)) == {}
  {
    LitsPieces(s, "");
    assert s + "" == s && LitsOf(s) + [] == LitsOf(s);
    if s != [] {
      LitsAlone(s[1..]);
      assert LitsOf(s)[1..] == LitsOf(s[1..]);
    }
  }

  lemma LeadChars(s: string)
    ensures forall c :: c in s[..Run(s)] ==> IsKeyChar(c)
    ensures forall i :: 0 <= i < Run(s) ==> s[..Run(s)][i] != '{' && s[..Run(s)][i] != '}' && s[..Run(s)][i] != '@'
  {
    RunChars(s);
  }

  lemma SegmentPieces(s: string)
    requires Segment(s).Some?
    requires var ps := PiecesOf(s[Segment(s).value..]); Plain(ps) && Separable(ps) && AfterHole(ps)
    ensures Plain(PiecesOf(s)) && Separable(PiecesOf(s))
  {
    var n := Segment(s).value;
    var ps := PiecesOf(s[n..]);
    assert s == s[..n] + s[n..];
    if Run(s) > 0 {
      LeadChars(s);
      LitsPieces(s[..n], s[n..]);
      LitsSeparable(s[..n], ps);
    } else {
      var key := Placeholder(s).value;
      RunChars(s[1..]);
      assert PiecesOf(s) == [Hole(key)] + ps;
      assert PiecesOf(s)[1..] == ps;
    }
  }

  lemma VersionChars(s: string)
    requires IsVersion(s)
    ensures s[0] == '@' && forall i :: 0 <= i < |s| ==> s[i] != '{' && s[i] != '}'
  {
    var core := BeforeDollar(s);
    forall i | 0 <= i < |s| ensures s[i] != '{' && s[i] != '}' {
      if i < |core| { assert s[i] == core[i]; }
    }
  }

  lemma {:induction false} TailPieces(s: string)
    requires IsTail(s)
    ensures Plain(PiecesOf(s)) && Separable(PiecesOf(s)) && AfterHole(PiecesOf(s))
    decreases |s|
  {
    if s == [] {
    } else if s == "\n" || IsVersion(s) {
      if IsVersion(s) { VersionChars(s); }
      LitsAlone(s);
      assert s == "\n" ==> LitsOf(s) == [Lit('\n')];
    } else {
      TailPieces(s[1 + Segment(s[1..]).value..]);
      assert s[1..][Segment(s[1..]).value..] == s[1 + Segment(s[1..]).value..];
      SegmentPieces(s[1..]);
      assert PiecesOf(s) == [Lit('.')] + PiecesOf(s[1..]);
      assert PiecesOf(s)[1..] == PiecesOf(s[1..]);
    }
  }

  lemma NamePieces(name: string)
    requires IsName(name)
    ensures Plain(PiecesOf(name)) && Separable(PiecesOf(name)) && Render(PiecesOf(name)) == name
    ensures forall key :: key in Required(name) ==> KeyText(key)
  {
    TailPieces(name[Segment(name).value..]);
    SegmentPieces(name);
    RenderPieces(name);
    var ps := PiecesOf(name);
    forall key | key in Required(name) ensures KeyText(key) {
      var i :| 0 <= i < |ps| && ps[i] == Hole(key);
      assert PlainPiece(ps[i]);
    }
  }

  // ----- resolution ---------------------------------------------------------------------------

  /** One placeholder after another, in the order of keys; Err names the first key whose value is no entity id. */
  function ResolveWith(text: string, keys: seq<string>, args: map<string, string>): Result<string, string>
    requires forall k :: k in keys ==> k in args
    decreases |keys|
  {
    if keys == [] then Ok(text)
    else if !IsEntityId(args[keys[0]]) then Err(keys[0])
    else ResolveWith(Replace(text, "{" + keys[0] + "}", args[keys[0]]), keys[1..], args)
  }

  lemma EntityIdChars(s: string)
    requires IsEntityId(s)
    ensures Braceless(s) && '.' !in s && '@' !in s
  {
    forall i | 0 <= i < |s| ensures s[i] != '{' && s[i] != '}' && s[i] != '.' && s[i] != '@' {
      if i < |BeforeDollar(s)| { assert IsSlugChar(BeforeDollar(s)[i]); }
    }
  }

  /** Filling one hole keeps everything that filling the others needs. */
  lemma FillStep(ps: seq<Piece>, key: string, args: map<string, string>)
    requires Plain(ps) && key in args && IsEntityId(args[key]) && KeyText(key)
    ensures Plain(Fill(ps, key, args[key]))
    ensures KeysIn(Fill(ps, key, args[key])) == KeysIn(ps) - {key}
    ensures Filled(Fill(ps, key, args[key]), args) == Filled(ps, args)
    ensures Replace(Render(ps), "{" + key + "}", args[key]) == Render(Fill(ps, key, args[key]))
  {
    EntityIdChars(args[key]);
    ReplaceFills(ps, key, args[key]);
    FillIsPlain(ps, key, args[key]);
    FillKeys(ps, key, args[key]);
    FillThenFilled(ps, key, args);
  }

  /** Whatever order the placeholders are filled in, the result is that of filling all of them at once. */
  lemma {:induction false} ResolveIsSimultaneous(ps: seq<Piece>, keys: seq<string>, args: map<string, string>)
    requires Plain(ps) && forall k :: k in KeysIn(ps) ==> k in keys
    requires forall k :: k in keys ==> k in args && IsEntityId(args[k]) && KeyText(k)
    ensures ResolveWith(Render(ps), keys, args) == Ok(Filled(ps, args))
    decreases |keys|
  {
    if keys == [] {
      NothingToFill(ps, args);
    } else {
      var key := keys[0];
      var next := Fill(ps, key, args[key]);
      FillStep(ps, key, args);
      ResolveIsSimultaneous(next, keys[1..], args);
    }
  }

  ghost predicate Arguments(name: string, args: map<string, string>) {
    args.Keys == Required(name) && forall k :: k in args ==> IsEntityId(args[k])
  }

  function Address(name: string, args: map<string, string>): Result<string, string>
    requires Required(name) <= args.Keys
  {
    SortedSetCorrect(Required(name));
    ResolveWith(name, SortedSet(Required(name)), args)
  }

  lemma AddressIsFilled(name: string, args: map<string, string>)
    requires IsName(name) && Arguments(name, args)
    ensures Address(name, args) == Ok(Filled(PiecesOf(name), args))
  {
    NamePieces(name);
    SortedSetCorrect(Required(name));
    ResolveIsSimultaneous(PiecesOf(name), SortedSet(Required(name)), args);
  }

  lemma NotLonger(va: string, ra: string, vb: string, rb: string, c: char)
    requires va + ra == vb + rb && c !in vb && ra != [] && ra[0] == c
    ensures |vb| <= |va|
  {
    assert (va + ra)[|va|] == c;
    assert forall i :: 0 <= i < |vb| ==> (vb + rb)[i] == vb[i];
  }

  lemma SplitsOnce(va: string, ra: string, vb: string, rb: string, c: char)
    requires va + ra == vb + rb && c !in va && c !in vb
    requires ra != [] && rb != [] && ra[0] == c && rb[0] == c
    ensures va == vb && ra == rb
  {
    NotLonger(va, ra, vb, rb, c);
    NotLonger(vb, rb, va, ra, c);
    assert va == (va + ra)[..|va|] && vb == (vb + rb)[..|vb|];
    assert ra == (va + ra)[|va|..] && rb == (vb + rb)[|vb|..];
  }

  lemma SameEnding(va: string, vb: string, rest: string)
    requires va + rest == vb + rest
    ensures va == vb
  {
    assert va == (va + rest)[..|va|] && vb == (vb + rest)[..|vb|];
  }

  ghost predicate Clean(ps: seq<Piece>, args: map<string, string>) {
    forall k :: k in KeysIn(ps) ==> k in args && '.' !in args[k] && '@' !in args[k]
  }

  lemma CleanTail(ps: seq<Piece>, args: map<string, string>)
    requires ps != [] && Clean(ps, args)
    ensures Clean(ps[1..], args) && KeysIn(ps[1..]) <= KeysIn(ps)
    ensures KeysIn(ps) == KeysIn(ps[1..]) + if ps[0].Hole? then {ps[0].key} else {}
  {
    assert ps == [ps[0]] + ps[1..];
  }

  lemma {:induction false} FilledInjective(ps: seq<Piece>, a: map<string, string>, b: map<string, string>)
    requires Separable(ps) && Clean(ps, a) && Clean(ps, b)
    requires Filled(ps, a) == Filled(ps, b)
    ensures forall k :: k in KeysIn(ps) ==> a[k] == b[k]
  {
    if ps != [] {
      CleanTail(ps, a);
      CleanTail(ps, b);
      var va, vb, ra, rb := ShowWith(ps[0], a), ShowWith(ps[0], b), Filled(ps[1..], a), Filled(ps[1..], b);
      assert va == vb && ra == rb by {
        HeadsAgree(ps, a, b);
      }
      FilledInjective(ps[1..], a, b);
    }
  }

  lemma HeadsAgree(ps: seq<Piece>, a: map<string, string>, b: map<string, string>)
    requires ps != [] && Separable(ps) && Clean(ps, a) && Clean(ps, b)
    requires Filled(ps, a) == Filled(ps, b)
    ensures ShowWith(ps[0], a) == ShowWith(ps[0], b) && Filled(ps[1..], a) == Filled(ps[1..], b)
  {
    var va, vb, ra, rb, tail := ShowWith(ps[0], a), ShowWith(ps[0], b), Filled(ps[1..], a), Filled(ps[1..], b), ps[1..];
    assert va + ra == vb + rb;
    if ps[0].Lit? {
      assert va == vb;
      assert ra == (va + ra)[|va|..] && rb == (vb + rb)[|vb|..];
    } else {
      assert ps[0].key in KeysIn(ps);
      if tail == [] || tail == [Lit('\n')] {
        assert ra == rb;
        SameEnding(va, vb, ra);
      } else {
        assert ra[0] == rb[0] == tail[0].c;
        SplitsOnce(va, ra, vb, rb, tail[0].c);
      }
    }
  }

  /** Different arguments address different streams, and the same ones the same stream. */
  lemma AddressesAreInjective(name: string, a: map<string, string>, b: map<string, string>)
    requires IsName(name) && Arguments(name, a) && Arguments(name, b)
    ensures Address(name, a) == Address(name, b) <==> a == b
  {
    AddressIsFilled(name, a);
    AddressIsFilled(name, b);
    NamePieces(name);
    forall k | k in Required(name) ensures '.' !in a[k] && '@' !in a[k] && '.' !in b[k] && '@' !in b[k] {
      EntityIdChars(a[k]);
      EntityIdChars(b[k]);
    }
    if Filled(PiecesOf(name), a) == Filled(PiecesOf(name), b) {
      FilledInjective(PiecesOf(name), a, b);
    }
  }

  // ----- the shape of an address ----------------------------------------------------------------

  function Dots(s: string): nat {
    if s == [] then 0 else (if s[0] == '.' then 1 else 0) + Dots(s[1..])
  }

  /** The version suffix and whatever follows it. */
  function FromAt(s: string): string {
    if s == [] || s[0] == '@' then s else FromAt(s[1..])
  }

  lemma {:induction false} DotsAppend(a: string, b: string)
    ensures Dots(a + b) == Dots(a) + Dots(b)
    ensures '.' !in a ==> Dots(a) == 0
    ensures '@' !in a ==> FromAt(a + b) == FromAt(b)
  {
    if a == [] {
      assert a + b == b;
    } else {
      assert (a + b)[1..] == a[1..] + b;
      DotsAppend(a[1..], b);
    }
  }

  lemma {:induction false} ShapeKept(ps: seq<Piece>, args: map<string, string>)
    requires Plain(ps) && Separable(ps) && Clean(ps, args)
    ensures Dots(Filled(ps, args)) == Dots(Render(ps))
    ensures FromAt(Filled(ps, args)) == FromAt(Render(ps))
  {
    if ps != [] {
      CleanTail(ps, args);
      ShapeKept(ps[1..], args);
      assert PlainPiece(ps[0]);
      DotsAppend(ShowWith(ps[0], args), Filled(ps[1..], args));
      DotsAppend(Show(ps[0]), Render(ps[1..]));
      if ps[0] == Lit('@') {
        NothingToFill(ps, args);
      } else if ps[0].Hole? {
        HoleText(ps[0].key);
      }
    }
  }

  lemma HoleText(key: string)
    requires KeyText(key)
    ensures '.' !in "{" + key + "}" && '@' !in "{" + key + "}"
  {
  }

  /** An address has as many segments as its name, and the same version. */
  lemma AddressKeepsShape(name: string, args: map<string, string>)
    requires IsName(name) && Arguments(name, args)
    ensures Address(name, args).Ok?
    ensures Dots(Address(name, args).value) == Dots(name)
    ensures FromAt(Address(name, args).value) == FromAt(name)
  {
    AddressIsFilled(name, args);
    NamePieces(name);
    forall k | k in Required(name) ensures '.' !in args[k] && '@' !in args[k] {
      EntityIdChars(args[k]);
    }
    ShapeKept(PiecesOf(name), args);
  }

  lemma {:induction false} RunOf(key: string, rest: string)
    requires KeyText(key) && Run(rest) == 0
    ensures Run(key + rest) == |key|
  {
    if key == [] {
      assert key + rest == rest;
    } else {
      RunOf(key[1..], rest);
      assert (key + rest)[1..] == key[1..] + rest;
    }
  }

  lemma HolePieces()
    ensures Segment("{id}") == Some(4) && PiecesOf("{id}") == [Hole("id")]
  {
    assert Run("id}") == 2 by { assert "id}"[1..] == "d}" && "d}"[1..] == "}"; }
    assert "{id}"[1..] == "id}" && "{id}"[1..3] == "id" && "{id}"[3] == '}';
    assert Placeholder("{id}") == Some("id") && "{id}"[4..] == "";
  }

  lemma TemplateIsName() returns (template: string, lead: string)
    ensures lead == "amr." && template == lead + "{id}"
    ensures IsName(template) && PiecesOf(template) == LitsOf(lead) + [Hole("id")]
  {
    lead, template := "amr.", "amr.{id}";
    assert template == lead + "{id}";
    TemplatePieces();
    TemplateIsLegal();
  }

  lemma TemplatePieces()
    ensures PiecesOf("amr." + "{id}") == LitsOf("amr.") + [Hole("id")]
  {
    HolePieces();
    LitsPieces("amr.", "{id}");
  }

  lemma TemplateIsLegal()
    ensures IsName("amr.{id}")
  {
    HolePieces();
    var template := "amr.{id}";
    RunOf("amr", ".{id}");
    assert template == "amr" + ".{id}" && template[3..] == ".{id}";
    assert ".{id}"[1..] == "{id}" && ".{id}"[5..] == "";
  }

  lemma PlainIsName() returns (plain: string)
    ensures plain == "amr." + "x" && IsName(plain) && Required(plain) == {}
  {
    plain := "amr.x";
    RunOf("amr", ".x");
    assert plain == "amr" + ".x" && plain[3..] == ".x";
    assert ".x"[1..] == "x" && ".x"[2..] == "" && "x"[1..] == "" && Run("x") == 1;
    LitsAlone(plain);
  }

  /** A template and a plain name address one stream exactly when filling the template writes the plain name. */
  lemma SharedAddress(template: string, plain: string, args: map<string, string>)
    requires IsName(template) && IsName(plain) && Arguments(template, args) && Arguments(plain, map[])
    ensures Address(template, args) == Address(plain, map[]) <==> Filled(PiecesOf(template), args) == plain
  {
    AddressIsFilled(template, args);
    AddressIsFilled(plain, map[]);
    NothingToFill(PiecesOf(plain), map[]);
    NamePieces(plain);
  }

  lemma OneHole(template: string, lead: string, key: string, value: string)
    requires IsName(template) && PiecesOf(template) == LitsOf(lead) + [Hole(key)] && IsEntityId(value)
    requires IsName(lead + value) && Required(lead + value) == {}
    ensures Arguments(template, map[key := value]) && Arguments(lead + value, map[])
    ensures Address(template, map[key := value]) == Address(lead + value, map[])
  {
    HoleKeys(lead, Hole(key));
    HoleFilled(lead, Hole(key), map[key := value]);
    SharedAddress(template, lead + value, map[key := value]);
  }

  /** Injectivity does not reach across names: this template and this plain name share an address. */
  lemma TwoNamesCanShareAnAddress() returns (template: string, plain: string, args: map<string, string>)
    ensures IsName(template) && IsName(plain) && Arguments(template, args) && Arguments(plain, map[])
      && template != plain
    ensures Address(template, args) == Address(plain, map[])
  {
    var lead: string;
    template, lead := TemplateIsName();
    plain := PlainIsName();
    args := map["id" := "x"];
    OneHole(template, lead, "id", "x");
  }

  lemma HoleFilled(lead: string, hole: Piece, args: map<string, string>)
    requires hole.Hole? && hole.key in args
    ensures Filled(LitsOf(lead) + [hole], args) == lead + args[hole.key]
  {
    LitsFilled(lead, [hole], args);
    FilledCons(hole, [], args);
    assert [hole] == [hole] + [] && args[hole.key] + "" == args[hole.key];
  }

  lemma HoleKeys(lead: string, hole: Piece)
    requires hole.Hole?
    ensures KeysIn(LitsOf(lead) + [hole]) == {hole.key}
  {
    var ps := LitsOf(lead) + [hole];
    assert ps[|lead|] == hole;
    forall p | p in ps && p.Hole? ensures p == hole {
      assert p in LitsOf(lead) || p in [hole];
    }
  }
}
