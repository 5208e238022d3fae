/** When two stream names can resolve to one address: a condition on the names alone. */
module NameOverlap {
  import opened Options
  import opened Text
  import opened StreamNames
  import opened Equations

  // ----- names as segments --------------------------------------------------------------------

  datatype Seg = Word(text: string) | Blank(key: string)

  /** A name is its segments, and the version and last newline after them. */
  datatype Form = Form(segs: seq<Seg>, ending: string)

  function SegOf(s: string): Seg
    requires Segment(s).Some?
  {
    if Run(s) > 0 then Word(s[..Run(s)]) else Blank(Placeholder(s).value)
  }

  predicate IsEnding(s: string) {
    s == "" || s == "\n" || IsVersion(s)
  }

  function TailForm(s: string): (f: Form)
    requires IsTail(s)
    decreases |s|
  {
    if IsEnding(s) then Form([], s)
    else
      var rest := TailForm(s[1 + Segment(s[1..]).value..]);
      Form([SegOf(s[1..])] + rest.segs, rest.ending)
  }

  function FormOf(name: string): (f: Form)
    requires IsName(name)
    ensures f.segs != []
  {
    var rest := TailForm(name[Segment(name).value..]);
    Form([SegOf(name)] + rest.segs, rest.ending)
  }

  function SegText(seg: Seg, args: map<string, string>): string {
    match seg
    case Word(text) => text
    case Blank(key) => if key in args then args[key] else "{" + key + "}"
  }

  function TailText(segs: seq<Seg>, ending: string, args: map<string, string>): string {
    if segs == [] then ending else "." + (SegText(segs[0], args) + TailText(segs[1..], ending, args))
  }

  function FormText(f: Form, args: map<string, string>): string
    requires f.segs != []
  {
    SegText(f.segs[0], args) + TailText(f.segs[1..], f.ending, args)
  }

  function KeysOf(segs: seq<Seg>): set<string> {
    set seg | seg in segs && seg.Blank? :: seg.key
  }

  lemma SegmentFills(s: string, args: map<string, string>)
    requires Segment(s).Some?
    ensures Filled(PiecesOf(s), args) == SegText(SegOf(s), args) + Filled(PiecesOf(s[Segment(s).value..]), args)
    ensures KeysIn(PiecesOf(s)) == KeysOf([SegOf(s)]) + KeysIn(PiecesOf(s[Segment(s).value..]))
  {
    var n := Segment(s).value;
    var rest := PiecesOf(s[n..]);
    assert s == s[..n] + s[n..];
    if Run(s) > 0 {
      LeadChars(s);
      LitsPieces(s[..n], s[n..]);
      LitsFilled(s[..n], rest, args);
      KeysAppend(LitsOf(s[..n]), rest);
      assert KeysIn(LitsOf(s[..n])) == {};
      assert KeysOf([SegOf(s)]) == {};
    } else {
      var hole := Hole(Placeholder(s).value);
      assert PiecesOf(s) == [hole] + rest;
      FilledCons(hole, rest, args);
      KeysAppend([hole], rest);
      OneKey(hole);
    }
  }

  lemma OneKey(hole: Piece)
    requires hole.Hole?
    ensures KeysIn([hole]) == {hole.key} == KeysOf([Blank(hole.key)])
  {
    assert hole in [hole] && Blank(hole.key) in [Blank(hole.key)];
  }

  lemma KeysAppend(a: seq<Piece>, b: seq<Piece>)
    ensures KeysIn(a + b) == KeysIn(a) + KeysIn(b)
  {
  }

  lemma EndingFills(s: string, args: map<string, string>)
    requires IsEnding(s)
    ensures Filled(PiecesOf(s), args) == s && KeysIn(PiecesOf(s)) == {}
  {
    if IsVersion(s) { VersionChars(s); }
    LitsAlone(s);
    NothingToFill(PiecesOf(s), args);
    RenderPieces(s);
  }

  lemma AfterDot(s: string, args: map<string, string>)
    requires IsTail(s) && !IsEnding(s)
    ensures Filled(PiecesOf(s), args) == "." + Filled(PiecesOf(s[1..]), args)
    ensures KeysIn(PiecesOf(s)) == KeysIn(PiecesOf(s[1..]))
  {
    var inner := PiecesOf(s[1..]);
    assert PiecesOf(s) == [Lit('.')] + inner;
    FilledCons(Lit('.'), inner, args);
    KeysAppend([Lit('.')], inner);
    assert KeysIn([Lit('.')]) == {};
  }

  lemma {:induction false} TailFills(s: string, args: map<string, string>)
    requires IsTail(s)
    ensures Filled(PiecesOf(s), args) == TailText(TailForm(s).segs, TailForm(s).ending, args)
    ensures KeysIn(PiecesOf(s)) == KeysOf(TailForm(s).segs) && IsEnding(TailForm(s).ending)
    decreases |s|
  {
    if IsEnding(s) {
      EndingFills(s, args);
    } else {
      var n := Segment(s[1..]).value;
      assert s[1..][n..] == s[1 + n..];
      TailFills(s[1 + n..], args);
      AfterDot(s, args);
      SegmentFills(s[1..], args);
      SegKeys(SegOf(s[1..]), TailForm(s[1 + n..]).segs);
    }
  }

  lemma SegKeys(seg: Seg, segs: seq<Seg>)
    ensures KeysOf([seg] + segs) == KeysOf([seg]) + KeysOf(segs)
  {
  }

  /** The segments say what the pieces say. */
  lemma FormFills(name: string, args: map<string, string>)
    requires IsName(name)
    ensures Filled(PiecesOf(name), args) == FormText(FormOf(name), args)
    ensures Required(name) == KeysOf(FormOf(name).segs) && IsEnding(FormOf(name).ending)
  {
    var rest := name[Segment(name).value..];
    TailFills(rest, args);
    SegmentFills(name, args);
    SegKeys(SegOf(name), TailForm(rest).segs);
  }

  // ----- words --------------------------------------------------------------------------------

  ghost predicate WordsAreKeys(segs: seq<Seg>) {
    forall seg :: seg in segs && seg.Word? ==> seg.text != "" && KeyText(seg.text)
  }

  lemma SegIsKey(s: string)
    requires Segment(s).Some?
    ensures SegOf(s).Word? ==> SegOf(s).text != "" && KeyText(SegOf(s).text)
  {
    RunChars(s);
  }

  lemma {:induction false} TailWords(s: string)
    requires IsTail(s)
    ensures WordsAreKeys(TailForm(s).segs)
    decreases |s|
  {
    if !IsEnding(s) {
      TailWords(s[1 + Segment(s[1..]).value..]);
      SegIsKey(s[1..]);
    }
  }

  lemma FormWords(name: string)
    requires IsName(name)
    ensures WordsAreKeys(FormOf(name).segs)
  {
    TailWords(name[Segment(name).value..]);
    SegIsKey(name);
  }

  // ----- when two filled names are equal --------------------------------------------------------

  ghost predicate Clear(segs: seq<Seg>, args: map<string, string>) {
    forall i :: 0 <= i < |segs| ==> '.' !in SegText(segs[i], args) && '@' !in SegText(segs[i], args)
  }

  ghost predicate LineUp(sa: seq<Seg>, ea: string, a: map<string, string>, sb: seq<Seg>, eb: string,
        b: map<string, string>)
    requires sa != [] && sb != []
  {
    && |sa| == |sb|
    && (forall i :: 0 <= i < |sa| - 1 ==> SegText(sa[i], a) == SegText(sb[i], b))
    && SegText(sa[|sa| - 1], a) + ea == SegText(sb[|sb| - 1], b) + eb
  }

  function Whole(segs: seq<Seg>, ending: string, args: map<string, string>): string
    requires segs != []
  {
    SegText(segs[0], args) + TailText(segs[1..], ending, args)
  }

  lemma EndingChars(s: string)
    requires IsEnding(s)
    ensures '.' !in s && (s == "" || s == "\n" || s[0] == '@')
  {
    if IsVersion(s) {
      var core := BeforeDollar(s);
      forall i | 0 <= i < |s| ensures s[i] != '.' {
        if i < |core| { assert s[i] == core[i]; }
      }
    }
  }

  lemma OneAgainstMany(va: string, ea: string, vb: string, rest: string)
    requires '.' !in va && '.' !in ea
    ensures va + ea != vb + ("." + rest)
  {
    assert (vb + ("." + rest))[|vb|] == '.';
    assert forall i :: 0 <= i < |va + ea| ==> (va + ea)[i] != '.';
  }

  lemma TailStarts(segs: seq<Seg>, ending: string, args: map<string, string>)
    requires segs != []
    ensures TailText(segs, ending, args) == "." + Whole(segs, ending, args)
  {
  }

  lemma {:induction false} WholesEqualIff(sa: seq<Seg>, ea: string, a: map<string, string>, sb: seq<Seg>, eb: string,
        b: map<string, string>)
    requires sa != [] && sb != [] && Clear(sa, a) && Clear(sb, b) && IsEnding(ea) && IsEnding(eb)
    ensures Whole(sa, ea, a) == Whole(sb, eb, b) <==> LineUp(sa, ea, a, sb, eb, b)
    decreases |sa|
  {
    EndingChars(ea);
    EndingChars(eb);
    var va, vb := SegText(sa[0], a), SegText(sb[0], b);
    if |sa| == 1 && |sb| == 1 {
    } else if |sa| == 1 {
      TailStarts(sb[1..], eb, b);
      OneAgainstMany(va, ea, vb, Whole(sb[1..], eb, b));
    } else if |sb| == 1 {
      TailStarts(sa[1..], ea, a);
      OneAgainstMany(vb, eb, va, Whole(sa[1..], ea, a));
    } else {
      TailStarts(sa[1..], ea, a);
      TailStarts(sb[1..], eb, b);
      WholesEqualIff(sa[1..], ea, a, sb[1..], eb, b);
      HeadThenRest(va, Whole(sa[1..], ea, a), vb, Whole(sb[1..], eb, b));
      LineUpTail(sa, ea, a, sb, eb, b);
    }
  }

  lemma HeadThenRest(va: string, ra: string, vb: string, rb: string)
    requires '.' !in va && '.' !in vb
    ensures va + ("." + ra) == vb + ("." + rb) <==> va == vb && ra == rb
  {
    if va + ("." + ra) == vb + ("." + rb) {
      SplitsOnce(va, "." + ra, vb, "." + rb, '.');
      assert ("." + ra)[1..] == ra && ("." + rb)[1..] == rb;
    }
  }

  lemma LineUpTail(sa: seq<Seg>, ea: string, a: map<string, string>, sb: seq<Seg>, eb: string, b: map<string, string>)
    requires |sa| > 1 && |sb| > 1
    ensures LineUp(sa, ea, a, sb, eb, b) <==>
      SegText(sa[0], a) == SegText(sb[0], b) && LineUp(sa[1..], ea, a, sb[1..], eb, b)
  {
    if SegText(sa[0], a) == SegText(sb[0], b) && LineUp(sa[1..], ea, a, sb[1..], eb, b) {
      LineUpWithHead(sa, ea, a, sb, eb, b);
    }
    if LineUp(sa, ea, a, sb, eb, b) {
      LineUpWithoutHead(sa, ea, a, sb, eb, b);
    }
  }

  lemma LineUpWithHead(sa: seq<Seg>, ea: string, a: map<string, string>, sb: seq<Seg>, eb: string,
        b: map<string, string>)
    requires |sa| > 1 && |sb| > 1 && SegText(sa[0], a) == SegText(sb[0], b) && LineUp(sa[1..], ea, a, sb[1..], eb, b)
    ensures LineUp(sa, ea, a, sb, eb, b)
  {
    forall i | 0 <= i < |sa| - 1 ensures SegText(sa[i], a) == SegText(sb[i], b) {
      if i > 0 { assert sa[1..][i - 1] == sa[i] && sb[1..][i - 1] == sb[i]; }
    }
  }

  lemma LineUpWithoutHead(sa: seq<Seg>, ea: string, a: map<string, string>, sb: seq<Seg>, eb: string,
        b: map<string, string>)
    requires |sa| > 1 && |sb| > 1 && LineUp(sa, ea, a, sb, eb, b)
    ensures LineUp(sa[1..], ea, a, sb[1..], eb, b)
  {
    forall i | 0 <= i < |sa| - 2 ensures SegText(sa[1..][i], a) == SegText(sb[1..][i], b) {
      assert sa[1..][i] == sa[i + 1] && sb[1..][i] == sb[i + 1];
    }
  }

  /** At the last segment the endings agree, or one side's last newline is the other side's value's. */
  lemma LastSegmentsMeetIff(x: string, ea: string, y: string, eb: string)
    requires '@' !in x && '@' !in y && IsEnding(ea) && IsEnding(eb)
    ensures x + ea == y + eb <==>
      || (ea == eb && x == y)
      || (ea == "\n" && eb == "" && x + "\n" == y)
      || (ea == "" && eb == "\n" && x == y + "\n")
  {
    EndingChars(ea);
    EndingChars(eb);
    if x + ea == y + eb {
      if ea != "" && ea[0] == '@' {
        AtOnBoth(x, ea, y, eb);
        SplitsOnce(x, ea, y, eb, '@');
      } else if eb != "" && eb[0] == '@' {
        AtOnBoth(y, eb, x, ea);
      } else if ea == eb {
        SameEnding(x, y, ea);
      }
    }
  }

  lemma AtOnBoth(x: string, ea: string, y: string, eb: string)
    requires x + ea == y + eb && '@' !in y && ea != "" && ea[0] == '@'
    requires eb == "" || eb == "\n" || eb[0] == '@'
    ensures eb != "" && eb[0] == '@'
  {
    assert (x + ea)[|x|] == '@';
    assert forall i :: 0 <= i < |y| ==> (y + eb)[i] != '@';
    assert eb != "";
    assert (y + eb)[|x|] == eb[|x| - |y|];
  }

  // ----- the condition ---------------------------------------------------------------------------------

  function TermOf(left: bool, seg: Seg): Term {
    match seg
    case Word(text) => Fixed(text)
    case Blank(key) => Var(left, key)
  }

  /** The segments of two names of one length, position by position. */
  function Facing(a: seq<Seg>, b: seq<Seg>): (r: seq<Equation>)
    requires |a| == |b|
    ensures |r| == |a| && forall i :: 0 <= i < |r| ==> r[i] == (TermOf(true, a[i]), TermOf(false, b[i]))
  {
    seq(|a|, i requires 0 <= i < |a| => (TermOf(true, a[i]), TermOf(false, b[i])))
  }

  /** Nothing equated with the placeholder t is a literal or the term other. */
  ghost predicate Free(eqs: seq<Equation>, t: Term, other: Term) {
    t.Var? && forall s :: Connected(eqs, t, s) ==> s.Var? && s != other
  }

  /** The names end alike, and what faces what can be equal. */
  ghost predicate Level(f: Form, g: Form) {
    |f.segs| == |g.segs| && f.ending == g.ending && Agreeable(Facing(f.segs, g.segs))
  }

  /** Only f ends in a newline: the last placeholder of g must take one, and the positions before must let it. */
  ghost predicate Shifted(f: Form, g: Form) {
    && |f.segs| == |g.segs| > 0 && f.ending == "\n" && g.ending == "" && Agreeable(Facing(f.segs, g.segs))
    && var n := |f.segs| - 1;
       Free(Facing(f.segs[..n], g.segs[..n]), TermOf(false, g.segs[n]), TermOf(true, f.segs[n]))
  }

  /** A condition on two names alone: as many segments, the same version, and equations that can be solved. */
  ghost predicate Overlap(m: string, n: string)
    requires IsName(m) && IsName(n)
  {
    Level(FormOf(m), FormOf(n)) || Shifted(FormOf(m), FormOf(n)) || Shifted(FormOf(n), FormOf(m))
  }

  // ----- from equal addresses to the condition -----------------------------------------------------------

  function TermText(t: Term, a: map<string, string>, b: map<string, string>): string {
    match t
    case Fixed(text) => text
    case Var(left, key) =>
      if left then (if key in a then a[key] else "x") else (if key in b then b[key] else "x")
  }

  /** What is left of a value without its last newline; a literal has none. */
  function Core(a: map<string, string>, b: map<string, string>): Term -> string {
    (t: Term) => if t.Fixed? then t.text else BeforeDollar(TermText(t, a, b))
  }

  function EndsInNewline(a: map<string, string>, b: map<string, string>): Term -> bool {
    (t: Term) => t.Var? && TermText(t, a, b) != BeforeDollar(TermText(t, a, b))
  }

  /** Arguments for a form: its keys, each an entity id. */
  ghost predicate Fits(f: Form, args: map<string, string>) {
    args.Keys == KeysOf(f.segs) && forall k :: k in args ==> IsEntityId(args[k])
  }

  lemma WordText(text: string)
    requires text != "" && KeyText(text)
    ensures BeforeDollar(text) == text && '.' !in text && '@' !in text && '\n' !in text
  {
    assert IsKeyChar(text[|text| - 1]);
  }

  lemma SegIsTerm(f: Form, args: map<string, string>, seg: Seg, left: bool, a: map<string, string>,
        b: map<string, string>)
    requires Fits(f, args) && seg in f.segs && args == if left then a else b
    ensures SegText(seg, args) == TermText(TermOf(left, seg), a, b)
  {
    if seg.Blank? {
      assert seg.key in KeysOf(f.segs);
    }
  }

  lemma FitsIsClear(f: Form, args: map<string, string>)
    requires Fits(f, args) && WordsAreKeys(f.segs)
    ensures Clear(f.segs, args)
  {
    forall i | 0 <= i < |f.segs| ensures '.' !in SegText(f.segs[i], args) && '@' !in SegText(f.segs[i], args) {
      var seg := f.segs[i];
      match seg
      case Word(text) =>
        assert seg in f.segs;
        WordText(text);
      case Blank(key) =>
        assert key in KeysOf(f.segs);
        EntityIdChars(args[key]);
    }
  }

  /** The texts of the names' forms are equal exactly when the segments line up. */
  lemma TextsEqualIff(f: Form, a: map<string, string>, g: Form, b: map<string, string>)
    requires f.segs != [] && g.segs != [] && Fits(f, a) && Fits(g, b) && WordsAreKeys(f.segs) && WordsAreKeys(g.segs)
    requires IsEnding(f.ending) && IsEnding(g.ending)
    ensures FormText(f, a) == FormText(g, b) <==> LineUp(f.segs, f.ending, a, g.segs, g.ending, b)
  {
    FitsIsClear(f, a);
    FitsIsClear(g, b);
    WholesEqualIff(f.segs, f.ending, a, g.segs, g.ending, b);
  }

  lemma FacingWords(f: Form, g: Form, i: nat)
    requires WordsAreKeys(f.segs) && WordsAreKeys(g.segs) && |f.segs| == |g.segs| && i < |f.segs|
    ensures var e := Facing(f.segs, g.segs)[i];
      && (e.0.Fixed? ==> e.0.text != "" && KeyText(e.0.text)) && (e.1.Fixed? ==> e.1.text != "" && KeyText(e.1.text))
  {
    assert f.segs[i] in f.segs && g.segs[i] in g.segs;
  }

  /** The texts at position i, as values of the two terms that face each other there. */
  lemma FacingTexts(f: Form, a: map<string, string>, g: Form, b: map<string, string>, i: nat)
    requires Fits(f, a) && Fits(g, b) && |f.segs| == |g.segs| && i < |f.segs|
    ensures var e := Facing(f.segs, g.segs)[i];
      SegText(f.segs[i], a) == TermText(e.0, a, b) && SegText(g.segs[i], b) == TermText(e.1, a, b)
  {
    SegIsTerm(f, a, f.segs[i], true, a, b);
    SegIsTerm(g, b, g.segs[i], false, a, b);
  }

  lemma EqualTextsEqualParts(s: Term, t: Term, a: map<string, string>, b: map<string, string>)
    requires TermText(s, a, b) == TermText(t, a, b)
    requires (s.Fixed? ==> s.text != "" && KeyText(s.text)) && (t.Fixed? ==> t.text != "" && KeyText(t.text))
    ensures Core(a, b)(s) == Core(a, b)(t) && EndsInNewline(a, b)(s) == EndsInNewline(a, b)(t)
  {
    if s.Fixed? { WordText(s.text); }
    if t.Fixed? { WordText(t.text); }
  }

  lemma CoreIsShort(a: map<string, string>, b: map<string, string>, v: Term)
    requires v.Var? && (forall k :: k in a ==> IsEntityId(a[k])) && forall k :: k in b ==> IsEntityId(b[k])
    ensures |Core(a, b)(v)| <= MAX_ENTITY_ID
  {
  }

  lemma SolvedIsAgreeable(eqs: seq<Equation>, a: map<string, string>, b: map<string, string>)
    requires Solves(Core(a, b), eqs)
    requires (forall k :: k in a ==> IsEntityId(a[k])) && forall k :: k in b ==> IsEntityId(b[k])
    ensures Agreeable(eqs)
  {
    forall s, t | Connected(eqs, Fixed(s), Fixed(t)) ensures s == t {
      ConnectedAgree(Core(a, b), eqs, Fixed(s), Fixed(t));
    }
    forall v: Term, s | v.Var? && Connected(eqs, v, Fixed(s)) ensures |s| <= MAX_ENTITY_ID {
      ConnectedAgree(Core(a, b), eqs, v, Fixed(s));
      CoreIsShort(a, b, v);
    }
  }

  lemma NeedsLevel(f: Form, a: map<string, string>, g: Form, b: map<string, string>)
    requires Fits(f, a) && Fits(g, b) && WordsAreKeys(f.segs) && WordsAreKeys(g.segs) && |f.segs| == |g.segs|
    requires f.ending == g.ending && forall i :: 0 <= i < |f.segs| ==> SegText(f.segs[i], a) == SegText(g.segs[i], b)
    ensures Level(f, g)
  {
    var eqs := Facing(f.segs, g.segs);
    forall e | e in eqs ensures Core(a, b)(e.0) == Core(a, b)(e.1) {
      var i: nat :| i < |eqs| && eqs[i] == e;
      FacingTexts(f, a, g, b, i);
      FacingWords(f, g, i);
      EqualTextsEqualParts(e.0, e.1, a, b);
    }
    SolvedIsAgreeable(eqs, a, b);
  }

  /** A value that is another one and a newline belongs to a placeholder, and the other one ends in no newline. */
  lemma NewlineParts(s: Term, t: Term, a: map<string, string>, b: map<string, string>)
    requires TermText(s, a, b) + "\n" == TermText(t, a, b)
    requires (s.Fixed? ==> s.text != "" && KeyText(s.text)) && (t.Fixed? ==> t.text != "" && KeyText(t.text))
    requires (forall k :: k in a ==> IsEntityId(a[k])) && forall k :: k in b ==> IsEntityId(b[k])
    ensures t.Var? && Core(a, b)(s) == Core(a, b)(t) && EndsInNewline(a, b)(t) && !EndsInNewline(a, b)(s)
  {
    var x, y := TermText(s, a, b), TermText(t, a, b);
    assert y[|y| - 1] == '\n';
    if t.Fixed? { WordText(t.text); }
    assert IsEntityId(y);
    assert BeforeDollar(y) == x;
    if x != [] { assert IsSlugChar(BeforeDollar(y)[|x| - 1]); }
    assert BeforeDollar(x) == x;
  }

  /** f and g line up, f ends in a newline and g does not. */
  ghost predicate LinesUpShifted(f: Form, a: map<string, string>, g: Form, b: map<string, string>) {
    && Fits(f, a) && Fits(g, b) && WordsAreKeys(f.segs) && WordsAreKeys(g.segs) && |f.segs| == |g.segs| > 0
    && (forall i :: 0 <= i < |f.segs| - 1 ==> SegText(f.segs[i], a) == SegText(g.segs[i], b))
    && SegText(f.segs[|f.segs| - 1], a) + "\n" == SegText(g.segs[|f.segs| - 1], b)
  }

  lemma ShiftBefore(f: Form, a: map<string, string>, g: Form, b: map<string, string>, i: nat)
    requires LinesUpShifted(f, a, g, b) && i < |f.segs| - 1
    ensures var e := Facing(f.segs, g.segs)[i];
      Core(a, b)(e.0) == Core(a, b)(e.1) && EndsInNewline(a, b)(e.0) == EndsInNewline(a, b)(e.1)
  {
    FacingTexts(f, a, g, b, i);
    FacingWords(f, g, i);
    EqualTextsEqualParts(Facing(f.segs, g.segs)[i].0, Facing(f.segs, g.segs)[i].1, a, b);
  }

  lemma ShiftLast(f: Form, a: map<string, string>, g: Form, b: map<string, string>)
    requires LinesUpShifted(f, a, g, b)
    ensures var e := Facing(f.segs, g.segs)[|f.segs| - 1];
      Core(a, b)(e.0) == Core(a, b)(e.1) && e.1.Var? && EndsInNewline(a, b)(e.1) && !EndsInNewline(a, b)(e.0)
  {
    var n := |f.segs| - 1;
    FacingTexts(f, a, g, b, n);
    FacingWords(f, g, n);
    NewlineParts(Facing(f.segs, g.segs)[n].0, Facing(f.segs, g.segs)[n].1, a, b);
  }

  ghost predicate SameCore(a: map<string, string>, b: map<string, string>, e: Equation) {
    Core(a, b)(e.0) == Core(a, b)(e.1)
  }

  lemma SameCoresSolve(eqs: seq<Equation>, a: map<string, string>, b: map<string, string>)
    requires forall i :: 0 <= i < |eqs| ==> SameCore(a, b, eqs[i])
    ensures Solves(Core(a, b), eqs)
  {
    forall e | e in eqs ensures Core(a, b)(e.0) == Core(a, b)(e.1) {
      var i: nat :| i < |eqs| && eqs[i] == e;
      assert SameCore(a, b, eqs[i]);
    }
  }

  lemma ShiftAt(f: Form, a: map<string, string>, g: Form, b: map<string, string>, i: nat)
    requires LinesUpShifted(f, a, g, b) && i < |f.segs|
    ensures SameCore(a, b, Facing(f.segs, g.segs)[i])
  {
    if i < |f.segs| - 1 { ShiftBefore(f, a, g, b, i); } else { ShiftLast(f, a, g, b); }
  }

  lemma ShiftSolves(f: Form, a: map<string, string>, g: Form, b: map<string, string>)
    requires LinesUpShifted(f, a, g, b)
    ensures Solves(Core(a, b), Facing(f.segs, g.segs))
  {
    var eqs := Facing(f.segs, g.segs);
    forall i: nat | i < |eqs| ensures SameCore(a, b, eqs[i]) {
      ShiftAt(f, a, g, b, i);
    }
    SameCoresSolve(eqs, a, b);
  }

  lemma NeedsShift(f: Form, a: map<string, string>, g: Form, b: map<string, string>)
    requires LinesUpShifted(f, a, g, b) && f.ending == "\n" && g.ending == ""
    ensures Shifted(f, g)
  {
    ShiftSolves(f, a, g, b);
    SolvedIsAgreeable(Facing(f.segs, g.segs), a, b);
    forall i | 0 <= i < |f.segs| - 1
      ensures EndsInNewline(a, b)(Facing(f.segs, g.segs)[i].0) == EndsInNewline(a, b)(Facing(f.segs, g.segs)[i].1)
    {
      ShiftBefore(f, a, g, b, i);
    }
    ShiftLast(f, a, g, b);
    ShiftIsFree(f, a, g, b);
  }

  lemma ShiftIsFree(f: Form, a: map<string, string>, g: Form, b: map<string, string>)
    requires |f.segs| == |g.segs| > 0
    requires var eqs, n := Facing(f.segs, g.segs), |f.segs| - 1;
      && (forall i :: 0 <= i < n ==> EndsInNewline(a, b)(eqs[i].0) == EndsInNewline(a, b)(eqs[i].1))
      && eqs[n].1.Var? && EndsInNewline(a, b)(eqs[n].1) && !EndsInNewline(a, b)(eqs[n].0)
    ensures var n := |f.segs| - 1;
      Free(Facing(f.segs[..n], g.segs[..n]), TermOf(false, g.segs[n]), TermOf(true, f.segs[n]))
  {
    var eqs, n := Facing(f.segs, g.segs), |f.segs| - 1;
    var rest, t := Facing(f.segs[..n], g.segs[..n]), TermOf(false, g.segs[n]);
    forall e | e in rest ensures EndsInNewline(a, b)(e.0) == EndsInNewline(a, b)(e.1) {
      var i: nat :| i < |rest| && rest[i] == e;
      assert eqs[i] == e;
    }
    forall s | Connected(rest, t, s) ensures s.Var? && s != TermOf(true, f.segs[n]) {
      ConnectedAgree(EndsInNewline(a, b), rest, t, s);
    }
  }

  /** Texts that line up agree at every segment, or but for a newline one of them keeps in its last segment. */
  lemma LineUpCases(f: Form, a: map<string, string>, g: Form, b: map<string, string>)
    requires Fits(f, a) && Fits(g, b) && WordsAreKeys(f.segs) && WordsAreKeys(g.segs) && f.segs != [] && g.segs != []
    requires IsEnding(f.ending) && IsEnding(g.ending) && LineUp(f.segs, f.ending, a, g.segs, g.ending, b)
    ensures
      || (f.ending == g.ending && forall i :: 0 <= i < |f.segs| ==> SegText(f.segs[i], a) == SegText(g.segs[i], b))
      || (f.ending == "\n" && g.ending == "" && LinesUpShifted(f, a, g, b))
      || (g.ending == "\n" && f.ending == "" && LinesUpShifted(g, b, f, a))
  {
    var n := |f.segs| - 1;
    var x, y := SegText(f.segs[n], a), SegText(g.segs[n], b);
    LastIsClear(f, a);
    LastIsClear(g, b);
    LastSegmentsMeetIff(x, f.ending, y, g.ending);
    if f.ending == g.ending && x == y {
      forall i | 0 <= i < |f.segs| ensures SegText(f.segs[i], a) == SegText(g.segs[i], b) {
        assert i < n || i == n;
      }
    }
  }

  lemma LastIsClear(f: Form, args: map<string, string>)
    requires Fits(f, args) && WordsAreKeys(f.segs) && f.segs != []
    ensures '@' !in SegText(f.segs[|f.segs| - 1], args)
  {
    FitsIsClear(f, args);
  }

  lemma LineUpNeeds(f: Form, a: map<string, string>, g: Form, b: map<string, string>)
    requires Fits(f, a) && Fits(g, b) && WordsAreKeys(f.segs) && WordsAreKeys(g.segs) && f.segs != [] && g.segs != []
    requires IsEnding(f.ending) && IsEnding(g.ending) && LineUp(f.segs, f.ending, a, g.segs, g.ending, b)
    ensures Level(f, g) || Shifted(f, g) || Shifted(g, f)
  {
    LineUpCases(f, a, g, b);
    if f.ending == g.ending {
      NeedsLevel(f, a, g, b);
    } else if f.ending == "\n" {
      NeedsShift(f, a, g, b);
    } else {
      NeedsShift(g, b, f, a);
    }
  }

  // ----- from the condition to equal addresses -------------------------------------------------------------

  /** The chosen value of a term: its literal, with a newline if it is equated with the marked one before the last. */
  ghost function Chosen(eqs: seq<Equation>, rest: seq<Equation>, marked: Option<Term>, t: Term): string {
    Literal(eqs, t) + if marked.Some? && Connected(rest, marked.value, t) then "\n" else ""
  }

  ghost function ChosenArgs(f: Form, left: bool, eqs: seq<Equation>, rest: seq<Equation>,
        marked: Option<Term>): map<string, string> {
    map k | k in KeysOf(f.segs) :: Chosen(eqs, rest, marked, Var(left, k))
  }

  lemma {:induction false} ChainEnds(eqs: seq<Equation>, p: seq<Term>)
    requires IsChain(eqs, p) && |p| > 1
    ensures exists e :: e in eqs && (p[|p| - 1] == e.0 || p[|p| - 1] == e.1)
  {
    var s, t := p[|p| - 2], p[|p| - 1];
    assert Joined(eqs, s, t);
    if (s, t) in eqs {
      assert t == (s, t).1;
    } else {
      assert (t, s) in eqs && t == (t, s).0;
    }
  }

  /** A literal that a placeholder is equated with is a word of one of the names. */
  lemma LiteralIsWord(f: Form, g: Form, t: Term, s: string)
    requires |f.segs| == |g.segs| && WordsAreKeys(f.segs) && WordsAreKeys(g.segs)
    requires t.Var? && Connected(Facing(f.segs, g.segs), t, Fixed(s))
    ensures s != "" && KeyText(s)
  {
    var eqs := Facing(f.segs, g.segs);
    var p :| IsChain(eqs, p) && p[0] == t && p[|p| - 1] == Fixed(s);
    ChainEnds(eqs, p);
    var e :| e in eqs && (Fixed(s) == e.0 || Fixed(s) == e.1);
    var i: nat :| i < |eqs| && eqs[i] == e;
    FacingWords(f, g, i);
  }

  lemma KeyTextIsEntityId(s: string)
    requires s != "" && KeyText(s) && |s| <= MAX_ENTITY_ID
    ensures IsEntityId(s) && IsEntityId(s + "\n")
  {
    WordText(s);
    assert BeforeDollar(s + "\n") == s;
  }

  lemma ChosenIsEntityId(f: Form, g: Form, rest: seq<Equation>, marked: Option<Term>, t: Term)
    requires |f.segs| == |g.segs| && WordsAreKeys(f.segs) && WordsAreKeys(g.segs) && t.Var?
    requires Agreeable(Facing(f.segs, g.segs))
    ensures IsEntityId(Chosen(Facing(f.segs, g.segs), rest, marked, t))
  {
    var eqs := Facing(f.segs, g.segs);
    var s := Literal(eqs, t);
    if exists x :: Connected(eqs, t, Fixed(x)) {
      LiteralIsWord(f, g, t, s);
    }
    KeyTextIsEntityId(s);
    assert s + "" == s;
  }

  lemma ChosenFits(f: Form, g: Form, rest: seq<Equation>, marked: Option<Term>)
    requires |f.segs| == |g.segs| && WordsAreKeys(f.segs) && WordsAreKeys(g.segs) && Agreeable(Facing(f.segs, g.segs))
    ensures Fits(f, ChosenArgs(f, true, Facing(f.segs, g.segs), rest, marked))
    ensures Fits(g, ChosenArgs(g, false, Facing(f.segs, g.segs), rest, marked))
  {
    forall t: Term | t.Var? ensures IsEntityId(Chosen(Facing(f.segs, g.segs), rest, marked, t)) {
      ChosenIsEntityId(f, g, rest, marked, t);
    }
  }

  /** No literal is marked. */
  ghost predicate MarksNoLiteral(rest: seq<Equation>, marked: Option<Term>) {
    marked.Some? ==> forall s :: Connected(rest, marked.value, s) ==> s.Var?
  }

  lemma ChosenText(f: Form, left: bool, eqs: seq<Equation>, rest: seq<Equation>, marked: Option<Term>, seg: Seg)
    requires seg in f.segs && Agreeable(eqs) && MarksNoLiteral(rest, marked)
    ensures SegText(seg, ChosenArgs(f, left, eqs, rest, marked)) == Chosen(eqs, rest, marked, TermOf(left, seg))
  {
    match seg
    case Word(text) =>
      LiteralOfFixed(eqs, text);
      assert text + "" == text;
    case Blank(key) =>
      assert key in KeysOf(f.segs);
  }

  lemma MarksAlike(rest: seq<Equation>, marked: Term, e: Equation)
    requires e in rest
    ensures Connected(rest, marked, e.0) <==> Connected(rest, marked, e.1)
  {
    if Connected(rest, marked, e.0) { ConnectedThenStep(rest, marked, e.0, e.1); }
    if Connected(rest, marked, e.1) { ConnectedThenStep(rest, marked, e.1, e.0); }
  }

  lemma SolvedAt(eqs: seq<Equation>, i: nat)
    requires Agreeable(eqs) && i < |eqs|
    ensures Literal(eqs, eqs[i].0) == Literal(eqs, eqs[i].1)
  {
    LiteralSolves(eqs);
    assert eqs[i] in eqs;
  }

  lemma LevelSuffices(f: Form, g: Form) returns (a: map<string, string>, b: map<string, string>)
    requires Level(f, g) && f.segs != [] && WordsAreKeys(f.segs) && WordsAreKeys(g.segs)
    ensures Fits(f, a) && Fits(g, b) && LineUp(f.segs, f.ending, a, g.segs, g.ending, b)
  {
    var eqs := Facing(f.segs, g.segs);
    a, b := ChosenArgs(f, true, eqs, [], None), ChosenArgs(g, false, eqs, [], None);
    ChosenFits(f, g, [], None);
    forall i: nat | i < |eqs| ensures SegText(f.segs[i], a) == SegText(g.segs[i], b) {
      ChosenText(f, true, eqs, [], None, f.segs[i]);
      ChosenText(g, false, eqs, [], None, g.segs[i]);
      SolvedAt(eqs, i);
    }
  }

  /** Where f and g shift, the equations of all positions, of those before the last, and the last placeholder of g. */
  ghost predicate ShiftParts(f: Form, g: Form, eqs: seq<Equation>, rest: seq<Equation>, t: Term) {
    && Shifted(f, g) && eqs == Facing(f.segs, g.segs)
    && rest == Facing(f.segs[..|f.segs| - 1], g.segs[..|f.segs| - 1]) && t == TermOf(false, g.segs[|f.segs| - 1])
  }

  lemma ShiftedBefore(f: Form, g: Form, eqs: seq<Equation>, rest: seq<Equation>, t: Term, i: nat)
    requires ShiftParts(f, g, eqs, rest, t) && i < |f.segs| - 1
    ensures SegText(f.segs[i], ChosenArgs(f, true, eqs, rest, Some(t))) ==
      SegText(g.segs[i], ChosenArgs(g, false, eqs, rest, Some(t)))
  {
    ChosenText(f, true, eqs, rest, Some(t), f.segs[i]);
    ChosenText(g, false, eqs, rest, Some(t), g.segs[i]);
    SolvedAt(eqs, i);
    assert rest[i] == eqs[i] && rest[i] in rest;
    MarksAlike(rest, t, eqs[i]);
  }

  lemma ShiftMarks(f: Form, g: Form, eqs: seq<Equation>, rest: seq<Equation>, t: Term)
    requires ShiftParts(f, g, eqs, rest, t)
    ensures MarksNoLiteral(rest, Some(t)) && !Connected(rest, t, TermOf(true, f.segs[|f.segs| - 1]))
      && Connected(rest, t, t)
    ensures eqs[|f.segs| - 1] == (TermOf(true, f.segs[|f.segs| - 1]), t) && Agreeable(eqs)
  {
    ConnectedSelf(rest, t);
  }

  lemma MarkedText(f: Form, left: bool, eqs: seq<Equation>, rest: seq<Equation>, t: Term, seg: Seg)
    requires seg in f.segs && Agreeable(eqs) && MarksNoLiteral(rest, Some(t))
    ensures SegText(seg, ChosenArgs(f, left, eqs, rest, Some(t)))
         == Literal(eqs, TermOf(left, seg)) + if Connected(rest, t, TermOf(left, seg)) then "\n" else ""
  {
    ChosenText(f, left, eqs, rest, Some(t), seg);
  }

  lemma ShiftedLast(f: Form, g: Form, eqs: seq<Equation>, rest: seq<Equation>, t: Term)
    requires ShiftParts(f, g, eqs, rest, t)
    ensures var n := |f.segs| - 1;
      SegText(f.segs[n], ChosenArgs(f, true, eqs, rest, Some(t))) + "\n" ==
        SegText(g.segs[n], ChosenArgs(g, false, eqs, rest, Some(t)))
  {
    var n := |f.segs| - 1;
    ShiftMarks(f, g, eqs, rest, t);
    SolvedAt(eqs, n);
    MarkedText(f, true, eqs, rest, t, f.segs[n]);
    MarkedText(g, false, eqs, rest, t, g.segs[n]);
    assert Literal(eqs, t) + "" == Literal(eqs, t);
  }

  lemma ShiftSuffices(f: Form, g: Form) returns (a: map<string, string>, b: map<string, string>)
    requires Shifted(f, g) && WordsAreKeys(f.segs) && WordsAreKeys(g.segs)
    ensures Fits(f, a) && Fits(g, b) && LineUp(f.segs, f.ending, a, g.segs, g.ending, b)
  {
    var eqs, n := Facing(f.segs, g.segs), |f.segs| - 1;
    var rest, t := Facing(f.segs[..n], g.segs[..n]), TermOf(false, g.segs[n]);
    a, b := ChosenArgs(f, true, eqs, rest, Some(t)), ChosenArgs(g, false, eqs, rest, Some(t));
    ChosenFits(f, g, rest, Some(t));
    forall i: nat | i < n ensures SegText(f.segs[i], a) == SegText(g.segs[i], b) {
      ShiftedBefore(f, g, eqs, rest, t, i);
    }
    ShiftedLast(f, g, eqs, rest, t);
    assert SegText(g.segs[n], b) + "" == SegText(g.segs[n], b);
  }

  // ----- the theorem --------------------------------------------------------------------------------------

  ghost predicate Collide(m: string, a: map<string, string>, n: string, b: map<string, string>)
    requires IsName(m) && IsName(n)
  {
    Arguments(m, a) && Arguments(n, b) && Address(m, a) == Address(n, b)
  }

  lemma CollideIff(m: string, a: map<string, string>, n: string, b: map<string, string>)
    requires IsName(m) && IsName(n) && Arguments(m, a) && Arguments(n, b)
    ensures var f, g := FormOf(m), FormOf(n);
      && Fits(f, a) && Fits(g, b) && WordsAreKeys(f.segs) && WordsAreKeys(g.segs) && IsEnding(f.ending)
        && IsEnding(g.ending)
      && (Address(m, a) == Address(n, b) <==> LineUp(f.segs, f.ending, a, g.segs, g.ending, b))
  {
    FormFills(m, a);
    FormFills(n, b);
    FormWords(m);
    FormWords(n);
    AddressIsFilled(m, a);
    AddressIsFilled(n, b);
    TextsEqualIff(FormOf(m), a, FormOf(n), b);
  }

  lemma FitsIsArguments(name: string, args: map<string, string>)
    requires IsName(name)
    ensures Fits(FormOf(name), args) <==> Arguments(name, args)
  {
    FormFills(name, args);
  }

  /** Two names have arguments that give them one address exactly when they overlap. */
  lemma CollideIffOverlap(m: string, n: string)
    requires IsName(m) && IsName(n)
    ensures (exists a, b :: Collide(m, a, n, b)) <==> Overlap(m, n)
  {
    var f, g := FormOf(m), FormOf(n);
    FormWords(m);
    FormWords(n);
    if a, b :| Collide(m, a, n, b) {
      CollideIff(m, a, n, b);
      LineUpNeeds(f, a, g, b);
    }
    if Overlap(m, n) {
      var a, b := OverlapGives(m, n);
    }
  }

  lemma OverlapGives(m: string, n: string) returns (a: map<string, string>, b: map<string, string>)
    requires IsName(m) && IsName(n) && Overlap(m, n)
    ensures Collide(m, a, n, b)
  {
    var f, g := FormOf(m), FormOf(n);
    FormWords(m);
    FormWords(n);
    if Level(f, g) {
      a, b := LevelSuffices(f, g);
    } else if Shifted(f, g) {
      a, b := ShiftSuffices(f, g);
    } else {
      b, a := ShiftSuffices(g, f);
      LineUpSymmetric(g, b, f, a);
    }
    FitsIsArguments(m, a);
    FitsIsArguments(n, b);
    CollideIff(m, a, n, b);
  }

  lemma LineUpSymmetric(f: Form, a: map<string, string>, g: Form, b: map<string, string>)
    requires f.segs != [] && g.segs != [] && LineUp(f.segs, f.ending, a, g.segs, g.ending, b)
    ensures LineUp(g.segs, g.ending, b, f.segs, f.ending, a)
  {
  }
}
