/** The grammar of stream names: which texts the pattern accepts, built up from segments instead of read off the
    text. */
module NameGrammar {
  import opened Options
  import opened Text
  import opened StreamNames
  import opened NameOverlap

  function Shown(seg: Seg): string {
    match seg
    case Word(text) => text
    case Blank(key) => "{" + key + "}"
  }

  /** Lower-case letters, digits and underscores, at least one of them. */
  predicate IsSegment(seg: Seg) {
    match seg
    case Word(text) => text != "" && KeyText(text)
    case Blank(key) => key != "" && KeyText(key)
  }

  predicate AreSegments(segs: seq<Seg>) {
    forall i :: 0 <= i < |segs| ==> IsSegment(segs[i])
  }

  /** Each segment behind its dot, then the close. */
  function Dotted(segs: seq<Seg>, close: string): string {
    if segs == [] then close else "." + (Shown(segs[0]) + Dotted(segs[1..], close))
  }

  /** A number without a leading zero. */
  predicate IsVersionNumber(s: string) {
    s != "" && '1' <= s[0] <= '9' && forall i :: 0 <= i < |s| ==> IsDigit(s[i])
  }

  /** Nothing or a version, and perhaps a last newline. */
  ghost predicate IsClose(s: string) {
    || s == "" || s == "\n"
    || exists number :: IsVersionNumber(number) && (s == "@v" + number || s == "@v" + number + "\n")
  }

  ghost predicate Spells(s: string, segs: seq<Seg>, close: string) {
    AreSegments(segs) && IsClose(close) && s == Dotted(segs, close)
  }

  // ----- from the parts to the text ------------------------------------------------------------

  lemma ShownIsSegment(seg: Seg, rest: string)
    requires IsSegment(seg) && Run(rest) == 0
    ensures Segment(Shown(seg) + rest) == Some(|Shown(seg)|)
  {
    match seg
    case Word(text) => WordIsSegment(text, rest);
    case Blank(key) => BlankIsSegment(key, rest);
  }

  lemma WordIsSegment(text: string, rest: string)
    requires text != "" && KeyText(text) && Run(rest) == 0
    ensures Segment(text + rest) == Some(|text|)
  {
    RunOf(text, rest);
  }

  lemma BlankIsSegment(key: string, rest: string)
    requires key != "" && KeyText(key)
    ensures Segment("{" + key + "}" + rest) == Some(|key| + 2)
  {
    var s := "{" + key + "}" + rest;
    assert s[0] == '{' && s[1..] == key + ("}" + rest) && s[1 + |key|] == '}' && s[1..1 + |key|] == key;
    RunOf(key, "}" + rest);
  }

  lemma CloseIsTail(close: string)
    requires IsClose(close)
    ensures IsTail(close) && Run(close) == 0
  {
    if number :| IsVersionNumber(number) && (close == "@v" + number || close == "@v" + number + "\n") {
      var core := "@v" + number;
      assert core[0] == '@' && core[1] == 'v' && core[2] == number[0] && core[|core| - 1] == number[|number| - 1];
      assert BeforeDollar(close) == core;
      assert forall i :: 3 <= i < |core| ==> core[i] == number[i - 2];
    }
  }

  lemma DotStep(shown: string, rest: string)
    ensures var s := "." + (shown + rest);
      s != "" && s[0] == '.' && s[1..] == shown + rest && s[1 + |shown|..] == rest && Run(s) == 0
  {
  }

  lemma TailStep(s: string, n: nat)
    requires s != "" && s[0] == '.' && Segment(s[1..]) == Some(n) && IsTail(s[1 + n..])
    ensures IsTail(s)
  {
  }

  lemma {:induction false} PartsAreTail(segs: seq<Seg>, close: string)
    requires AreSegments(segs) && IsClose(close)
    ensures IsTail(Dotted(segs, close)) && Run(Dotted(segs, close)) == 0
    decreases |segs|
  {
    if segs == [] {
      CloseIsTail(close);
    } else {
      var rest := Dotted(segs[1..], close);
      PartsAreTail(segs[1..], close);
      ShownIsSegment(segs[0], rest);
      DotStep(Shown(segs[0]), rest);
      TailStep("." + (Shown(segs[0]) + rest), |Shown(segs[0])|);
    }
  }

  // ----- from the text to the parts -----------------------------------------------------------------

  lemma SegmentIsShown(s: string) returns (seg: Seg)
    requires Segment(s).Some?
    ensures IsSegment(seg) && s == Shown(seg) + s[Segment(s).value..]
  {
    var n := Segment(s).value;
    if Run(s) > 0 {
      RunChars(s);
      seg := Word(s[..n]);
    } else {
      RunChars(s[1..]);
      seg := Blank(s[1..n - 1]);
      assert s[..n] == "{" + s[1..n - 1] + "}";
      assert s == s[..n] + s[n..];
    }
  }

  lemma VersionIsClose(s: string)
    requires IsVersion(s)
    ensures IsClose(s)
  {
    var core := BeforeDollar(s);
    var number := core[2..];
    assert core == "@v" + number;
    assert IsVersionNumber(number) by {
      forall i | 0 <= i < |number| ensures IsDigit(number[i]) { assert number[i] == core[i + 2]; }
    }
    if s != core { assert s == core + "\n"; }
  }

  lemma {:induction false} TailHasParts(s: string) returns (segs: seq<Seg>, close: string)
    requires IsTail(s)
    ensures Spells(s, segs, close) && (s != "" && s[0] == '.' ==> segs != [])
    decreases |s|
  {
    if s == "" || s == "\n" || IsVersion(s) {
      if IsVersion(s) { VersionIsClose(s); }
      segs, close := [], s;
    } else {
      var seg := SegmentIsShown(s[1..]);
      var rest := s[1 + Segment(s[1..]).value..];
      var more;
      more, close := TailHasParts(rest);
      segs := [seg] + more;
      OneMoreSegment(s, seg, rest, more, close);
    }
  }

  lemma OneMoreSegment(s: string, seg: Seg, rest: string, more: seq<Seg>, close: string)
    requires s != "" && s[0] == '.' && IsSegment(seg) && Spells(rest, more, close) && s[1..] == Shown(seg) + rest
    ensures Spells(s, [seg] + more, close)
  {
    assert ([seg] + more)[1..] == more;
    assert s == "." + s[1..];
  }

  /** The text of two or more segments and a close. */
  ghost predicate IsSpelled(s: string, segs: seq<Seg>, close: string) {
    |segs| >= 2 && AreSegments(segs) && IsClose(close) && s == Shown(segs[0]) + Dotted(segs[1..], close)
  }

  lemma SpelledIsName(s: string, segs: seq<Seg>, close: string)
    requires IsSpelled(s, segs, close)
    ensures IsName(s)
  {
    var shown, rest := Shown(segs[0]), Dotted(segs[1..], close);
    PartsAreTail(segs[1..], close);
    ShownIsSegment(segs[0], rest);
    DotStep(Shown(segs[1]), Dotted(segs[2..], close));
    assert segs[1..][1..] == segs[2..] && segs[1..][0] == segs[1];
    assert s[|shown|..] == rest;
  }

  lemma NameIsSpelled(s: string) returns (segs: seq<Seg>, close: string)
    requires IsName(s)
    ensures IsSpelled(s, segs, close)
  {
    var first := SegmentIsShown(s);
    var more;
    more, close := TailHasParts(s[Segment(s).value..]);
    segs := [first] + more;
    assert segs[1..] == more;
  }

  /** A text is a legal stream name exactly when it is two or more segments with dots between them, each a key or a
      key in braces, then perhaps a version that starts with no zero, and perhaps one last newline. */
  lemma NamesAre(s: string)
    ensures IsName(s) <==> exists segs, close :: IsSpelled(s, segs, close)
  {
    if IsName(s) {
      var segs, close := NameIsSpelled(s);
    }
    if segs, close :| IsSpelled(s, segs, close) {
      SpelledIsName(s, segs, close);
    }
  }
}
