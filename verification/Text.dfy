/** The pieces of Python's str that the sources lean on. */
module Text {

  /** The characters str.strip removes. */
  predicate IsSpace(c: char) {
    var n := c as int;
    || 9 <= n <= 13 || 28 <= n <= 32 || n == 0x85 || n == 0xa0 || n == 0x1680 || 0x2000 <= n <= 0x200a
    || n == 0x2028 || n == 0x2029 || n == 0x202f || n == 0x205f || n == 0x3000
  }

  function LStrip(s: string): string {
    if s != [] && IsSpace(s[0]) then LStrip(s[1..]) else s
  }

  function RStrip(s: string): string {
    if s != [] && IsSpace(s[|s| - 1]) then RStrip(s[..|s| - 1]) else s
  }

  function Strip(s: string): string {
    RStrip(LStrip(s))
  }

  predicate StartsWith(s: string, prefix: string) {
    |prefix| <= |s| && s[..|prefix|] == prefix
  }

  predicate IsDigit(c: char) { '0' <= c <= '9' }

  predicate IsLower(c: char) { 'a' <= c <= 'z' }

  predicate IsUpper(c: char) { 'A' <= c <= 'Z' }

  /** Python's $ also matches before one trailing newline, so re.match with ^...$ reads a string up to there. */
  function BeforeDollar(s: string): string {
    if s != [] && s[|s| - 1] == '\n' then s[..|s| - 1] else s
  }

  // ----- stripping ---------------------------------------------------------------------------

  /** No blank at either end. */
  predicate Trim(s: string) {
    s != [] && !IsSpace(s[0]) && !IsSpace(s[|s| - 1])
  }

  predicate Blank(s: string) {
    forall i :: 0 <= i < |s| ==> IsSpace(s[i])
  }

  lemma {:induction false} RStripBlank(s: string, blank: string)
    requires Blank(blank) && Trim(s)
    ensures RStrip(s + blank) == s
    decreases |blank|
  {
    if blank == [] {
      assert s + blank == s;
    } else {
      var all, front := s + blank, blank[..|blank| - 1];
      assert all[..|all| - 1] == s + front;
      RStripBlank(s, front);
    }
  }

  lemma StripBlanks(before: string, s: string, after: string)
    requires Blank(before) && Blank(after) && Trim(s)
    ensures Strip(before + s + after) == s
  {
    LStripInside(before, s, after);
    RStripBlank(s, after);
  }

  lemma {:induction false} LStripInside(before: string, s: string, after: string)
    requires Blank(before) && Trim(s)
    ensures LStrip(before + s + after) == s + after
  {
    if before == [] {
      assert before + s + after == s + after;
    } else {
      assert (before + s + after)[1..] == before[1..] + s + after;
      LStripInside(before[1..], s, after);
    }
  }

  lemma {:induction false} AllBlankStrips(s: string)
    requires Blank(s)
    ensures LStrip(s) == "" && Strip(s) == ""
  {
    if s != "" { AllBlankStrips(s[1..]); }
  }

  lemma {:induction false} LStripEmpty(s: string)
    requires LStrip(s) == ""
    ensures Blank(s)
  {
    if s != "" { LStripEmpty(s[1..]); }
  }

  lemma {:induction false} RStripKeepsFirst(s: string)
    requires s != "" && !IsSpace(s[0])
    ensures RStrip(s) != ""
    decreases |s|
  {
    if IsSpace(s[|s| - 1]) { RStripKeepsFirst(s[..|s| - 1]); }
  }

  lemma {:induction false} LStripStarts(s: string)
    ensures LStrip(s) != "" ==> !IsSpace(LStrip(s)[0])
  {
    if s != "" && IsSpace(s[0]) { LStripStarts(s[1..]); }
  }

  lemma BlankIffStripsEmpty(s: string)
    ensures Blank(s) <==> Strip(s) == ""
  {
    if Blank(s) {
      AllBlankStrips(s);
    } else {
      if LStrip(s) == "" { LStripEmpty(s); }
      LStripStarts(s);
      RStripKeepsFirst(LStrip(s));
    }
  }
}
