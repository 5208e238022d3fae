/** Mermaid graph text, character by character: lines, nodes, and solid and dotted edges as the checker reads them. */
module MermaidText {
  import opened Options
  import opened Text

  // ----- searching ---------------------------------------------------------------------------

  function Find(s: string, what: string): (r: Option<nat>)
    ensures r.Some? ==> r.value + |what| <= |s|
  {
    if StartsWith(s, what) then Some(0)
    else if s == [] then None
    else var rest := Find(s[1..], what);
         if rest.None? then None else Some(1 + rest.value)
  }

  lemma {:induction false} FindSkips(lead: string, rest: string, what: string)
    requires what != [] && what[0] !in lead
    ensures Find(lead + rest, what) == match Find(rest, what) case None => None case Some(i) => Some(|lead| + i)
  {
    if lead == [] {
      assert lead + rest == rest;
    } else {
      assert (lead + rest)[1..] == lead[1..] + rest;
      FindSkips(lead[1..], rest, what);
    }
  }

  lemma FindHere(lead: string, what: string, rest: string)
    requires what != [] && what[0] !in lead
    ensures Find(lead + what + rest, what) == Some(|lead|)
  {
    assert lead + what + rest == lead + (what + rest);
    assert (what + rest)[..|what|] == what;
    FindSkips(lead, what + rest, what);
  }

  lemma FindNowhere(s: string, what: string)
    requires what != [] && what[0] !in s
    ensures Find(s, what) == None
  {
    FindSkips(s, "", what);
    assert s + "" == s;
  }

  /** Python's str.split on a text that is not empty. */
  function Split(s: string, what: string): (r: seq<string>)
    requires what != []
    ensures r != []
    decreases |s|
  {
    match Find(s, what)
    case None => [s]
    case Some(i) => [s[..i]] + Split(s[i + |what|..], what)
  }

  // ----- lines ---------------------------------------------------------------------------------

  /** The characters at which str.splitlines ends a line. */
  predicate IsLineEnd(c: char) {
    var n := c as int;
    10 <= n <= 13 || 28 <= n <= 30 || n == 0x85 || n == 0x2028 || n == 0x2029
  }

  predicate OneLine(s: string) {
    forall i :: 0 <= i < |s| ==> !IsLineEnd(s[i])
  }

  function LineLength(s: string): (n: nat)
    ensures n <= |s|
    ensures n < |s| ==> IsLineEnd(s[n])
  {
    if s == [] || IsLineEnd(s[0]) then 0 else 1 + LineLength(s[1..])
  }

  function SplitLines(s: string): seq<string>
    decreases |s|
  {
    if s == [] then []
    else
      var n := LineLength(s);
      if n == |s| then [s]
      else [s[..n]] + SplitLines(s[n + (if s[n] == '\r' && n + 1 < |s| && s[n + 1] == '\n' then 2 else 1)..])
  }

  /** The lines, each ended by a newline. */
  function JoinLines(lines: seq<string>): string {
    if lines == [] then "" else lines[0] + "\n" + JoinLines(lines[1..])
  }

  lemma {:induction false} LineEndsThere(line: string, rest: string)
    requires OneLine(line)
    ensures LineLength(line + "\n" + rest) == |line|
  {
    var s := line + "\n" + rest;
    if line != [] {
      assert s[1..] == line[1..] + "\n" + rest;
      LineEndsThere(line[1..], rest);
    }
  }

  lemma FirstLine(line: string, rest: string)
    requires OneLine(line)
    ensures SplitLines(line + "\n" + rest) == [line] + SplitLines(rest)
  {
    var s := line + "\n" + rest;
    LineEndsThere(line, rest);
    assert s[..|line|] == line && s[|line| + 1..] == rest && s[|line|] == '\n';
  }

  lemma {:induction false} SplitJoined(lines: seq<string>)
    requires forall i :: 0 <= i < |lines| ==> OneLine(lines[i])
    ensures SplitLines(JoinLines(lines)) == lines
  {
    if lines != [] {
      FirstLine(lines[0], JoinLines(lines[1..]));
      SplitJoined(lines[1..]);
    }
  }

  // ----- one line ---------------------------------------------------------------------------------

  predicate IsWordChar(c: char) {
    IsLower(c) || IsUpper(c) || IsDigit(c) || c == '_'
  }

  predicate IsWord(s: string) {
    s != [] && forall i :: 0 <= i < |s| ==> IsWordChar(s[i])
  }

  function WordRun(s: string): (n: nat)
    ensures n <= |s|
  {
    if s != [] && IsWordChar(s[0]) then 1 + WordRun(s[1..]) else 0
  }

  /** A node line: its key and its label. */
  function MatchNode(line: string): (r: Option<(string, string)>) {
    var t := LStrip(line);
    var n := WordRun(t);
    var rest := t[n..];
    if n == 0 || !StartsWith(rest, "[\"") then None
    else
      var body := rest[2..];
      match Find(body, "\"")
      case None => None
      case Some(m) =>
        if m > 0 && StartsWith(body[m + 1..], "]") && Blank(body[m + 2..]) then Some((t[..n], body[..m])) else None
  }

  predicate Ignored(stripped: string) {
    stripped == "" || StartsWith(stripped, "graph") || StartsWith(stripped, "%%")
  }

  /** The first dotted edge in s: what stands before it, its label, and what stands after it. */
  function MatchDotted(s: string): (r: Option<(string, string, string)>)
    ensures r.Some? ==> |r.value.2| < |s|
  {
    match Find(s, "-.")
    case None => None
    case Some(i) =>
      match Find(s[i + 2..], ".->")
      case None => None
      case Some(j) => Some((s[..i], s[i + 2..][..j], s[i + 2..][j + 3..]))
  }

  /** What stands after the last dotted edge. */
  function AfterDotted(s: string): string
    decreases |s|
  {
    match MatchDotted(s)
    case None => s
    case Some(m) => AfterDotted(m.2)
  }

  function Stripped(parts: seq<string>): (r: seq<string>)
    ensures |r| == |parts| && forall i :: 0 <= i < |r| ==> r[i] == Strip(parts[i])
  {
    seq(|parts|, i requires 0 <= i < |parts| => Strip(parts[i]))
  }

  /** zip(s, s[1:]) */
  function Pairs<T>(s: seq<T>): (r: seq<(T, T)>)
    ensures |r| == if s == [] then 0 else |s| - 1
    ensures forall i :: 0 <= i < |r| ==> r[i] == (s[i], s[i + 1])
  {
    if s == [] then [] else seq(|s| - 1, i requires 0 <= i < |s| - 1 => (s[i], s[i + 1]))
  }

  // ----- what a drawn line reads as -----------------------------------------------------------------

  lemma {:induction false} WordRunIs(word: string, rest: string)
    requires forall i :: 0 <= i < |word| ==> IsWordChar(word[i])
    requires rest == [] || !IsWordChar(rest[0])
    ensures WordRun(word + rest) == |word|
  {
    if word == [] {
      assert word + rest == rest;
    } else {
      assert (word + rest)[1..] == word[1..] + rest;
      WordRunIs(word[1..], rest);
    }
  }

  lemma WordTrims(word: string)
    requires IsWord(word)
    ensures Trim(word) && OneLine(word) && '-' !in word && '.' !in word && '%' !in word && '\n' !in word
  {
    assert IsWordChar(word[0]) && IsWordChar(word[|word| - 1]);
    assert forall i :: 0 <= i < |word| ==> IsWordChar(word[i]);
  }

  predicate IsLabel(s: string) {
    s != [] && '"' !in s && OneLine(s)
  }

  lemma LStripWord(word: string, rest: string)
    requires IsWord(word)
    ensures LStrip("  " + word + rest) == word + rest
  {
    WordTrims(word);
    LStripInside("  ", word, rest);
  }

  lemma LabelReads(text: string)
    requires IsLabel(text)
    ensures var body := text + "\"]";
      Find(body, "\"") == Some(|text|) && body[..|text|] == text && body[|text| + 1..] == "]"
        && body[|text| + 2..] == ""
  {
    assert text + "\"]" == text + "\"" + "]";
    FindHere(text, "\"", "]");
  }

  lemma NodeReads(key: string, text: string)
    requires IsWord(key) && IsLabel(text)
    ensures MatchNode("  " + key + "[\"" + text + "\"]") == Some((key, text))
  {
    var rest, body := "[\"" + text + "\"]", text + "\"]";
    assert "  " + key + "[\"" + text + "\"]" == "  " + key + rest;
    LStripWord(key, rest);
    WordRunIs(key, rest);
    assert (key + rest)[|key|..] == rest && (key + rest)[..|key|] == key;
    assert rest[2..] == body && rest[..2] == "[\"";
    LabelReads(text);
  }

  lemma EdgeIsNoNode(left: string, tail: string)
    requires IsWord(left) && tail != [] && tail[0] == ' '
    ensures MatchNode("  " + left + tail) == None
  {
    LStripWord(left, tail);
    WordRunIs(left, tail);
    assert (left + tail)[|left|..] == tail;
  }

  lemma EdgeStrips(left: string, middle: string, right: string)
    requires IsWord(left) && IsWord(right)
    ensures Strip("  " + left + middle + right) == left + middle + right
  {
    var core := left + middle + right;
    WordTrims(left);
    WordTrims(right);
    assert core[0] == left[0] && core[|core| - 1] == right[|right| - 1];
    StripBlanks("  ", core, "");
    assert "  " + core + "" == "  " + left + middle + right;
  }

  lemma NoDots(s: string)
    requires '.' !in s
    ensures MatchDotted(s) == None
  {
    if Find(s, "-.").Some? {
      FindIsThere(s, "-.");
    }
  }

  lemma {:induction false} FindIsThere(s: string, what: string)
    requires Find(s, what).Some?
    ensures s[Find(s, what).value..][..|what|] == what
    ensures forall c :: c in what ==> c in s
  {
    if !StartsWith(s, what) {
      FindIsThere(s[1..], what);
      assert s[1..][Find(s[1..], what).value..] == s[Find(s, what).value..];
    } else {
      assert s[0..] == s;
    }
  }

  lemma SplitOnce(before: string, what: string, after: string)
    requires what != [] && what[0] !in before && what[0] !in after
    ensures Split(before + what + after, what) == [before, after]
  {
    var s := before + what + after;
    FindHere(before, what, after);
    FindNowhere(after, what);
    assert s[..|before|] == before && s[|before| + |what|..] == after;
  }

  lemma SolidSplits(left: string, right: string)
    requires IsWord(left) && IsWord(right)
    ensures Split(left + " --> " + right, "-->") == [left + " ", " " + right]
  {
    WordTrims(left);
    WordTrims(right);
    assert left + " --> " + right == (left + " ") + "-->" + (" " + right);
    SplitOnce(left + " ", "-->", " " + right);
  }

  lemma EndsStrip(left: string, right: string)
    requires IsWord(left) && IsWord(right)
    ensures Strip(left + " ") == left && Strip(" " + right) == right
  {
    WordTrims(left);
    WordTrims(right);
    StripBlanks("", left, " ");
    StripBlanks(" ", right, "");
    assert "" + left + " " == left + " " && " " + right + "" == " " + right;
  }

  lemma SolidReads(left: string, right: string)
    requires IsWord(left) && IsWord(right)
    ensures MatchDotted(left + " --> " + right) == None
    ensures Stripped(Split(left + " --> " + right, "-->")) == [left, right]
  {
    WordTrims(left);
    WordTrims(right);
    NoDots(left + " --> " + right);
    SolidSplits(left, right);
    EndsStrip(left, right);
  }

  const CROSSING := "crosses the release order"

  lemma DottedAt(before: string, mid: string, after: string)
    requires '-' !in before && '.' !in mid
    ensures var s := before + "-." + (mid + ".->" + after);
      MatchDotted(s) == Some((before, mid, after)) && AfterDotted(s) == AfterDotted(after)
  {
    var tail := mid + ".->" + after;
    var s := before + "-." + tail;
    FindHere(before, "-.", tail);
    assert s[..|before|] == before && s[|before| + 2..] == tail;
    FindHere(mid, ".->", after);
    assert tail[..|mid|] == mid && tail[|mid| + 3..] == after;
  }

  /** A dotted edge as the diagram draws it. */
  function DottedText(left: string, right: string): string {
    (left + " ") + "-." + ((" " + CROSSING + " ") + ".->" + (" " + right))
  }

  lemma CrossingIsPlain()
    ensures '.' !in " " + CROSSING + " "
  {
  }

  lemma DottedReads(left: string, right: string)
    requires IsWord(left) && IsWord(right)
    ensures MatchDotted(DottedText(left, right)) == Some((left + " ", " " + CROSSING + " ", " " + right))
    ensures AfterDotted(DottedText(left, right)) == " " + right
  {
    WordTrims(left);
    WordTrims(right);
    CrossingIsPlain();
    DottedAt(left + " ", " " + CROSSING + " ", " " + right);
    NoDots(" " + right);
  }

  lemma CrossingStrips()
    ensures Strip(" " + CROSSING + " ") == CROSSING
  {
    StripBlanks(" ", CROSSING, " ");
  }
}
