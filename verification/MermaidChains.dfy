/** A line that draws a chain of edges: what the reader makes of it, and when that is the chain's own edges. */
module MermaidChains {
  import opened Options
  import opened Text
  import opened MermaidText
  import opened Mermaid

  /** One link of a chain, an arrow or a dotted edge with a caption, and the node it leads to. */
  datatype Link = Solid(node: string) | Dotted(node: string, caption: string)

  function LinkText(link: Link): string {
    match link
    case Solid(node) => " --> " + node
    case Dotted(node, caption) => " -. " + caption + " .-> " + node
  }

  /** A node and the chain of links that leaves it. */
  function ChainText(first: string, links: seq<Link>): string
    decreases |links|
  {
    if links == [] then first else ChainText(first + LinkText(links[0]), links[1..])
  }

  function NodesOf(links: seq<Link>): (nodes: seq<string>)
    ensures |nodes| == |links| && forall i :: 0 <= i < |links| ==> nodes[i] == links[i].node
  {
    seq(|links|, i requires 0 <= i < |links| => links[i].node)
  }

  /** A node key; and a caption in which, between its blanks, no dotted edge ends. */
  predicate IsLink(link: Link) {
    IsWord(link.node) && (link.Dotted? ==> Find(" " + link.caption + " ", ".->") == None)
  }

  predicate AreLinks(links: seq<Link>) {
    forall i :: 0 <= i < |links| ==> IsLink(links[i])
  }

  predicate AllSolid(links: seq<Link>) {
    forall i :: 0 <= i < |links| ==> links[i].Solid?
  }

  /** The graph with each link of the chain as an edge from the node before it. */
  function WithChain(g: ParsedGraph, first: string, links: seq<Link>): ParsedGraph
    decreases |links|
  {
    if links == [] then g
    else WithChain(WithLink(g, first, links[0]), links[0].node, links[1..])
  }

  function WithLink(g: ParsedGraph, first: string, link: Link): (h: ParsedGraph)
    ensures |h.solid| + |h.dotted| == |g.solid| + |g.dotted| + 1
  {
    match link
    case Solid(node) => g.(solid := g.solid + [(first, node)])
    case Dotted(node, caption) => g.(dotted := g.dotted + [(first, node, Strip(caption))])
  }

  function FirstDotted(links: seq<Link>): (k: nat)
    requires !AllSolid(links)
    ensures k < |links| && links[k].Dotted? && AllSolid(links[..k])
  {
    if links[0].Dotted? then 0 else 1 + FirstDotted(links[1..])
  }

  function LastDotted(links: seq<Link>): (k: nat)
    requires !AllSolid(links)
    ensures k < |links| && links[k].Dotted? && AllSolid(links[k + 1..])
  {
    if AllSolid(links[1..]) then 0 else 1 + LastDotted(links[1..])
  }

  // ----- where the links begin and end --------------------------------------------------------

  /** No dotted edge can begin in lead, whatever follows it. */
  predicate Quiet(lead: string) {
    forall i :: 0 <= i < |lead| && lead[i] == '-' ==> i + 1 < |lead| && lead[i + 1] != '.'
  }

  lemma {:induction false} QuietSkips(lead: string, rest: string)
    requires Quiet(lead)
    ensures Find(lead + rest, "-.") == match Find(rest, "-.") case None => None case Some(i) => Some(|lead| + i)
  {
    if lead == [] {
      assert lead + rest == rest;
    } else {
      var s := lead + rest;
      assert s[1..] == lead[1..] + rest;
      assert s[0] == lead[0] && (|lead| > 1 ==> s[1] == lead[1]);
      NoDottedHere(s, lead);
      QuietSkips(lead[1..], rest);
    }
  }

  lemma NoDottedHere(s: string, lead: string)
    requires Quiet(lead) && lead != [] && lead <= s
    ensures !StartsWith(s, "-.")
  {
    if |s| >= 2 {
      assert s[..2] == [s[0], s[1]] && s[0] == lead[0];
    }
  }

  lemma {:induction false} CaptionEnds(text: string, after: string)
    requires text != [] && text[|text| - 1] == ' ' && Find(text, ".->") == None
    ensures Find(text + ".->" + after, ".->") == Some(|text|)
  {
    var s := text + ".->" + after;
    NoEndHere(text, after);
    if |text| == 1 {
      assert s[1..] == ".->" + after && s[1..][..3] == ".->";
    } else {
      assert s[1..] == text[1..] + ".->" + after;
      CaptionEnds(text[1..], after);
    }
  }

  lemma NoEndHere(text: string, after: string)
    requires text != [] && text[|text| - 1] == ' ' && !StartsWith(text, ".->")
    ensures !StartsWith(text + ".->" + after, ".->")
  {
    var s := text + ".->" + after;
    if |text| >= 3 {
      assert s[..3] == text[..3];
    } else {
      assert s[..3][|text| - 1] == ' ' && ' ' !in ".->";
    }
  }

  lemma CaptionCut(text: string, after: string)
    requires text != [] && text[|text| - 1] == ' ' && Find(text, ".->") == None
    ensures var tail := text + ".->" + after;
      Find(tail, ".->") == Some(|text|) && tail[..|text|] == text && tail[|text| + 3..] == after
  {
    CaptionEnds(text, after);
  }

  lemma DottedBegins(before: string, tail: string)
    requires Quiet(before)
    ensures var s := before + "-." + tail;
      Find(s, "-.") == Some(|before|) && s[..|before|] == before && s[|before| + 2..] == tail
  {
    assert before + "-." + tail == before + ("-." + tail);
    assert ("-." + tail)[..2] == "-.";
    QuietSkips(before, "-." + tail);
  }

  /** The first link of a line is dotted: it is read with all before it and all after it. */
  lemma DottedFirst(lead: string, text: string, after: string)
    requires Quiet(lead) && text != [] && text[|text| - 1] == ' ' && Find(text, ".->") == None
    ensures MatchDotted((lead + " ") + "-." + (text + ".->" + after)) == Some((lead + " ", text, after))
  {
    QuietJoins(lead, " ");
    DottedBegins(lead + " ", text + ".->" + after);
    CaptionCut(text, after);
  }

  lemma {:induction false} ChainTextJoins(a: string, b: string, links: seq<Link>)
    ensures ChainText(a + b, links) == a + ChainText(b, links)
    decreases |links|
  {
    if links != [] {
      assert a + b + LinkText(links[0]) == a + (b + LinkText(links[0]));
      ChainTextJoins(a, b + LinkText(links[0]), links[1..]);
    }
  }

  lemma SolidIsQuiet(lead: string, node: string)
    requires Quiet(lead) && IsWord(node)
    ensures Quiet(lead + LinkText(Solid(node)))
  {
    WordTrims(node);
    assert Quiet(" --> ") && Quiet(node);
    QuietJoins(" --> ", node);
    QuietJoins(lead, " --> " + node);
  }

  lemma QuietJoins(a: string, b: string)
    requires Quiet(a) && Quiet(b)
    ensures Quiet(a + b)
  {
  }

  /** What is left of a chain whose first link is dotted. */
  lemma DottedSplits(lead: string, links: seq<Link>)
    requires Quiet(lead) && AreLinks(links) && links != [] && links[0].Dotted?
    ensures MatchDotted(ChainText(lead, links)) ==
      Some((lead + " ", " " + links[0].caption + " ", ChainText(" " + links[0].node, links[1..])))
  {
    var node, text := links[0].node, " " + links[0].caption + " ";
    DottedLinkText(lead, links[0]);
    ChainTextJoins(lead + " -." + text + ".->", " " + node, links[1..]);
    Regroup(lead, text, ChainText(" " + node, links[1..]));
    DottedFirst(lead, text, ChainText(" " + node, links[1..]));
  }

  lemma DottedLinkText(lead: string, link: Link)
    requires link.Dotted?
    ensures lead + LinkText(link) == (lead + " -." + (" " + link.caption + " ") + ".->") + (" " + link.node)
  {
  }

  lemma Regroup(lead: string, text: string, after: string)
    ensures (lead + " -." + text + ".->") + after == (lead + " ") + "-." + (text + ".->" + after)
  {
  }

  /** A chain whose first link is an arrow is the first node, the arrow and the rest of the chain. */
  lemma ArrowText(lead: string, links: seq<Link>)
    requires links != [] && links[0].Solid?
    ensures ChainText(lead, links) == lead + " -->" + ChainText(" " + links[0].node, links[1..])
  {
    assert lead + LinkText(links[0]) == lead + " -->" + (" " + links[0].node);
    ChainTextJoins(lead + " -->", " " + links[0].node, links[1..]);
  }

  lemma {:induction false} FirstMatch(lead: string, links: seq<Link>)
    requires Quiet(lead) && AreLinks(links)
    ensures AllSolid(links) ==> MatchDotted(ChainText(lead, links)) == None
    ensures !AllSolid(links) ==>
      var m, k := MatchDotted(ChainText(lead, links)), FirstDotted(links);
      m.Some? && m.value.0 == ChainText(lead, links[..k]) + " " && m.value.1 == " " + links[k].caption + " "
    decreases |links|
  {
    if links == [] {
      QuietSkips(lead, "");
      assert lead + "" == lead;
    } else if links[0].Dotted? {
      DottedSplits(lead, links);
    } else {
      SolidIsQuiet(lead, links[0].node);
      FirstMatch(lead + LinkText(links[0]), links[1..]);
      if !AllSolid(links[1..]) {
        var k := FirstDotted(links);
        assert links[..k][1..] == links[1..][..k - 1] && links[1..][k - 1] == links[k];
      }
    }
  }

  lemma NothingAfter(lead: string, links: seq<Link>)
    requires Quiet(lead) && AreLinks(links) && AllSolid(links)
    ensures AfterDotted(ChainText(lead, links)) == ChainText(lead, links)
  {
    FirstMatch(lead, links);
  }

  lemma DottedAfter(lead: string, links: seq<Link>)
    requires Quiet(lead) && AreLinks(links) && links != [] && links[0].Dotted?
    ensures AfterDotted(ChainText(lead, links)) == AfterDotted(ChainText(" " + links[0].node, links[1..]))
  {
    DottedSplits(lead, links);
  }

  /** What stands after the last dotted link. */
  function LastEnd(links: seq<Link>): string
    requires !AllSolid(links)
  {
    ChainText(" " + links[LastDotted(links)].node, links[LastDotted(links) + 1..])
  }

  lemma LastEndStays(links: seq<Link>)
    requires links != [] && !AllSolid(links[1..])
    ensures !AllSolid(links) && LastEnd(links) == LastEnd(links[1..])
  {
    var k := LastDotted(links[1..]);
    assert links[1..][k] == links[k + 1] && links[1..][k + 1..] == links[k + 2..];
  }

  lemma {:induction false} AfterLast(lead: string, links: seq<Link>)
    requires Quiet(lead) && AreLinks(links) && !AllSolid(links)
    ensures AfterDotted(ChainText(lead, links)) == LastEnd(links)
    decreases |links|
  {
    if links[0].Solid? {
      SolidIsQuiet(lead, links[0].node);
      AfterLast(lead + LinkText(links[0]), links[1..]);
      LastEndStays(links);
    } else {
      DottedAfter(lead, links);
      WordIsQuiet(links[0].node);
      if AllSolid(links[1..]) {
        NothingAfter(" " + links[0].node, links[1..]);
      } else {
        AfterLast(" " + links[0].node, links[1..]);
        LastEndStays(links);
      }
    }
  }

  lemma WordIsQuiet(word: string)
    requires IsWord(word)
    ensures Quiet(word) && Quiet(" " + word)
  {
    WordTrims(word);
    assert '-' !in " " + word;
  }

  // ----- the ends of a chain ---------------------------------------------------------------------

  lemma {:induction false} ChainTrims(lead: string, links: seq<Link>)
    requires Trim(lead) && AreLinks(links)
    ensures Trim(ChainText(lead, links))
    decreases |links|
  {
    if links != [] {
      var node := links[0].node;
      WordTrims(node);
      var s := lead + LinkText(links[0]);
      assert s[0] == lead[0] && s[|s| - 1] == node[|node| - 1];
      ChainTrims(s, links[1..]);
    }
  }

  lemma ChainStrips(first: string, links: seq<Link>)
    requires IsWord(first) && AreLinks(links)
    ensures Strip("  " + ChainText(first, links)) == ChainText(first, links)
    ensures Strip(" " + ChainText(first, links)) == ChainText(first, links)
    ensures Strip(ChainText(first, links) + " ") == ChainText(first, links)
  {
    var s := ChainText(first, links);
    WordTrims(first);
    ChainTrims(first, links);
    StripBlanks("  ", s, "");
    StripBlanks(" ", s, "");
    StripBlanks("", s, " ");
    assert "  " + s + "" == "  " + s && " " + s + "" == " " + s && "" + s + " " == s + " ";
  }

  lemma CaptionStrips(caption: string)
    ensures Strip(" " + caption + " ") == Strip(caption)
  {
    assert (" " + caption + " ")[1..] == caption + " ";
    LStripKeepsEnd(caption);
  }

  lemma {:induction false} LStripKeepsEnd(s: string)
    ensures RStrip(LStrip(s + " ")) == RStrip(LStrip(s))
  {
    if s == [] {
      assert s + " " == " " && " "[1..] == "";
    } else if IsSpace(s[0]) {
      assert (s + " ")[1..] == s[1..] + " ";
      LStripKeepsEnd(s[1..]);
    } else {
      assert (s + " ")[..|s|] == s;
    }
  }

  /** A chain with a link is no node line, and is passed over exactly when its first key begins with graph. */
  lemma ChainIsLine(first: string, links: seq<Link>)
    requires IsWord(first) && AreLinks(links) && links != []
    ensures MatchNode("  " + ChainText(first, links)) == None
    ensures Ignored(ChainText(first, links)) <==> StartsWith(first, "graph")
  {
    var tail := ChainText("", links);
    ChainTextJoins(first, "", links);
    assert first + "" == first;
    ChainTextJoins(LinkText(links[0]), "", links[1..]);
    assert "" + LinkText(links[0]) == LinkText(links[0]) + "" == LinkText(links[0]);
    assert tail[0] == LinkText(links[0])[0] == ' ';
    assert "  " + first + tail == "  " + ChainText(first, links);
    EdgeIsNoNode(first, tail);
    SourceDecides(first, tail);
  }

  // ----- arrows only -----------------------------------------------------------------------------

  lemma SplitStep(blank: string, word: string, rest: string)
    requires (blank == "" || blank == " ") && IsWord(word)
    ensures Split(blank + word + " -->" + rest, "-->") == [blank + word + " "] + Split(rest, "-->")
  {
    WordTrims(word);
    var before := blank + word + " ";
    assert blank + word + " -->" + rest == before + "-->" + rest;
    FindHere(before, "-->", rest);
    var s := before + "-->" + rest;
    assert s[..|before|] == before && s[|before| + 3..] == rest;
  }

  lemma WordSplits(blank: string, word: string)
    requires (blank == "" || blank == " ") && IsWord(word)
    ensures Stripped(Split(blank + word, "-->")) == [word] && Strip(blank + word + " ") == word
  {
    WordTrims(word);
    FindNowhere(blank + word, "-->");
    StripBlanks(blank, word, "");
    StripBlanks(blank, word, " ");
    assert blank + word + "" == blank + word;
  }

  lemma NodesCons(links: seq<Link>)
    requires links != []
    ensures NodesOf(links) == [links[0].node] + NodesOf(links[1..])
  {
  }

  lemma StrippedCons(part: string, parts: seq<string>)
    ensures Stripped([part] + parts) == [Strip(part)] + Stripped(parts)
  {
  }

  lemma {:induction false} ArrowsSplit(blank: string, word: string, links: seq<Link>)
    requires (blank == "" || blank == " ") && IsWord(word) && AreLinks(links) && AllSolid(links)
    ensures Stripped(Split(ChainText(blank + word, links), "-->")) == [word] + NodesOf(links)
    decreases |links|
  {
    WordSplits(blank, word);
    if links != [] {
      var rest := ChainText(" " + links[0].node, links[1..]);
      ArrowText(blank + word, links);
      SplitStep(blank, word, rest);
      StrippedCons(blank + word + " ", Split(rest, "-->"));
      ArrowsSplit(" ", links[0].node, links[1..]);
      NodesCons(links);
    }
  }

  lemma PairsCons(a: string, b: string, rest: seq<string>)
    ensures Pairs([a] + ([b] + rest)) == [(a, b)] + Pairs([b] + rest)
  {
    var tail := [b] + rest;
    var all, pairs := Pairs([a] + tail), [(a, b)] + Pairs(tail);
    forall i | 0 <= i < |all| ensures all[i] == pairs[i] {
      assert all[i] == (([a] + tail)[i], tail[i]);
    }
  }

  lemma {:induction false} ArrowsAre(g: ParsedGraph, first: string, links: seq<Link>)
    requires AllSolid(links)
    ensures WithChain(g, first, links) == AddSolid(g, Pairs([first] + NodesOf(links)))
    decreases |links|
  {
    if links == [] {
      assert g.solid + Pairs([first]) == g.solid;
    } else {
      var node := links[0].node;
      ArrowsAre(AddSolid(g, [(first, node)]), node, links[1..]);
      NodesCons(links);
      PairsCons(first, node, NodesOf(links[1..]));
      AddTwice(g, [(first, node)], Pairs([node] + NodesOf(links[1..])));
    }
  }

  // ----- reading a chain ---------------------------------------------------------------------------

  /** The one edge a line with a dotted link is read as: from all that stands before the first dotted link to all that
      stands after the last one, under the caption of the first. */
  function OneEdge(first: string, links: seq<Link>): (string, string, string)
    requires !AllSolid(links)
  {
    var k, m := FirstDotted(links), LastDotted(links);
    (ChainText(first, links[..k]), ChainText(links[m].node, links[m + 1..]), Strip(links[k].caption))
  }

  lemma DottedRead(first: string, links: seq<Link>)
    requires IsWord(first) && AreLinks(links) && !AllSolid(links)
    ensures var s := ChainText(first, links); var m := MatchDotted(s);
      m.Some? && (Strip(m.value.0), Strip(AfterDotted(s)), Strip(m.value.1)) == OneEdge(first, links)
  {
    var k, m := FirstDotted(links), LastDotted(links);
    WordIsQuiet(first);
    FirstMatch(first, links);
    AfterLast(first, links);
    ChainStrips(first, links[..k]);
    ChainStrips(links[m].node, links[m + 1..]);
    ChainTextJoins(" ", links[m].node, links[m + 1..]);
    CaptionStrips(links[k].caption);
  }

  lemma ArrowIsThere(first: string, links: seq<Link>)
    requires IsWord(first) && AreLinks(links) && links != [] && AllSolid(links)
    ensures Find(ChainText(first, links), "-->").Some?
  {
    var rest := ChainText(" " + links[0].node, links[1..]);
    WordTrims(first);
    ArrowText(first, links);
    assert first + " -->" + rest == (first + " ") + "-->" + rest;
    FindHere(first + " ", "-->", rest);
  }

  /** What a line with a chain of any length, of links of either kind, is read as. */
  lemma ChainRead(g: ParsedGraph, first: string, links: seq<Link>)
    requires IsWord(first) && AreLinks(links) && links != []
    ensures ReadLine(g, "  " + ChainText(first, links)) ==
      if StartsWith(first, "graph") then g
      else if AllSolid(links) then WithChain(g, first, links)
      else g.(dotted := g.dotted + [OneEdge(first, links)])
  {
    ChainIsLine(first, links);
    ChainStrips(first, links);
    if AllSolid(links) {
      WordIsQuiet(first);
      FirstMatch(first, links);
      ArrowIsThere(first, links);
      ArrowsSplit("", first, links);
      assert "" + first == first;
      ArrowsAre(g, first, links);
    } else {
      DottedRead(first, links);
    }
  }

  lemma {:induction false} EveryLinkIsAnEdge(g: ParsedGraph, first: string, links: seq<Link>)
    ensures var h := WithChain(g, first, links); |h.solid| + |h.dotted| == |g.solid| + |g.dotted| + |links|
    decreases |links|
  {
    if links != [] {
      EveryLinkIsAnEdge(WithLink(g, first, links[0]), links[0].node, links[1..]);
    }
  }

  /** A chain line gives back its own edges exactly when its links are arrows throughout or it has one link only, and
      its first key does not begin with graph. */
  lemma ChainComesBackIff(g: ParsedGraph, first: string, links: seq<Link>)
    requires IsWord(first) && AreLinks(links) && links != []
    ensures ReadLine(g, "  " + ChainText(first, links)) == WithChain(g, first, links) <==>
      !StartsWith(first, "graph") && (AllSolid(links) || |links| == 1)
  {
    ChainRead(g, first, links);
    EveryLinkIsAnEdge(g, first, links);
    if !AllSolid(links) && |links| == 1 {
      assert links[..0] == [] && links[1..] == [];
    }
  }

  lemma {:induction false} LastOfAll(links: seq<Link>)
    requires links != [] && forall i :: 0 <= i < |links| ==> links[i].Dotted?
    ensures !AllSolid(links) && FirstDotted(links) == 0 && LastDotted(links) == |links| - 1
  {
    assert links[0].Dotted?;
    if |links| > 1 {
      LastOfAll(links[1..]);
    }
  }

  /** A chain of dotted links, however long, is read as one edge from its first node to its last. */
  lemma DottedChainsCollapse(g: ParsedGraph, first: string, links: seq<Link>)
    requires IsWord(first) && AreLinks(links) && !StartsWith(first, "graph")
    requires links != [] && forall i :: 0 <= i < |links| ==> links[i].Dotted?
    ensures ReadLine(g, "  " + ChainText(first, links)) ==
      g.(dotted := g.dotted + [(first, links[|links| - 1].node, Strip(links[0].caption))])
  {
    LastOfAll(links);
    ChainRead(g, first, links);
    assert links[..0] == [] && links[|links|..] == [];
  }
}
