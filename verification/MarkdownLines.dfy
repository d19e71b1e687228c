/** The lines of the text in a block, and where they are found again in what is made of it. */
module MarkdownLines {
  import opened Common
  import opened MarkdownSpec
  import opened MarkdownText
  import opened SplitterSpec

  function Lines(text: string): seq<string> {
    PySplit(text, "\n")
  }

  // ------------------------------------------------------------------
  // Lines found in order
  // ------------------------------------------------------------------

  /** The lines occur in the content one after the other, without overlapping. */
  ghost predicate InOrder(content: string, lines: seq<string>)
    decreases |lines|
  {
    lines == []
    || exists i: nat :: OccursAt(content, lines[0], i) && InOrder(content[i + |lines[0]|..], lines[1..])
  }

  lemma {:induction false} Found(content: string, before: string, after: string, lines: seq<string>)
    requires lines != [] && content == before + lines[0] + after && InOrder(after, lines[1..])
    ensures InOrder(content, lines)
  {
    var i := |before|;
    assert content[i..i + |lines[0]|] == lines[0];
    assert content[i + |lines[0]|..] == after;
    assert OccursAt(content, lines[0], i);
  }

  /** The text before the first line, and the text after it. */
  lemma {:induction false} First(content: string, lines: seq<string>) returns (before: string, after: string)
    requires lines != [] && InOrder(content, lines)
    ensures content == before + lines[0] + after && InOrder(after, lines[1..])
  {
    var i: nat :| OccursAt(content, lines[0], i) && InOrder(content[i + |lines[0]|..], lines[1..]);
    before, after := content[..i], content[i + |lines[0]|..];
    assert content[i..i + |lines[0]|] == lines[0];
  }

  /** More text around leaves the lines in order. */
  lemma {:induction false} InOrderInside(before: string, content: string, after: string, lines: seq<string>)
    requires InOrder(content, lines)
    ensures InOrder(before + content + after, lines)
    decreases |lines|
  {
    if lines != [] {
      var x, y := First(content, lines);
      InOrderInside("", y, after, lines[1..]);
      assert "" + y + after == y + after;
      assert before + content + after == before + x + lines[0] + (y + after);
      Found(before + content + after, before + x, y + after, lines);
    }
  }

  lemma {:induction false} InOrderConcat(a: string, x: seq<string>, b: string, y: seq<string>)
    requires InOrder(a, x) && InOrder(b, y)
    ensures InOrder(a + b, x + y)
    decreases |x|
  {
    if x == [] {
      assert x + y == y;
      InOrderInside(a, b, "", y);
      assert a + b + "" == a + b;
    } else {
      var u, v := First(a, x);
      assert (x + y)[1..] == x[1..] + y;
      InOrderConcat(v, x[1..], b, y);
      assert a + b == u + x[0] + (v + b);
      Found(a + b, u, v + b, x + y);
    }
  }

  // ------------------------------------------------------------------
  // Replacing characters
  // ------------------------------------------------------------------

  lemma {:induction false} ReplaceConcat(a: string, b: string, c: char, into: string)
    ensures Replace(a + b, c, into) == Replace(a, c, into) + Replace(b, c, into)
  {
    if a == "" {
      assert a + b == b;
    } else {
      assert (a + b)[1..] == a[1..] + b;
      ReplaceConcat(a[1..], b, c, into);
    }
  }

  lemma {:induction false} ReplaceNone(s: string, c: char, into: string)
    requires c !in s
    ensures Replace(s, c, into) == s
  {
    if s != "" {
      ReplaceNone(s[1..], c, into);
    }
  }

  function ReplaceAll(lines: seq<string>, c: char, into: string): seq<string> {
    if lines == [] then [] else [Replace(lines[0], c, into)] + ReplaceAll(lines[1..], c, into)
  }

  lemma {:induction false} ReplaceInOrder(content: string, lines: seq<string>, c: char, into: string)
    requires InOrder(content, lines)
    ensures InOrder(Replace(content, c, into), ReplaceAll(lines, c, into))
    decreases |lines|
  {
    if lines != [] {
      var x, y := First(content, lines);
      ReplaceInOrder(y, lines[1..], c, into);
      ReplaceConcat(x + lines[0], y, c, into);
      ReplaceConcat(x, lines[0], c, into);
      var all := ReplaceAll(lines, c, into);
      assert all[1..] == ReplaceAll(lines[1..], c, into);
      Found(Replace(content, c, into), Replace(x, c, into), Replace(y, c, into), all);
    }
  }

  lemma {:induction false} SingleLinesStay(lines: seq<string>, into: string)
    requires SingleLines(lines)
    ensures ReplaceAll(lines, '\n', into) == lines
  {
    if lines != [] {
      ReplaceNone(lines[0], '\n', into);
      SingleLinesStay(lines[1..], into);
    }
  }

  lemma {:induction false} NewlineReplaced(into: string)
    ensures Replace("\n", '\n', into) == into
  {
    assert "\n"[1..] == "" && Replace("", '\n', into) == "";
  }

  lemma {:induction false} JoinCons(line: string, lines: seq<string>)
    requires lines != []
    ensures JoinWith("\n", [line] + lines) == line + "\n" + JoinWith("\n", lines)
  {
    assert ([line] + lines)[1..] == lines;
  }

  lemma {:induction false} ReplaceFirstLine(first: string, rest: string, into: string)
    requires '\n' !in first
    ensures Replace(first + "\n" + rest, '\n', into) == first + into + Replace(rest, '\n', into)
  {
    ReplaceConcat(first + "\n", rest, '\n', into);
    ReplaceConcat(first, "\n", '\n', into);
    ReplaceNone(first, '\n', into);
    NewlineReplaced(into);
  }

  lemma {:induction false} PrefixCons(prefix: string, lines: seq<string>)
    requires lines != []
    ensures PrefixAll(prefix, lines) == [prefix + lines[0]] + PrefixAll(prefix, lines[1..])
  {
  }

  /** The first line and the rest. */
  lemma {:induction false} SplitFirst(content: string) returns (first: string, rest: string)
    requires Find(content, "\n", 0) >= 0
    ensures content == first + "\n" + rest && '\n' !in first && Lines(content) == [first] + Lines(rest)
    ensures |rest| < |content|
  {
    var i := Find(content, "\n", 0);
    FindHits(content, "\n", 0);
    LineWithoutEnd(content, i);
    first, rest := content[..i], content[i + 1..];
  }

  /** The lines, the first with `head` and the others with `prefix` before them, are the content with
      the prefix after each line end. */
  lemma {:induction false} PrefixIsReplace(head: string, prefix: string, content: string)
    ensures var lines := Lines(content);
      JoinWith("\n", [head + lines[0]] + PrefixAll(prefix, lines[1..]))
      == head + Replace(content, '\n', "\n" + prefix)
    decreases |content|
  {
    if Find(content, "\n", 0) < 0 {
      FindHits(content, "\n", 0);
      LineWithoutEnd(content, |content|);
      ReplaceNone(content, '\n', "\n" + prefix);
      assert Lines(content)[1..] == [];
    } else {
      var first, rest := SplitFirst(content);
      var more := PrefixAll(prefix, Lines(rest));
      assert Lines(content)[1..] == Lines(rest);
      PrefixIsReplace(prefix, prefix, rest);
      PrefixCons(prefix, Lines(rest));
      JoinCons(head + first, more);
      ReplaceFirstLine(first, rest, "\n" + prefix);
      Around(head, first, prefix, Replace(rest, '\n', "\n" + prefix));
    }
  }

  lemma {:induction false} Around(head: string, first: string, prefix: string, more: string)
    ensures head + first + "\n" + (prefix + more) == head + (first + ("\n" + prefix) + more)
  {
  }

  /** Before the first line end there is none. */
  lemma {:induction false} LineWithoutEnd(content: string, n: nat)
    requires n <= |content| && forall j: nat | j < n :: !OccursAt(content, "\n", j)
    ensures '\n' !in content[..n] && (n == |content| ==> '\n' !in content)
  {
    forall j: nat | j < n ensures content[j] != '\n' {
      assert content[j..j + 1] == [content[j]];
      assert !OccursAt(content, "\n", j);
    }
    assert n == |content| ==> content[..n] == content;
  }

  /** Prefixing and marking the lines of a part leaves the lines inside it in order. */
  lemma {:induction false} MarkedInOrder(head: string, prefix: string, content: string, lines: seq<string>)
    requires InOrder(content, lines) && SingleLines(lines)
    ensures InOrder(JoinWith("\n", [head + Lines(content)[0]] + PrefixAll(prefix, Lines(content)[1..])), lines)
  {
    PrefixIsReplace(head, prefix, content);
    ReplaceInOrder(content, lines, '\n', "\n" + prefix);
    SingleLinesStay(lines, "\n" + prefix);
    var replaced := Replace(content, '\n', "\n" + prefix);
    InOrderInside(head, replaced, "", lines);
    assert head + replaced + "" == head + replaced;
  }

  lemma {:induction false} PrefixedInOrder(prefix: string, content: string, lines: seq<string>)
    requires InOrder(content, lines) && SingleLines(lines)
    ensures InOrder(PrefixLines(prefix, content), lines)
  {
    MarkedInOrder(prefix, prefix, content, lines);
  }

  function EscapeAll(lines: seq<string>): seq<string> {
    if lines == [] then [] else [EscapeCell(lines[0])] + EscapeAll(lines[1..])
  }

  lemma {:induction false} EscapeAllIsReplaceAll(lines: seq<string>)
    ensures EscapeAll(lines)
         == ReplaceAll(ReplaceAll(ReplaceAll(lines, '|', "\\|"), '\r', ""), '\n', "<br>")
  {
    if lines != [] {
      EscapeAllIsReplaceAll(lines[1..]);
      var bars := ReplaceAll(lines, '|', "\\|");
      var returns0 := ReplaceAll(bars, '\r', "");
      assert bars[1..] == ReplaceAll(lines[1..], '|', "\\|");
      assert returns0[1..] == ReplaceAll(bars[1..], '\r', "");
    }
  }

  lemma {:induction false} EscapedInOrder(content: string, lines: seq<string>)
    requires InOrder(content, lines)
    ensures InOrder(EscapeCell(content), EscapeAll(lines))
  {
    ReplaceInOrder(content, lines, '|', "\\|");
    var bars, barLines := Replace(content, '|', "\\|"), ReplaceAll(lines, '|', "\\|");
    ReplaceInOrder(bars, barLines, '\r', "");
    ReplaceInOrder(Replace(bars, '\r', ""), ReplaceAll(barLines, '\r', ""), '\n', "<br>");
    EscapeAllIsReplaceAll(lines);
  }

  lemma {:induction false} EscapedAreSingle(lines: seq<string>)
    ensures SingleLines(EscapeAll(lines)) && |EscapeAll(lines)| == |lines|
  {
    if lines != [] {
      CellStaysInPlace(lines[0]);
      EscapedAreSingle(lines[1..]);
    }
  }

  lemma {:induction false} EscapeAllConcat(x: seq<string>, y: seq<string>)
    ensures EscapeAll(x + y) == EscapeAll(x) + EscapeAll(y)
  {
    if x == [] {
      assert x + y == y;
    } else {
      assert (x + y)[1..] == x[1..] + y;
      EscapeAllConcat(x[1..], y);
    }
  }

  // ------------------------------------------------------------------
  // The lines of the leaves of a block
  // ------------------------------------------------------------------

  lemma {:induction false} FoundFirst(first: string, after: string, lines: seq<string>)
    requires InOrder(after, lines)
    ensures InOrder(first + after, [first] + lines)
  {
    assert ([first] + lines)[1..] == lines;
    assert first + after == "" + first + after;
    Found(first + after, "", after, [first] + lines);
  }

  /** The lines of a text are in the text in order. */
  lemma {:induction false} LinesInOrder(text: string)
    ensures InOrder(text, Lines(text))
    decreases |text|
  {
    if Find(text, "\n", 0) < 0 {
      FoundFirst(text, "", []);
      assert text + "" == text && [text] + [] == [text];
    } else {
      var first, rest := SplitFirst(text);
      LinesInOrder(rest);
      InOrderInside("\n", rest, "", Lines(rest));
      assert "\n" + rest + "" == "\n" + rest;
      FoundFirst(first, "\n" + rest, Lines(rest));
      Associate(first, "\n", rest);
    }
  }

  function LinesOfAll(texts: seq<string>): seq<string> {
    if texts == [] then [] else Lines(texts[0]) + LinesOfAll(texts[1..])
  }

  /** The texts a leaf has to show. */
  function TextsOf(token: Token): seq<string> {
    match token.ttype
    case Hr => [token.markup]
    case CodeBlock => [Strip(token.content)]
    case Fence => [token.info, Strip(token.content)]
    case Definition => [token.linkLabel, token.url, token.title]
    case Inline => [token.content]
    case HtmlBlock => [token.content]
    case _ => if token.content != "" then [token.content] else []
  }

  function LinesUnder(block: Block): seq<string> {
    match block
    case Leaf(token) => LinesOfAll(TextsOf(token))
    case Node(open, children, close) =>
      if !open.ttype.Open? then []
      else match open.ttype.kind
        case Thead => if children != [] && IsRow(children[0]) then LinesUnder(children[0]) else []
        case Tr => EscapeAll(LinesUnderAll(children))
        case _ => LinesUnderAll(children)
  }

  /** The lines of the leaves below, in order: those in a row of a table are escaped, and of a table
      head only the first row counts. */
  function LinesUnderAll(blocks: seq<Block>): seq<string> {
    if blocks == [] then [] else LinesUnder(blocks[0]) + LinesUnderAll(blocks[1..])
  }

  predicate IsRow(block: Block) {
    block.Node? && block.open.ttype == Open(Tr)
  }

  lemma {:induction false} SingleLinesConcat(x: seq<string>, y: seq<string>)
    requires SingleLines(x) && SingleLines(y)
    ensures SingleLines(x + y)
  {
    if x == [] {
      assert x + y == y;
    } else {
      assert (x + y)[1..] == x[1..] + y;
      SingleLinesConcat(x[1..], y);
    }
  }

  lemma {:induction false} LinesOfAllSingle(texts: seq<string>)
    ensures SingleLines(LinesOfAll(texts))
  {
    if texts != [] {
      SplitIsSingleLines(texts[0]);
      LinesOfAllSingle(texts[1..]);
      SingleLinesConcat(Lines(texts[0]), LinesOfAll(texts[1..]));
    }
  }

  lemma {:induction false} LinesUnderSingle(block: Block)
    ensures SingleLines(LinesUnder(block))
    decreases block, 0
  {
    match block
    case Leaf(token) => LinesOfAllSingle(TextsOf(token));
    case Node(open, children, close) =>
      AllSingle(children);
      EscapedAreSingle(LinesUnderAll(children));
      if children != [] {
        LinesUnderSingle(children[0]);
      }
  }

  lemma {:induction false} AllSingle(blocks: seq<Block>)
    ensures SingleLines(LinesUnderAll(blocks))
    decreases blocks, 0
  {
    if blocks != [] {
      LinesUnderSingle(blocks[0]);
      AllSingle(blocks[1..]);
      SingleLinesConcat(LinesUnder(blocks[0]), LinesUnderAll(blocks[1..]));
    }
  }

  // ------------------------------------------------------------------
  // Parts that show lines
  // ------------------------------------------------------------------

  /** The lines divide among the parts, in order, and each part shows its own. */
  ghost predicate Show(parts: seq<Part>, lines: seq<string>)
    decreases |parts|
  {
    if parts == [] then lines == []
    else exists n | 0 <= n <= |lines| :: InOrder(parts[0].content, lines[..n]) && Show(parts[1..], lines[n..])
  }

  lemma {:induction false} ShowCons(part: Part, x: seq<string>, parts: seq<Part>, y: seq<string>)
    requires InOrder(part.content, x) && Show(parts, y)
    ensures Show([part] + parts, x + y)
  {
    assert ([part] + parts)[1..] == parts;
    assert (x + y)[..|x|] == x && (x + y)[|x|..] == y;
  }

  lemma {:induction false} ShowOne(part: Part, lines: seq<string>)
    ensures Show([part], lines) <==> InOrder(part.content, lines)
  {
    assert [part][1..] == [];
    if InOrder(part.content, lines) {
      ShowCons(part, lines, [], []);
      assert [part] + [] == [part] && lines + [] == lines;
    }
    if Show([part], lines) {
      assert lines[..|lines|] == lines;
    }
  }

  /** The lines of the first part, and those of the others. */
  lemma {:induction false} ShowSplit(parts: seq<Part>, lines: seq<string>) returns (x: seq<string>, y: seq<string>)
    requires parts != [] && Show(parts, lines)
    ensures lines == x + y && InOrder(parts[0].content, x) && Show(parts[1..], y)
  {
    var n :| 0 <= n <= |lines| && InOrder(parts[0].content, lines[..n]) && Show(parts[1..], lines[n..]);
    x, y := lines[..n], lines[n..];
  }

  lemma {:induction false} ConsAppend<T>(a: seq<T>, b: seq<T>)
    requires a != []
    ensures [a[0]] + (a[1..] + b) == a + b
  {
  }

  lemma {:induction false} ShowConcat(a: seq<Part>, x: seq<string>, b: seq<Part>, y: seq<string>)
    requires Show(a, x) && Show(b, y)
    ensures Show(a + b, x + y)
    decreases |a|
  {
    if a == [] {
      assert a + b == b && x + y == y;
    } else {
      var u, v := ShowSplit(a, x);
      ShowConcat(a[1..], v, b, y);
      ShowCons(a[0], u, a[1..] + b, v + y);
      ConsAppend(a, b);
      Associate(u, v, y);
    }
  }

  lemma {:induction false} SingleLinesIff(lines: seq<string>)
    ensures SingleLines(lines) <==> forall k | 0 <= k < |lines| :: '\n' !in lines[k]
  {
    if lines != [] {
      SingleLinesIff(lines[1..]);
      assert forall k | 0 < k < |lines| :: lines[k] == lines[1..][k - 1];
    }
  }

  lemma {:induction false} SingleLinesParts(x: seq<string>, y: seq<string>)
    requires SingleLines(x + y)
    ensures SingleLines(x) && SingleLines(y)
  {
    SingleLinesIff(x + y);
    SingleLinesIff(x);
    SingleLinesIff(y);
    assert forall k | 0 <= k < |x| :: (x + y)[k] == x[k];
    assert forall k | 0 <= k < |y| :: (x + y)[|x| + k] == y[k];
  }

  lemma {:induction false} QuotedShow(markup: string, parts: seq<Part>, lines: seq<string>)
    requires Show(parts, lines) && SingleLines(lines)
    ensures Show(QuoteParts(markup, parts), lines)
    decreases |parts|
  {
    if parts != [] {
      var x, y := ShowSplit(parts, lines);
      var quoted := QuoteParts(markup, parts);
      SingleLinesParts(x, y);
      QuotedShow(markup, parts[1..], y);
      PrefixedInOrder(markup + " ", parts[0].content, x);
      ShowCons(quoted[0], x, QuoteParts(markup, parts[1..]), y);
    }
  }

  lemma {:induction false} IndentedShow(parts: seq<Part>, lines: seq<string>)
    requires Show(parts, lines) && SingleLines(lines)
    ensures Show(IndentParts(parts), lines)
    decreases |parts|
  {
    if parts != [] {
      var x, y := ShowSplit(parts, lines);
      var indented := IndentParts(parts);
      SingleLinesParts(x, y);
      IndentedShow(parts[1..], y);
      PrefixedInOrder("    ", parts[0].content, x);
      ShowCons(indented[0], x, IndentParts(parts[1..]), y);
    }
  }

  lemma {:induction false} ItemShows(token: Token, marker: string, parts: seq<Part>, nesting: nat, lines: seq<string>)
    requires Show(parts, lines) && SingleLines(lines)
    ensures Show(ItemParts(token, marker, parts, nesting), lines)
  {
    var bare := Part(Text, marker, token.lines, Some(nesting), None);
    if parts == [] {
      ShowOne(bare, []);
    } else {
      var x, y := ShowSplit(parts, lines);
      SingleLinesParts(x, y);
      IndentedShow(parts[1..], y);
      if IsText(parts[0]) {
        MarkedInOrder(marker, Repeat(" ", |marker|), parts[0].content, x);
        ShowCons(parts[0].(content := MarkLines(marker, parts[0].content)), x, IndentParts(parts[1..]), y);
      } else {
        UnmarkedShows(bare, parts[0], x, IndentParts(parts[1..]), y);
      }
    }
  }

  lemma {:induction false} UnmarkedShows(
      bare: Part, first: Part, x: seq<string>, more: seq<Part>, y: seq<string>)
    requires InOrder(first.content, x) && Show(more, y)
    ensures Show([bare, first] + more, x + y)
  {
    ShowCons(first, x, more, y);
    ShowCons(bare, [], [first] + more, x + y);
    assert [bare] + ([first] + more) == [bare, first] + more;
    assert [] + (x + y) == x + y;
  }

  lemma {:induction false} JoinedShows(parts: seq<Part>, lines: seq<string>)
    requires Show(parts, lines)
    ensures InOrder(Joined(parts), lines)
    decreases |parts|
  {
    if parts != [] {
      var x, y := ShowSplit(parts, lines);
      JoinedShows(parts[1..], y);
      InOrderConcat(parts[0].content, x, Joined(parts[1..]), y);
    }
  }

  lemma {:induction false} RowsShow(parts: seq<Part>, lines: seq<string>)
    requires Show(parts, lines)
    ensures InOrder(JoinWith("\n", ContentsOf(parts)), lines)
    decreases |parts|
  {
    if parts != [] {
      var x, y := ShowSplit(parts, lines);
      var rest := JoinWith("\n", ContentsOf(parts[1..]));
      if |parts| == 1 {
        assert y == [] && x + [] == x;
      } else {
        RowsShow(parts[1..], y);
        InOrderInside("\n", rest, "", y);
        assert "\n" + rest + "" == "\n" + rest;
        InOrderConcat(parts[0].content, x, "\n" + rest, y);
        Associate(parts[0].content, "\n", rest);
        JoinCons(parts[0].content, ContentsOf(parts[1..]));
      }
    }
  }

  lemma {:induction false} CellsShow(parts: seq<Part>, lines: seq<string>)
    requires Show(parts, lines)
    ensures InOrder(RowText(parts), EscapeAll(lines))
    decreases |parts|
  {
    if parts != [] {
      var x, y := ShowSplit(parts, lines);
      CellsShow(parts[1..], y);
      CellShows(parts[0].content, x, RowText(parts[1..]), y);
    }
  }

  lemma {:induction false} CellShows(content: string, x: seq<string>, rest: string, y: seq<string>)
    requires InOrder(content, x) && InOrder(rest, EscapeAll(y))
    ensures InOrder("| " + EscapeCell(content) + " " + rest, EscapeAll(x + y))
  {
    EscapedInOrder(content, x);
    EscapeAllConcat(x, y);
    InOrderAround("| ", EscapeCell(content), EscapeAll(x), " ", rest, EscapeAll(y), "");
    assert "| " + EscapeCell(content) + " " + rest + "" == "| " + EscapeCell(content) + " " + rest;
  }

  lemma {:induction false} LeafShows(token: Token, nesting: nat)
    ensures Show(LeafPart(token, nesting), LinesUnder(Leaf(token)))
  {
    if LeafPart(token, nesting) != [] {
      var part := LeafPart(token, nesting)[0];
      LeafContentShows(token, nesting);
      ShowOne(part, LinesUnder(Leaf(token)));
    }
  }

  lemma {:induction false} OneText(text: string)
    ensures LinesOfAll([text]) == Lines(text) && InOrder(text, Lines(text))
  {
    assert [text][1..] == [] && Lines(text) + [] == Lines(text);
    LinesInOrder(text);
  }

  lemma {:induction false} LeafContentShows(token: Token, nesting: nat)
    requires LeafPart(token, nesting) != []
    ensures |LeafPart(token, nesting)| == 1
    ensures InOrder(LeafPart(token, nesting)[0].content, LinesUnder(Leaf(token)))
  {
    match token.ttype
    case CodeBlock =>
      OneText(Strip(token.content));
      CodeShows(token.content, "", Lines(Strip(token.content)));
    case Fence =>
      OneText(token.info);
      OneText(Strip(token.content));
      TwoTexts(token.info, Strip(token.content));
      FenceShows(token.content, token.info);
    case Hr => OneText(token.markup);
    case Definition => DefinitionShows(token);
    case _ => OneText(token.content);
  }

  lemma {:induction false} TwoTexts(a: string, b: string)
    ensures LinesOfAll([a, b]) == Lines(a) + Lines(b)
  {
    assert [a, b][1..] == [b];
    OneText(b);
  }

  lemma {:induction false} CodeShows(code: string, lang: string, lines: seq<string>)
    requires InOrder(Strip(code), lines)
    ensures InOrder(CodeContent(code, lang), lines)
  {
    var fence := Backticks(code, "```", 10);
    InOrderInside(fence + lang + "\n", Strip(code), "\n" + fence, lines);
    assert CodeContent(code, lang) == fence + lang + "\n" + Strip(code) + ("\n" + fence);
  }

  lemma {:induction false} InOrderAround(
      before: string, a: string, x: seq<string>, middle: string, b: string, y: seq<string>, after: string)
    requires InOrder(a, x) && InOrder(b, y)
    ensures InOrder(before + a + middle + b + after, x + y)
  {
    InOrderInside(before, a, middle, x);
    InOrderInside("", b, after, y);
    InOrderConcat(before + a + middle, x, "" + b + after, y);
    assert before + a + middle + ("" + b + after) == before + a + middle + b + after;
  }

  lemma {:induction false} FenceShows(code: string, lang: string)
    ensures InOrder(CodeContent(code, lang), Lines(lang) + Lines(Strip(code)))
  {
    var fence := Backticks(code, "```", 10);
    LinesInOrder(lang);
    LinesInOrder(Strip(code));
    InOrderAround(fence, lang, Lines(lang), "\n", Strip(code), Lines(Strip(code)), "\n" + fence);
    Associate(fence + lang + "\n" + Strip(code), "\n", fence);
  }

  lemma {:induction false} DefinitionShows(token: Token)
    requires token.ttype.Definition?
    ensures InOrder(LeafPart(token, 0)[0].content, LinesOfAll([token.linkLabel, token.url, token.title]))
  {
    var name, url, title := token.linkLabel, token.url, token.title;
    var head := "[" + name + "]: " + url;
    DefinitionHead(name, url);
    ThreeTexts(name, url, title);
    TitleShows(head, Lines(name) + Lines(url), title);
  }

  lemma {:induction false} TitleShows(head: string, x: seq<string>, title: string)
    requires InOrder(head, x)
    ensures InOrder(if title != "" then head + " (" + title + ")" else head, x + Lines(title))
  {
    LinesInOrder(title);
    if title != "" {
      InOrderAround("", head, x, " (", title, Lines(title), ")");
      assert "" + head == head;
    } else {
      InOrderConcat(head, x, title, Lines(title));
      assert head + "" == head;
    }
  }

  lemma {:induction false} DefinitionHead(name: string, url: string)
    ensures InOrder("[" + name + "]: " + url, Lines(name) + Lines(url))
  {
    LinesInOrder(name);
    LinesInOrder(url);
    InOrderAround("[", name, Lines(name), "]: ", url, Lines(url), "");
    assert "[" + name + "]: " + url + "" == "[" + name + "]: " + url;
  }

  lemma {:induction false} ThreeTexts(a: string, b: string, c: string)
    ensures LinesOfAll([a, b, c]) == Lines(a) + Lines(b) + Lines(c)
  {
    assert [a, b, c][1..] == [b, c];
    TwoTexts(b, c);
    Associate(Lines(a), Lines(b), Lines(c));
  }

  // ------------------------------------------------------------------
  // Every block shows its lines
  // ------------------------------------------------------------------

  /** The parts of a block show the lines of all its leaves, in order. */
  lemma {:induction false} BlockShows(block: Block, depth: nat, number: nat)
    ensures Show(Fold(block, depth, number), LinesUnder(block))
    decreases block, 0
  {
    match block
    case Leaf(token) => LeafShows(token, depth);
    case Node(open, children, close) =>
      if open.ttype.Open? {
        var kind := open.ttype.kind;
        var inner := InnerNesting(kind, depth);
        var parts, lines := FoldAll(children, inner, 1), LinesUnderAll(children);
        ChildrenShow(children, inner, 1);
        AllSingle(children);
        match kind
        case Blockquote => QuotedShow(open.markup, parts, lines);
        case ListItem => ItemShows(open, Marker(open, number), parts, depth, lines);
        case Paragraph =>
        case OrderedList =>
        case BulletList =>
        case Thead =>
          if children != [] {
            BlockShows(children[0], inner, 1);
          }
          HeadShows(children, inner);
        case _ => OwnShows(kind, open, parts, lines, depth, number);
      }
  }

  lemma {:induction false} OwnShows(
      kind: Kind, open: Token, parts: seq<Part>, lines: seq<string>, nesting: nat, number: nat)
    requires kind in {Heading, Table, Tbody, Tr, Th, Td} && Show(parts, lines)
    ensures Show(BlockParts(kind, open, parts, nesting, number), if kind.Tr? then EscapeAll(lines) else lines)
  {
    var own := BlockParts(kind, open, parts, nesting, number);
    if kind.Heading? {
      JoinedShows(parts, lines);
      var head := Repeat("#", HeadingLevel(open.markup)) + " ";
      InOrderInside(head, Joined(parts), "", lines);
      assert head + Joined(parts) + "" == own[0].content;
      ShowOne(own[0], lines);
    } else if kind.Tr? {
      CellsShow(parts, lines);
      if parts != [] {
        ShowOne(own[0], EscapeAll(lines));
      }
    } else if kind.Th? || kind.Td? {
      JoinedShows(parts, lines);
      ShowOne(own[0], lines);
    } else {
      RowsShow(parts, lines);
      ShowOne(own[0], lines);
    }
  }

  /** A table head shows its first row. */
  lemma {:induction false} HeadShows(children: seq<Block>, depth: nat)
    requires children != [] ==> Show(Fold(children[0], depth, 1), LinesUnder(children[0]))
    ensures Show(HeadRow(FoldAll(children, depth, 1)),
                 if children != [] && IsRow(children[0]) then LinesUnder(children[0]) else [])
  {
    var parts := FoldAll(children, depth, 1);
    if children != [] && IsRow(children[0]) && Fold(children[0], depth, 1) != [] {
      var row := Fold(children[0], depth, 1);
      assert row == [row[0]] && parts[0] == row[0];
      ShowOne(row[0], LinesUnder(children[0]));
      HeadRowShows(parts, LinesUnder(children[0]));
    } else {
      AnythingShowsNothing(HeadRow(parts));
    }
  }

  lemma {:induction false} AnythingShowsNothing(parts: seq<Part>)
    ensures Show(parts, [])
  {
    if parts != [] {
      AnythingShowsNothing(parts[1..]);
      ShowCons(parts[0], [], parts[1..], []);
      assert [parts[0]] + parts[1..] == parts;
    }
  }

  lemma {:induction false} HeadRowShows(parts: seq<Part>, lines: seq<string>)
    requires parts != [] && parts[0].columns.Some? && parts[0].columns.value > 0 && InOrder(parts[0].content, lines)
    ensures Show(HeadRow(parts), lines)
  {
    var row, rule := parts[0].content, Repeat("|---", parts[0].columns.value) + "|";
    InOrderInside("", row, "\n" + rule, lines);
    assert "" + row + ("\n" + rule) == row + "\n" + Repeat("|---", parts[0].columns.value) + "|";
    ShowOne(HeadRow(parts)[0], lines);
  }

  lemma {:induction false} ChildrenShow(blocks: seq<Block>, depth: nat, number: nat)
    ensures Show(FoldAll(blocks, depth, number), LinesUnderAll(blocks))
    decreases blocks, 0
  {
    if blocks != [] {
      BlockShows(blocks[0], depth, number);
      ChildrenShow(blocks[1..], depth, number + 1);
      ShowConcat(Fold(blocks[0], depth, number), LinesUnder(blocks[0]),
                 FoldAll(blocks[1..], depth, number + 1), LinesUnderAll(blocks[1..]));
    }
  }
}
