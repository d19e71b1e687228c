/** `PartConverter` of aperag/docparser/parse_md.py: a cursor over the token list and a context that
    the handlers change on entry to a block and restore on the way out. */
module MarkdownConverter {
  import opened Common
  import opened MarkdownSpec
  import SplitterSpec
  import MarkdownProofs

  class Context {
    var nesting: nat
    var ordinal: nat
    var pauseExtraction: bool

    constructor ()
      ensures nesting == 0 && ordinal == 1 && !pauseExtraction
    {
      nesting, ordinal, pauseExtraction := 0, 1, false;
    }
  }

  /** The specification's conversion of the tokens from `idx` on gives these parts, stops at `pos`
      and leaves this ordinal. */
  ghost predicate Converted(
      tokens: seq<Token>, idx: nat, nesting: nat, before: nat, parts: seq<Part>, pos: nat, after: nat)
  {
    && idx <= pos <= |tokens| && (idx < |tokens| ==> idx < pos)
    && Convert(tokens[idx..], nesting, before) == Outcome(parts, pos - idx, after)
  }

  ghost predicate ConvertedUntil(
      tokens: seq<Token>, kind: Kind, idx: nat, nesting: nat, before: nat, parts: seq<Part>, pos: nat, after: nat)
  {
    && idx <= pos <= |tokens|
    && ConvertUntil(tokens[idx..], kind, nesting, before) == Outcome(parts, pos - idx, after)
  }

  /** A block is converted by converting up to its close in the inner context. */
  lemma {:induction false} BlockConverted(
      tokens: seq<Token>, idx: nat, kind: Kind, nesting: nat, before: nat, inner: seq<Part>, pos: nat, after: nat)
    requires idx < |tokens| && tokens[idx].ttype == Open(kind)
    requires ConvertedUntil(tokens, kind, idx + 1, InnerNesting(kind, nesting),
                            if kind.OrderedList? then 1 else before, inner, pos, after)
    ensures var ordinal := if kind.OrderedList? then before else after;
            Converted(tokens, idx, nesting, before, BlockParts(kind, tokens[idx], inner, nesting, ordinal), pos,
                      if kind.ListItem? && tokens[idx].info != "" then ordinal + 1 else ordinal)
  {
    assert tokens[idx..][1..] == tokens[idx + 1..];
  }

  /** One turn of the loop that converts up to a closing token. */
  lemma {:induction false} UntilTurn(
      tokens: seq<Token>, kind: Kind, at: nat, nesting: nat, before: nat, parts: seq<Part>, pos: nat, after: nat)
    requires at < |tokens| && tokens[at].ttype != Close(kind)
    requires Converted(tokens, at, nesting, before, parts, pos, after)
    ensures var rest := ConvertUntil(tokens[pos..], kind, nesting, after);
            ConvertUntil(tokens[at..], kind, nesting, before)
            == Outcome(parts + rest.parts, pos - at + rest.used, rest.ordinal)
  {
    assert tokens[at..] == tokens[at..pos] + tokens[pos..];
    MarkdownProofs.UntilStep(tokens[at..pos], tokens[pos..], kind, nesting, before, Outcome(parts, pos - at, after));
  }

  // ------------------------------------------------------------------
  // The loops inside the handlers
  // ------------------------------------------------------------------

  method QuoteLines(markup: string, parts: seq<Part>) returns (quoted: seq<Part>)
    ensures quoted == QuoteParts(markup, parts)
  {
    quoted := parts;
    for i := 0 to |parts|
      invariant |quoted| == |parts| && quoted[i..] == parts[i..]
      invariant quoted[..i] + QuoteParts(markup, parts[i..]) == QuoteParts(markup, parts)
    {
      var part := quoted[i];
      assert part == parts[i];
      ghost var before := quoted;
      if IsText(part) {
        quoted := quoted[i := part.(content := PrefixLines(markup + " ", part.content))];
      }
      QuoteTurn(markup, parts, i, before, quoted);
    }
    assert quoted[..|parts|] + [] == quoted;
  }

  lemma {:induction false} QuoteTurn(markup: string, parts: seq<Part>, i: nat, before: seq<Part>, after: seq<Part>)
    requires i < |parts| == |before| && before[i..] == parts[i..]
    requires after == before[i := QuoteParts(markup, [parts[i]])[0]]
    ensures after[i + 1..] == parts[i + 1..]
    ensures after[..i + 1] + QuoteParts(markup, parts[i + 1..]) == before[..i] + QuoteParts(markup, parts[i..])
  {
    var rest := QuoteParts(markup, parts[i + 1..]);
    assert parts[i..][1..] == parts[i + 1..] && before[i..][1..] == before[i + 1..];
    PrefixGrows(after, i);
    assert after[..i] == before[..i];
    Associate(before[..i], [after[i]], rest);
  }

  method IndentRest(parts: seq<Part>) returns (indented: seq<Part>)
    ensures indented == IndentParts(parts)
  {
    indented := [];
    for i := 0 to |parts|
      invariant indented + IndentParts(parts[i..]) == IndentParts(parts)
    {
      var part := parts[i];
      assert part == parts[i..][0] && parts[i..][1..] == parts[i + 1..];
      if IsText(part) {
        part := part.(content := PrefixLines("    ", part.content));
      }
      assert indented + [part] + IndentParts(parts[i + 1..]) == indented + ([part] + IndentParts(parts[i + 1..]));
      indented := indented + [part];
    }
  }

  method JoinContents(parts: seq<Part>) returns (text: string)
    ensures text == Joined(parts)
  {
    text := "";
    for i := 0 to |parts|
      invariant text + Joined(parts[i..]) == Joined(parts)
    {
      assert parts[i..][1..] == parts[i + 1..];
      assert text + parts[i].content + Joined(parts[i + 1..]) == text + (parts[i].content + Joined(parts[i + 1..]));
      text := text + parts[i].content;
    }
  }

  method ToCodeContent(code: string, lang: string) returns (content: string)
    ensures content == CodeContent(code, lang)
  {
    var backticks := "```";
    var i := 0;
    while i < 10
      invariant i <= 10 && backticks != ""
      invariant Backticks(code, backticks, 10 - i) == Backticks(code, "```", 10)
    {
      if !Contains(code, backticks) {
        break;
      }
      backticks := backticks + "`";
      i := i + 1;
    }
    content := backticks + lang + "\n" + Strip(code) + "\n" + backticks;
  }

  method MarkFirstPart(marker: string, content: string) returns (marked: string)
    ensures marked == MarkLines(marker, content)
  {
    var lines := SplitterSpec.PySplit(content, "\n");
    ghost var was := lines;
    var spaces := Repeat(" ", |marker|);
    lines := lines[0 := marker + lines[0]];
    assert lines[..1] == [marker + was[0]];
    for i := 1 to |lines|
      invariant |lines| == |was| && lines[i..] == was[i..]
      invariant lines[..i] + PrefixAll(spaces, was[i..]) == [marker + was[0]] + PrefixAll(spaces, was[1..])
    {
      assert was[i..][1..] == was[i + 1..] && lines[i] == was[i];
      lines := lines[i := spaces + lines[i]];
      assert lines[..i + 1] == lines[..i] + [lines[i]];
    }
    assert lines[..|lines|] + PrefixAll(spaces, was[|lines|..]) == lines;
    marked := JoinWith("\n", lines);
  }

  method RowOf(parts: seq<Part>) returns (text: string)
    ensures text == RowText(parts)
  {
    text := "";
    for i := 0 to |parts|
      invariant text + RowText(parts[i..]) == RowText(parts)
    {
      var cell := "| " + EscapeCell(parts[i].content) + " ";
      assert parts[i..][1..] == parts[i + 1..];
      assert text + cell + RowText(parts[i + 1..]) == text + (cell + RowText(parts[i + 1..]));
      text := text + cell;
    }
    text := text + "|";
  }

  // ------------------------------------------------------------------
  // The converter
  // ------------------------------------------------------------------

  /** Handles the token at the cursor and moves past it and past what it opens. */
  method ConvertAt(ctx: Context, tokens: seq<Token>, idx: nat) returns (parts: seq<Part>, pos: nat)
    requires idx <= |tokens|
    modifies ctx
    ensures Converted(tokens, idx, old(ctx.nesting), old(ctx.ordinal), parts, pos, ctx.ordinal)
    ensures ctx.nesting == old(ctx.nesting) && ctx.pauseExtraction == old(ctx.pauseExtraction)
    decreases |tokens| - idx, 1
  {
    if idx >= |tokens| {
      return [], idx;
    }
    match tokens[idx].ttype
    case Open(kind) =>
      match kind {
        case Blockquote => parts, pos := ConvertBlockquoteOpen(ctx, tokens, idx);
        case Heading => parts, pos := ConvertHeadingOpen(ctx, tokens, idx);
        case Paragraph => parts, pos := ConvertParagraphOpen(ctx, tokens, idx);
        case OrderedList => parts, pos := ConvertOrderedListOpen(ctx, tokens, idx);
        case BulletList => parts, pos := ConvertBulletListOpen(ctx, tokens, idx);
        case ListItem => parts, pos := ConvertListItemOpen(ctx, tokens, idx);
        case Table => parts, pos := ConvertTableOpen(ctx, tokens, idx);
        case Thead => parts, pos := ConvertTheadOpen(ctx, tokens, idx);
        case Tbody => parts, pos := ConvertTbodyOpen(ctx, tokens, idx);
        case Tr => parts, pos := ConvertTrOpen(ctx, tokens, idx);
        case Th => parts, pos := ConvertCellOpen(ctx, tokens, idx, kind);
        case Td => parts, pos := ConvertCellOpen(ctx, tokens, idx, kind);
      }
    case _ =>
      parts := ConvertLeaf(ctx, tokens[idx]);
      pos := idx + 1;
  }

  /** The handlers of tokens that open nothing, and the fallback for unknown ones. */
  method ConvertLeaf(ctx: Context, token: Token) returns (parts: seq<Part>)
    ensures parts == LeafPart(token, ctx.nesting)
  {
    match token.ttype
    case CodeBlock =>
      var code := ToCodeContent(token.content, "");
      parts := [Part(Code(None), code, token.lines, Some(ctx.nesting), None)];
    case Fence =>
      var lang := None;
      if token.info != "" {
        lang := Some(token.info);
      }
      var code := ToCodeContent(token.content, token.info);
      parts := [Part(Code(lang), code, token.lines, Some(ctx.nesting), None)];
    case Inline => parts := [Part(Text, token.content, token.lines, Some(ctx.nesting), None)];
    case Hr => parts := [Part(Text, token.markup, token.lines, Some(ctx.nesting), None)];
    case HtmlBlock => parts := [Part(Text, token.content, token.lines, Some(ctx.nesting), None)];
    case Definition =>
      var content := "[" + token.linkLabel + "]: " + token.url;
      if token.title != "" {
        content := content + " (" + token.title + ")";
      }
      parts := [Part(Text, content, token.lines, Some(ctx.nesting), None)];
    case _ =>
      parts := [];
      if token.content != "" {
        parts := [Part(Text, token.content, token.lines, None, None)];
      }
  }

  /** Converts tokens until the closing one, which is consumed, or the end. */
  method ConvertUntilClose(ctx: Context, kind: Kind, tokens: seq<Token>, idx: nat) returns (result: seq<Part>, pos: nat)
    requires idx <= |tokens|
    modifies ctx
    ensures ConvertedUntil(tokens, kind, idx, old(ctx.nesting), old(ctx.ordinal), result, pos, ctx.ordinal)
    ensures ctx.nesting == old(ctx.nesting) && ctx.pauseExtraction == old(ctx.pauseExtraction)
    decreases |tokens| - idx, 2
  {
    ghost var nesting, whole := ctx.nesting, ConvertUntil(tokens[idx..], kind, ctx.nesting, ctx.ordinal);
    result, pos := [], idx;
    while pos < |tokens|
      invariant idx <= pos <= |tokens|
      invariant ctx.nesting == nesting && ctx.pauseExtraction == old(ctx.pauseExtraction)
      invariant Remaining(tokens, kind, idx, nesting, result, pos, ctx.ordinal, whole)
      decreases |tokens| - pos
    {
      if tokens[pos].ttype == Close(kind) {
        pos := pos + 1;
        CloseEnds(tokens, kind, idx, nesting, result, pos - 1, ctx.ordinal, whole);
        return;
      }
      ghost var at, before := pos, ctx.ordinal;
      var parts: seq<Part>;
      parts, pos := ConvertAt(ctx, tokens, pos);
      RemainingStep(tokens, kind, idx, nesting, result, at, before, whole, parts, pos, ctx.ordinal);
      result := result + parts;
    }
    assert result + [] == result;
  }

  /** What is left to convert completes the outcome of the whole. */
  ghost predicate Remaining(
      tokens: seq<Token>, kind: Kind, idx: nat, nesting: nat, done: seq<Part>, pos: nat, ordinal: nat, whole: Outcome)
    requires idx <= pos <= |tokens|
  {
    var rest := ConvertUntil(tokens[pos..], kind, nesting, ordinal);
    whole == Outcome(done + rest.parts, pos - idx + rest.used, rest.ordinal)
  }

  lemma {:induction false} CloseEnds(
      tokens: seq<Token>, kind: Kind, idx: nat, nesting: nat, done: seq<Part>, pos: nat, ordinal: nat, whole: Outcome)
    requires idx <= pos < |tokens| && Remaining(tokens, kind, idx, nesting, done, pos, ordinal, whole)
    requires tokens[pos].ttype == Close(kind)
    ensures whole == Outcome(done, pos + 1 - idx, ordinal)
  {
    assert done + [] == done;
  }

  lemma {:induction false} RemainingStep(
      tokens: seq<Token>, kind: Kind, idx: nat, nesting: nat, done: seq<Part>, at: nat, before: nat, whole: Outcome,
      parts: seq<Part>, pos: nat, after: nat)
    requires idx <= at < |tokens| && Remaining(tokens, kind, idx, nesting, done, at, before, whole)
    requires tokens[at].ttype != Close(kind) && Converted(tokens, at, nesting, before, parts, pos, after)
    ensures Remaining(tokens, kind, idx, nesting, done + parts, pos, after, whole)
  {
    UntilTurn(tokens, kind, at, nesting, before, parts, pos, after);
    var rest := ConvertUntil(tokens[pos..], kind, nesting, after);
    Associate(done, parts, rest.parts);
  }

  method ConvertBlockquoteOpen(ctx: Context, tokens: seq<Token>, idx: nat) returns (parts: seq<Part>, pos: nat)
    requires idx < |tokens| && tokens[idx].ttype == Open(Blockquote)
    modifies ctx
    ensures Converted(tokens, idx, old(ctx.nesting), old(ctx.ordinal), parts, pos, ctx.ordinal)
    ensures ctx.nesting == old(ctx.nesting) && ctx.pauseExtraction == old(ctx.pauseExtraction)
    decreases |tokens| - idx, 0
  {
    ctx.nesting := ctx.nesting + 1;
    parts, pos := ConvertUntilClose(ctx, Blockquote, tokens, idx + 1);
    ctx.nesting := ctx.nesting - 1;
    BlockConverted(tokens, idx, Blockquote, ctx.nesting, old(ctx.ordinal), parts, pos, ctx.ordinal);
    parts := QuoteLines(tokens[idx].markup, parts);
  }

  method ConvertHeadingOpen(ctx: Context, tokens: seq<Token>, idx: nat) returns (parts: seq<Part>, pos: nat)
    requires idx < |tokens| && tokens[idx].ttype == Open(Heading)
    modifies ctx
    ensures Converted(tokens, idx, old(ctx.nesting), old(ctx.ordinal), parts, pos, ctx.ordinal)
    ensures ctx.nesting == old(ctx.nesting) && ctx.pauseExtraction == old(ctx.pauseExtraction)
    decreases |tokens| - idx, 0
  {
    parts, pos := ConvertUntilClose(ctx, Heading, tokens, idx + 1);
    BlockConverted(tokens, idx, Heading, ctx.nesting, old(ctx.ordinal), parts, pos, ctx.ordinal);
    var text := JoinContents(parts);
    var token := tokens[idx];
    var level;
    if token.markup == "=" || token.markup == "-" {
      level := if token.markup == "=" then 1 else 2;
    } else {
      level := |token.markup|;
    }
    parts := [Part(Title(level), Repeat("#", level) + " " + text, token.lines, Some(ctx.nesting), None)];
  }

  method ConvertParagraphOpen(ctx: Context, tokens: seq<Token>, idx: nat) returns (parts: seq<Part>, pos: nat)
    requires idx < |tokens| && tokens[idx].ttype == Open(Paragraph)
    modifies ctx
    ensures Converted(tokens, idx, old(ctx.nesting), old(ctx.ordinal), parts, pos, ctx.ordinal)
    ensures ctx.nesting == old(ctx.nesting) && ctx.pauseExtraction == old(ctx.pauseExtraction)
    decreases |tokens| - idx, 0
  {
    parts, pos := ConvertUntilClose(ctx, Paragraph, tokens, idx + 1);
    BlockConverted(tokens, idx, Paragraph, ctx.nesting, old(ctx.ordinal), parts, pos, ctx.ordinal);
  }

  method ConvertOrderedListOpen(ctx: Context, tokens: seq<Token>, idx: nat) returns (parts: seq<Part>, pos: nat)
    requires idx < |tokens| && tokens[idx].ttype == Open(OrderedList)
    modifies ctx
    ensures Converted(tokens, idx, old(ctx.nesting), old(ctx.ordinal), parts, pos, ctx.ordinal)
    ensures ctx.nesting == old(ctx.nesting) && ctx.pauseExtraction == old(ctx.pauseExtraction)
    decreases |tokens| - idx, 0
  {
    var oldOrdinal := ctx.ordinal;
    ctx.ordinal := 1;
    ctx.nesting := ctx.nesting + 1;
    parts, pos := ConvertUntilClose(ctx, OrderedList, tokens, idx + 1);
    BlockConverted(tokens, idx, OrderedList, ctx.nesting - 1, oldOrdinal, parts, pos, ctx.ordinal);
    ctx.ordinal := oldOrdinal;
    ctx.nesting := ctx.nesting - 1;
  }

  method ConvertBulletListOpen(ctx: Context, tokens: seq<Token>, idx: nat) returns (parts: seq<Part>, pos: nat)
    requires idx < |tokens| && tokens[idx].ttype == Open(BulletList)
    modifies ctx
    ensures Converted(tokens, idx, old(ctx.nesting), old(ctx.ordinal), parts, pos, ctx.ordinal)
    ensures ctx.nesting == old(ctx.nesting) && ctx.pauseExtraction == old(ctx.pauseExtraction)
    decreases |tokens| - idx, 0
  {
    ctx.nesting := ctx.nesting + 1;
    parts, pos := ConvertUntilClose(ctx, BulletList, tokens, idx + 1);
    ctx.nesting := ctx.nesting - 1;
    BlockConverted(tokens, idx, BulletList, ctx.nesting, old(ctx.ordinal), parts, pos, ctx.ordinal);
  }

  /** The marker is chosen after the item's content is converted, so a nested list has by then put
      the ordinal back. */
  method ConvertListItemOpen(ctx: Context, tokens: seq<Token>, idx: nat) returns (result: seq<Part>, pos: nat)
    requires idx < |tokens| && tokens[idx].ttype == Open(ListItem)
    modifies ctx
    ensures Converted(tokens, idx, old(ctx.nesting), old(ctx.ordinal), result, pos, ctx.ordinal)
    ensures ctx.nesting == old(ctx.nesting) && ctx.pauseExtraction == old(ctx.pauseExtraction)
    decreases |tokens| - idx, 0
  {
    var parts: seq<Part>;
    parts, pos := ConvertUntilClose(ctx, ListItem, tokens, idx + 1);
    BlockConverted(tokens, idx, ListItem, ctx.nesting, old(ctx.ordinal), parts, pos, ctx.ordinal);
    var token := tokens[idx];
    var itemMarker;
    if |token.info| != 0 {
      itemMarker := Decimal(ctx.ordinal) + token.markup + " ";
      ctx.ordinal := ctx.ordinal + 1;
    } else {
      itemMarker := token.markup + " ";
    }
    result := MarkItem(token, itemMarker, parts, ctx.nesting);
  }

  method MarkItem(token: Token, marker: string, parts: seq<Part>, nesting: nat) returns (result: seq<Part>)
    ensures result == ItemParts(token, marker, parts, nesting)
  {
    if |parts| == 0 {
      return [Part(Text, marker, token.lines, Some(nesting), None)];
    }
    var first := parts[0];
    if IsText(first) {
      var content := MarkFirstPart(marker, first.content);
      result := [first.(content := content)];
    } else {
      result := [Part(Text, marker, token.lines, Some(nesting), None), first];
    }
    var rest := IndentRest(parts[1..]);
    result := result + rest;
  }

  /** Image extraction is paused inside the table. */
  method ConvertTableOpen(ctx: Context, tokens: seq<Token>, idx: nat) returns (parts: seq<Part>, pos: nat)
    requires idx < |tokens| && tokens[idx].ttype == Open(Table)
    modifies ctx
    ensures Converted(tokens, idx, old(ctx.nesting), old(ctx.ordinal), parts, pos, ctx.ordinal)
    ensures ctx.nesting == old(ctx.nesting) && ctx.pauseExtraction == old(ctx.pauseExtraction)
    decreases |tokens| - idx, 0
  {
    var oldPause := ctx.pauseExtraction;
    ctx.nesting := ctx.nesting + 1;
    ctx.pauseExtraction := true;
    parts, pos := ConvertUntilClose(ctx, Table, tokens, idx + 1);
    ctx.pauseExtraction := oldPause;
    ctx.nesting := ctx.nesting - 1;
    BlockConverted(tokens, idx, Table, ctx.nesting, old(ctx.ordinal), parts, pos, ctx.ordinal);
    parts := [Part(Text, JoinWith("\n", ContentsOf(parts)), tokens[idx].lines, Some(ctx.nesting), None)];
  }

  method ConvertTheadOpen(ctx: Context, tokens: seq<Token>, idx: nat) returns (parts: seq<Part>, pos: nat)
    requires idx < |tokens| && tokens[idx].ttype == Open(Thead)
    modifies ctx
    ensures Converted(tokens, idx, old(ctx.nesting), old(ctx.ordinal), parts, pos, ctx.ordinal)
    ensures ctx.nesting == old(ctx.nesting) && ctx.pauseExtraction == old(ctx.pauseExtraction)
    decreases |tokens| - idx, 0
  {
    parts, pos := ConvertUntilClose(ctx, Thead, tokens, idx + 1);
    BlockConverted(tokens, idx, Thead, ctx.nesting, old(ctx.ordinal), parts, pos, ctx.ordinal);
    if |parts| == 0 {
      return;
    }
    var columnCount := if parts[0].columns.Some? then parts[0].columns.value else 0;
    if columnCount == 0 {
      return [], pos;
    }
    var text := parts[0].content;
    text := text + "\n" + Repeat("|---", columnCount) + "|";
    parts := [Part(Text, text, None, None, None)];
  }

  method ConvertTbodyOpen(ctx: Context, tokens: seq<Token>, idx: nat) returns (parts: seq<Part>, pos: nat)
    requires idx < |tokens| && tokens[idx].ttype == Open(Tbody)
    modifies ctx
    ensures Converted(tokens, idx, old(ctx.nesting), old(ctx.ordinal), parts, pos, ctx.ordinal)
    ensures ctx.nesting == old(ctx.nesting) && ctx.pauseExtraction == old(ctx.pauseExtraction)
    decreases |tokens| - idx, 0
  {
    parts, pos := ConvertUntilClose(ctx, Tbody, tokens, idx + 1);
    BlockConverted(tokens, idx, Tbody, ctx.nesting, old(ctx.ordinal), parts, pos, ctx.ordinal);
    parts := [Part(Text, JoinWith("\n", ContentsOf(parts)), None, None, None)];
  }

  method ConvertTrOpen(ctx: Context, tokens: seq<Token>, idx: nat) returns (parts: seq<Part>, pos: nat)
    requires idx < |tokens| && tokens[idx].ttype == Open(Tr)
    modifies ctx
    ensures Converted(tokens, idx, old(ctx.nesting), old(ctx.ordinal), parts, pos, ctx.ordinal)
    ensures ctx.nesting == old(ctx.nesting) && ctx.pauseExtraction == old(ctx.pauseExtraction)
    decreases |tokens| - idx, 0
  {
    parts, pos := ConvertUntilClose(ctx, Tr, tokens, idx + 1);
    BlockConverted(tokens, idx, Tr, ctx.nesting, old(ctx.ordinal), parts, pos, ctx.ordinal);
    if |parts| == 0 {
      return;
    }
    var text := RowOf(parts);
    parts := [Part(Text, text, None, None, Some(|parts|))];
  }

  /** The handlers of `th` and of `td` differ only in their closing token. */
  method ConvertCellOpen(ctx: Context, tokens: seq<Token>, idx: nat, kind: Kind) returns (parts: seq<Part>, pos: nat)
    requires idx < |tokens| && tokens[idx].ttype == Open(kind) && (kind.Th? || kind.Td?)
    modifies ctx
    ensures Converted(tokens, idx, old(ctx.nesting), old(ctx.ordinal), parts, pos, ctx.ordinal)
    ensures ctx.nesting == old(ctx.nesting) && ctx.pauseExtraction == old(ctx.pauseExtraction)
    decreases |tokens| - idx, 0
  {
    parts, pos := ConvertUntilClose(ctx, kind, tokens, idx + 1);
    BlockConverted(tokens, idx, kind, ctx.nesting, old(ctx.ordinal), parts, pos, ctx.ordinal);
    var text := JoinContents(parts);
    parts := [Part(Text, text, None, None, None)];
  }

  /** The whole stream. On the tokens of a well-formed document the parts are the fold of its blocks. */
  method ConvertTokens(tokens: seq<Token>, ghost blocks: seq<MarkdownSpec.Block>) returns (result: seq<Part>)
    ensures result == ConvertAll(tokens, 1)
    ensures MarkdownProofs.Document(blocks) && tokens == FlattenAll(blocks) ==> result == FoldAll(blocks, 0, 1)
  {
    var ctx := new Context();
    var pos := 0;
    result := [];
    while pos < |tokens|
      invariant pos <= |tokens| && ctx.nesting == 0
      invariant result + ConvertAll(tokens[pos..], ctx.ordinal) == ConvertAll(tokens, 1)
      decreases |tokens| - pos
    {
      ghost var at, before := pos, ctx.ordinal;
      var parts: seq<Part>;
      parts, pos := ConvertAt(ctx, tokens, pos);
      AllTurn(tokens, at, before, parts, pos, ctx.ordinal);
      assert result + (parts + ConvertAll(tokens[pos..], ctx.ordinal))
          == result + parts + ConvertAll(tokens[pos..], ctx.ordinal);
      result := result + parts;
    }
    assert result + [] == result;
    if MarkdownProofs.Document(blocks) && tokens == FlattenAll(blocks) {
      MarkdownProofs.DocumentRefines(blocks, 1);
    }
  }

  lemma {:induction false} AllTurn(tokens: seq<Token>, at: nat, before: nat, parts: seq<Part>, pos: nat, after: nat)
    requires at < |tokens| && Converted(tokens, at, 0, before, parts, pos, after)
    ensures ConvertAll(tokens[at..], before) == parts + ConvertAll(tokens[pos..], after)
  {
    SuffixOfSuffix(tokens, at, pos);
  }
}
