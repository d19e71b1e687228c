/** Specification of `PartConverter` of aperag/docparser/parse_md.py: the cursor-driven
    conversion of a flat token list, and the fold over the block tree it stands for. */
module MarkdownSpec {
  import opened Common
  import opened SplitterSpec

  // ------------------------------------------------------------------
  // Tokens and parts
  // ------------------------------------------------------------------

  /** The blocks that have an opening and a closing token. */
  datatype Kind =
    | Blockquote | Heading | Paragraph | OrderedList | BulletList | ListItem
    | Table | Thead | Tbody | Tr | Th | Td

  datatype TokenType =
    | Open(kind: Kind) | Close(kind: Kind)
    | Inline | CodeBlock | Fence | Hr | HtmlBlock | Definition
    | Unhandled

  /** `linkLabel`, `url` and `title` are the metadata of a link definition. */
  datatype Token = Token(
    ttype: TokenType, content: string, markup: string, info: string, lines: Option<(int, int)>,
    linkLabel: string, url: string, title: string)

  /** A heading is a text part too; code is not. */
  datatype PartKind = Text | Title(level: nat) | Code(lang: Option<string>)

  /** A part and the metadata the converter adds to that of the document. */
  datatype Part = Part(
    kind: PartKind, content: string, lines: Option<(int, int)>, nesting: Option<nat>, columns: Option<nat>)

  // ------------------------------------------------------------------
  // Text
  // ------------------------------------------------------------------

  function Repeat(s: string, n: nat): string {
    if n == 0 then "" else s + Repeat(s, n - 1)
  }

  function JoinWith(sep: string, lines: seq<string>): string {
    if lines == [] then ""
    else if |lines| == 1 then lines[0]
    else lines[0] + sep + JoinWith(sep, lines[1..])
  }

  function PrefixAll(prefix: string, lines: seq<string>): seq<string> {
    if lines == [] then [] else [prefix + lines[0]] + PrefixAll(prefix, lines[1..])
  }

  function PrefixLines(prefix: string, content: string): string {
    JoinWith("\n", PrefixAll(prefix, PySplit(content, "\n")))
  }

  /** The first line gets the marker, the others as many spaces. */
  function MarkLines(marker: string, content: string): string {
    var lines := PySplit(content, "\n");
    JoinWith("\n", [marker + lines[0]] + PrefixAll(Repeat(" ", |marker|), lines[1..]))
  }

  function Digit(d: nat): string
    requires d < 10
  {
    ["0123456789"[d]]
  }

  function Decimal(n: nat): string {
    if n < 10 then Digit(n) else Decimal(n / 10) + Digit(n % 10)
  }

  function Replace(s: string, c: char, into: string): string {
    if s == "" then "" else (if s[0] == c then into else [s[0]]) + Replace(s[1..], c, into)
  }

  function EscapeCell(text: string): string {
    Replace(Replace(Replace(text, '|', "\\|"), '\r', ""), '\n', "<br>")
  }

  function Contains(s: string, sub: string): bool
    requires sub != ""
  {
    Find(s, sub, 0) >= 0
  }

  /** At most ten backticks are added while the code contains the fence. */
  function Backticks(code: string, fence: string, left: nat): string
    requires fence != ""
    decreases left
  {
    if left == 0 || !Contains(code, fence) then fence else Backticks(code, fence + "`", left - 1)
  }

  function CodeContent(code: string, lang: string): string {
    var fence := Backticks(code, "```", 10);
    fence + lang + "\n" + Strip(code) + "\n" + fence
  }

  // ------------------------------------------------------------------
  // What each handler makes of its token and the parts inside it
  // ------------------------------------------------------------------

  predicate IsText(part: Part) {
    part.kind.Text? || part.kind.Title?
  }

  function LeafPart(token: Token, nesting: nat): seq<Part> {
    match token.ttype
    case CodeBlock => [Part(Code(None), CodeContent(token.content, ""), token.lines, Some(nesting), None)]
    case Fence =>
      [Part(Code(if token.info == "" then None else Some(token.info)),
            CodeContent(token.content, token.info), token.lines, Some(nesting), None)]
    case Inline => [Part(Text, token.content, token.lines, Some(nesting), None)]
    case Hr => [Part(Text, token.markup, token.lines, Some(nesting), None)]
    case HtmlBlock => [Part(Text, token.content, token.lines, Some(nesting), None)]
    case Definition =>
      var content := "[" + token.linkLabel + "]: " + token.url;
      [Part(Text, if token.title != "" then content + " (" + token.title + ")" else content,
            token.lines, Some(nesting), None)]
    case _ =>
      if token.content != "" then [Part(Text, token.content, token.lines, None, None)] else []
  }

  function QuoteParts(markup: string, parts: seq<Part>): seq<Part> {
    if parts == [] then []
    else
      var p := parts[0];
      [if IsText(p) then p.(content := PrefixLines(markup + " ", p.content)) else p] + QuoteParts(markup, parts[1..])
  }

  function Joined(parts: seq<Part>): string {
    if parts == [] then "" else parts[0].content + Joined(parts[1..])
  }

  function ContentsOf(parts: seq<Part>): seq<string> {
    if parts == [] then [] else [parts[0].content] + ContentsOf(parts[1..])
  }

  function HeadingLevel(markup: string): nat {
    if markup == "=" then 1 else if markup == "-" then 2 else |markup|
  }

  function IndentParts(parts: seq<Part>): seq<Part> {
    if parts == [] then []
    else
      var p := parts[0];
      [if IsText(p) then p.(content := PrefixLines("    ", p.content)) else p] + IndentParts(parts[1..])
  }

  /** The marker of a list item: ordered items carry their number. */
  function Marker(token: Token, ordinal: nat): string {
    (if token.info != "" then Decimal(ordinal) + token.markup else token.markup) + " "
  }

  function ItemParts(token: Token, marker: string, parts: seq<Part>, nesting: nat): seq<Part> {
    var bare := Part(Text, marker, token.lines, Some(nesting), None);
    if parts == [] then [bare]
    else if IsText(parts[0]) then
      [parts[0].(content := MarkLines(marker, parts[0].content))] + IndentParts(parts[1..])
    else [bare, parts[0]] + IndentParts(parts[1..])
  }

  function RowText(parts: seq<Part>): string {
    if parts == [] then "|" else "| " + EscapeCell(parts[0].content) + " " + RowText(parts[1..])
  }

  function HeadRow(parts: seq<Part>): seq<Part> {
    if parts == [] || parts[0].columns.None? || parts[0].columns.value == 0 then []
    else [Part(Text, parts[0].content + "\n" + Repeat("|---", parts[0].columns.value) + "|", None, None, None)]
  }

  /** The result of a block handler: `nesting` and `ordinal` are those outside the block. */
  function BlockParts(kind: Kind, token: Token, parts: seq<Part>, nesting: nat, ordinal: nat): seq<Part> {
    match kind
    case Blockquote => QuoteParts(token.markup, parts)
    case Heading =>
      var level := HeadingLevel(token.markup);
      [Part(Title(level), Repeat("#", level) + " " + Joined(parts), token.lines, Some(nesting), None)]
    case ListItem => ItemParts(token, Marker(token, ordinal), parts, nesting)
    case Table => [Part(Text, JoinWith("\n", ContentsOf(parts)), token.lines, Some(nesting), None)]
    case Thead => HeadRow(parts)
    case Tbody => [Part(Text, JoinWith("\n", ContentsOf(parts)), None, None, None)]
    case Tr => if parts == [] then [] else [Part(Text, RowText(parts), None, None, Some(|parts|))]
    case Th => [Part(Text, Joined(parts), None, None, None)]
    case Td => [Part(Text, Joined(parts), None, None, None)]
    case _ => parts
  }

  predicate Nests(kind: Kind) {
    kind.Blockquote? || kind.OrderedList? || kind.BulletList? || kind.Table?
  }

  function InnerNesting(kind: Kind, nesting: nat): nat {
    if Nests(kind) then nesting + 1 else nesting
  }

  // ------------------------------------------------------------------
  // The cursor
  // ------------------------------------------------------------------

  /** The parts, how many tokens were consumed, and the ordinal afterwards. */
  datatype Outcome = Outcome(parts: seq<Part>, used: nat, ordinal: nat)

  /** `convert` at the first of the remaining tokens. */
  function Convert(tokens: seq<Token>, nesting: nat, ordinal: nat): (r: Outcome)
    ensures tokens == [] ==> r.used == 0
    ensures tokens != [] ==> 0 < r.used <= |tokens|
    decreases |tokens|, 0
  {
    if tokens == [] then Outcome([], 0, ordinal)
    else if tokens[0].ttype.Open? then
      var kind := tokens[0].ttype.kind;
      var inner := ConvertUntil(tokens[1..], kind, InnerNesting(kind, nesting), if kind.OrderedList? then 1 else ordinal);
      var after := if kind.OrderedList? then ordinal else inner.ordinal;
      Outcome(BlockParts(kind, tokens[0], inner.parts, nesting, after), 1 + inner.used,
              if kind.ListItem? && tokens[0].info != "" then after + 1 else after)
    else Outcome(LeafPart(tokens[0], nesting), 1, ordinal)
  }

  /** `convert_until_close`: up to and including the closing token, or to the end. */
  function ConvertUntil(tokens: seq<Token>, kind: Kind, nesting: nat, ordinal: nat): (r: Outcome)
    ensures r.used <= |tokens|
    decreases |tokens|, 1
  {
    if tokens == [] then Outcome([], 0, ordinal)
    else if tokens[0].ttype == Close(kind) then Outcome([], 1, ordinal)
    else
      var first := Convert(tokens, nesting, ordinal);
      var rest := ConvertUntil(tokens[first.used..], kind, nesting, first.ordinal);
      Outcome(first.parts + rest.parts, first.used + rest.used, rest.ordinal)
  }

  /** `convert_all`. */
  function ConvertAll(tokens: seq<Token>, ordinal: nat): seq<Part>
    decreases |tokens|
  {
    if tokens == [] then []
    else
      var first := Convert(tokens, 0, ordinal);
      first.parts + ConvertAll(tokens[first.used..], first.ordinal)
  }

  // ------------------------------------------------------------------
  // The block tree
  // ------------------------------------------------------------------

  datatype Block =
    | Leaf(token: Token)
    | Node(open: Token, children: seq<Block>, close: Token)

  function Flatten(block: Block): seq<Token> {
    match block
    case Leaf(token) => [token]
    case Node(open, children, close) => [open] + FlattenAll(children) + [close]
  }

  function FlattenAll(blocks: seq<Block>): seq<Token> {
    if blocks == [] then [] else Flatten(blocks[0]) + FlattenAll(blocks[1..])
  }

  predicate IsNode(block: Block, kind: Kind) {
    block.Node? && block.open.ttype == Open(kind) && block.close.ttype == Close(kind)
  }

  /** Every opening token has its closing token; list items are exactly the children of lists,
      and those of an ordered list, and no others, carry a number in their info. */
  predicate WellFormed(block: Block) {
    match block
    case Leaf(token) => !token.ttype.Open? && !token.ttype.Close?
    case Node(open, children, close) =>
      && open.ttype.Open? && close.ttype == Close(open.ttype.kind)
      && AllWellFormed(children, open.ttype.kind)
  }

  predicate AllWellFormed(children: seq<Block>, parent: Kind) {
    children == [] || (Fits(children[0], parent) && WellFormed(children[0]) && AllWellFormed(children[1..], parent))
  }

  predicate Fits(child: Block, parent: Kind) {
    match parent
    case OrderedList => IsNode(child, ListItem) && child.open.info != ""
    case BulletList => IsNode(child, ListItem) && child.open.info == ""
    case _ => !IsNode(child, ListItem)
  }

  /** The meaning of a block at a given depth of blockquotes, lists and tables; `number` is the
      position of a list item in its list. No other context is needed. */
  function Fold(block: Block, depth: nat, number: nat): seq<Part> {
    match block
    case Leaf(token) => LeafPart(token, depth)
    case Node(open, children, close) =>
      if open.ttype.Open? then
        var kind := open.ttype.kind;
        BlockParts(kind, open, FoldAll(children, InnerNesting(kind, depth), 1), depth, number)
      else []
  }

  /** The children in order, the first with the given number. */
  function FoldAll(blocks: seq<Block>, depth: nat, number: nat): seq<Part> {
    if blocks == [] then [] else Fold(blocks[0], depth, number) + FoldAll(blocks[1..], depth, number + 1)
  }
}
