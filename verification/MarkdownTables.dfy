/** Headings and tables: the level of a heading, and the lines, columns and cells of a table. */
module MarkdownTables {
  import opened Common
  import opened MarkdownSpec
  import opened MarkdownText
  import opened MarkdownLines
  import SplitterSpec

  // ------------------------------------------------------------------
  // Headings
  // ------------------------------------------------------------------

  /** What the tokenizer puts into headings and cells: one inline text. */
  predicate HasText(block: Block) {
    block.Node? && |block.children| == 1 && block.children[0].Leaf? && block.children[0].token.ttype.Inline?
  }

  lemma {:induction false} OneInside(block: Block, depth: nat)
    requires HasText(block)
    ensures Joined(FoldAll(block.children, depth, 1)) == block.children[0].token.content
    ensures |FoldAll(block.children, depth, 1)| == 1
  {
    var part := LeafPart(block.children[0].token, depth);
    assert block.children[1..] == [] && part + [] == part && part[1..] == [];
    assert part[0].content + "" == part[0].content;
  }

  /** A cell has exactly the text in it. */
  lemma {:induction false} CellTextIsKept(cell: Block, depth: nat, number: nat)
    requires HasText(cell) && cell.open.ttype in {Open(Th), Open(Td)}
    ensures |Fold(cell, depth, number)| == 1
    ensures Fold(cell, depth, number)[0].content == cell.children[0].token.content
  {
    OneInside(cell, depth);
  }

  lemma {:induction false} Marks(n: nat)
    ensures |Repeat("#", n)| == n && forall i | 0 <= i < n :: Repeat("#", n)[i] == '#'
  {
    if n > 0 {
      Marks(n - 1);
    }
  }

  /** A heading of n marks has level n, one underlined with "=" or "-" has level 1 or 2; its text
      begins with as many marks and a space. */
  lemma {:induction false} HeadingHasItsLevel(block: Block, depth: nat, number: nat) returns (level: nat)
    requires block.Node? && block.open.ttype == Open(Heading)
    ensures |Fold(block, depth, number)| == 1 && Fold(block, depth, number)[0].kind == Title(level)
    ensures block.open.markup == "=" ==> level == 1
    ensures block.open.markup == "-" ==> level == 2
    ensures forall n: nat | block.open.markup == Repeat("#", n) :: level == n
    ensures var content := Fold(block, depth, number)[0].content;
      level < |content| && (forall i | 0 <= i < level :: content[i] == '#') && content[level] == ' '
    ensures HasText(block) ==> Fold(block, depth, number)[0].content[level + 1..] == block.children[0].token.content
  {
    level := HeadingLevel(block.open.markup);
    Marks(level);
    if HasText(block) {
      OneInside(block, depth);
    }
    forall n: nat | block.open.markup == Repeat("#", n) ensures level == n {
      Marks(n);
    }
  }

  // ------------------------------------------------------------------
  // Cells
  // ------------------------------------------------------------------

  /** What becomes of a character in a cell. */
  function InCell(c: char): string {
    match c
    case '|' => "\\|"
    case '\r' => ""
    case '\n' => "<br>"
    case _ => [c]
  }

  function EachInCell(text: string): string {
    if text == "" then "" else InCell(text[0]) + EachInCell(text[1..])
  }

  lemma {:induction false} EscapeConcat(a: string, b: string)
    ensures EscapeCell(a + b) == EscapeCell(a) + EscapeCell(b)
  {
    ReplaceConcat(a, b, '|', "\\|");
    ReplaceConcat(Replace(a, '|', "\\|"), Replace(b, '|', "\\|"), '\r', "");
    ReplaceConcat(Replace(Replace(a, '|', "\\|"), '\r', ""), Replace(Replace(b, '|', "\\|"), '\r', ""), '\n', "<br>");
  }

  lemma {:induction false} ReplaceOne(c: char, from: char, into: string)
    ensures Replace([c], from, into) == if c == from then into else [c]
    ensures Replace("", from, into) == ""
  {
    assert [c][1..] == "" && into + "" == into && [c] + "" == [c];
  }

  lemma {:induction false} EscapeOne(c: char)
    ensures EscapeCell([c]) == InCell(c)
  {
    ReplaceOne(c, '|', "\\|");
    ReplaceOne(c, '\r', "");
    ReplaceOne(c, '\n', "<br>");
    if c == '|' {
      ReplaceNone("\\|", '\r', "");
      ReplaceNone("\\|", '\n', "<br>");
    }
  }

  /** The three passes over the text of a cell come to one substitution, character by character. */
  lemma {:induction false} CellByCharacter(text: string)
    ensures EscapeCell(text) == EachInCell(text)
  {
    if text != "" {
      EscapeOne(text[0]);
      CellByCharacter(text[1..]);
      EscapeConcat([text[0]], text[1..]);
      assert [text[0]] + text[1..] == text;
    }
  }

  // ------------------------------------------------------------------
  // Rows
  // ------------------------------------------------------------------

  /** The bars that divide columns: those without a backslash before them. */
  function Dividers(s: string, escaped: bool): nat {
    if s == "" then 0 else (if s[0] == '|' && !escaped then 1 else 0) + Dividers(s[1..], s[0] == '\\')
  }

  /** Whether what follows the text is escaped. */
  predicate Escapes(s: string, escaped: bool) {
    if s == "" then escaped else s[|s| - 1] == '\\'
  }

  lemma {:induction false} DividersConcat(a: string, b: string, escaped: bool)
    ensures Dividers(a + b, escaped) == Dividers(a, escaped) + Dividers(b, Escapes(a, escaped))
  {
    if a == "" {
      assert a + b == b;
    } else {
      assert (a + b)[1..] == a[1..] + b;
      DividersConcat(a[1..], b, a[0] == '\\');
    }
  }

  predicate Divides(s: string, escaped: bool, i: nat)
    requires i < |s|
  {
    s[i] == '|' && !(if i == 0 then escaped else s[i - 1] == '\\')
  }

  lemma {:induction false} NoDivider(s: string, escaped: bool)
    requires forall i: nat | i < |s| :: !Divides(s, escaped, i)
    ensures Dividers(s, escaped) == 0
  {
    if s != "" {
      assert !Divides(s, escaped, 0);
      var tail, next := s[1..], s[0] == '\\';
      forall i: nat | i < |tail| ensures !Divides(tail, next, i) {
        assert !Divides(s, escaped, i + 1);
      }
      NoDivider(tail, next);
    }
  }

  /** One cell with the bar before it. */
  function CellText(content: string): string {
    "| " + EscapeCell(content) + " "
  }

  lemma {:induction false} CellHasOneDivider(content: string)
    ensures Dividers(CellText(content), false) == 1 && !Escapes(CellText(content), false)
    ensures '\n' !in CellText(content)
  {
    var cell := EscapeCell(content);
    CellStaysInPlace(content);
    NoDivider(cell, false);
    assert Dividers("| ", false) == 1 + Dividers(" ", false) by {
      assert "| "[1..] == " ";
    }
    assert forall escaped :: Dividers(" ", escaped) == 0 by {
      assert " "[1..] == "";
    }
    DividersConcat("| ", cell, false);
    DividersConcat("| " + cell, " ", false);
  }

  lemma {:induction false} RowCons(parts: seq<Part>)
    requires parts != []
    ensures RowText(parts) == CellText(parts[0].content) + RowText(parts[1..])
  {
  }

  /** A row is one line with a column for each cell: one divider before each and one at the end. */
  lemma {:induction false} RowHasItsColumns(parts: seq<Part>)
    ensures '\n' !in RowText(parts) && Dividers(RowText(parts), false) == |parts| + 1
  {
    if parts == [] {
      assert "|"[1..] == "";
    } else {
      var cell := CellText(parts[0].content);
      RowCons(parts);
      CellHasOneDivider(parts[0].content);
      RowHasItsColumns(parts[1..]);
      DividersConcat(cell, RowText(parts[1..]), false);
    }
  }

  /** Cell k stands between dividers k and k + 1 of its row. */
  lemma {:induction false} CellInItsColumn(parts: seq<Part>, k: nat) returns (before: string, after: string)
    requires k < |parts|
    ensures RowText(parts) == before + CellText(parts[k].content) + "|" + after
    ensures Dividers(before, false) == k && !Escapes(before, false)
  {
    var first := CellText(parts[0].content);
    RowCons(parts);
    if k == 0 {
      before := "";
      after := RowStarts(parts[1..]);
      FirstCell(first, after);
    } else {
      var inner;
      inner, after := CellInItsColumn(parts[1..], k - 1);
      before := first + inner;
      LaterCell(first, inner, CellText(parts[k].content), after);
      CellHasOneDivider(parts[0].content);
      DividersConcat(first, inner, false);
    }
  }

  lemma {:induction false} FirstCell(first: string, after: string)
    ensures first + ("|" + after) == "" + first + "|" + after
  {
  }

  lemma {:induction false} LaterCell(first: string, inner: string, cell: string, after: string)
    ensures first + (inner + cell + "|" + after) == first + inner + cell + "|" + after
  {
  }

  lemma {:induction false} RowStarts(parts: seq<Part>) returns (after: string)
    ensures RowText(parts) == "|" + after
  {
    after := RowText(parts)[1..];
    assert RowText(parts)[0] == '|';
  }

  // ------------------------------------------------------------------
  // Tables
  // ------------------------------------------------------------------

  lemma {:induction false} RuleShape(n: nat)
    ensures |Repeat("|---", n)| == 4 * n
    ensures forall i | 0 <= i < 4 * n :: Repeat("|---", n)[i] == if i % 4 == 0 then '|' else '-'
  {
    if n > 0 {
      RuleShape(n - 1);
      var rule := Repeat("|---", n - 1);
      forall i | 0 <= i < 4 * n ensures Repeat("|---", n)[i] == if i % 4 == 0 then '|' else '-' {
        if i >= 4 {
          assert Repeat("|---", n)[i] == rule[i - 4];
        }
      }
    }
  }

  /** The line under the head of a table with n columns: n times a bar and three dashes, and a bar. */
  predicate IsRule(line: string, n: nat) {
    |line| == 4 * n + 1 && forall i | 0 <= i < |line| :: line[i] == if i % 4 == 0 then '|' else '-'
  }

  lemma {:induction false} LinesOfFirst(first: string, rest: string)
    requires '\n' !in first
    ensures Lines(first + "\n" + rest) == [first] + Lines(rest)
    ensures Lines(first) == [first]
  {
    FirstNewline(first, rest);
    var s := first + "\n" + rest;
    assert s[..|first|] == first && s[|first| + 1..] == rest;
  }

  lemma {:induction false} LinesConcat(a: string, b: string)
    ensures Lines(a + "\n" + b) == Lines(a) + Lines(b)
    decreases |a|
  {
    if SplitterSpec.Find(a, "\n", 0) < 0 {
      SplitterSpec.FindHits(a, "\n", 0);
      LineWithoutEnd(a, |a|);
      LinesOfFirst(a, b);
    } else {
      var first, rest := SplitFirst(a);
      LinesConcat(rest, b);
      assert a + "\n" + b == first + "\n" + (rest + "\n" + b);
      LinesOfFirst(first, rest + "\n" + b);
      Associate([first], Lines(rest), Lines(b));
    }
  }

  /** Rows with at least one cell. */
  predicate AreRows(blocks: seq<Block>, depth: nat) {
    blocks == []
    || (IsRow(blocks[0]) && FoldAll(blocks[0].children, depth, 1) != [] && AreRows(blocks[1..], depth))
  }

  function RowTexts(rows: seq<Block>, depth: nat): seq<string>
    requires AreRows(rows, depth)
  {
    if rows == [] then [] else [RowText(FoldAll(rows[0].children, depth, 1))] + RowTexts(rows[1..], depth)
  }

  lemma {:induction false} RowPart(row: Block, depth: nat, number: nat)
    requires IsRow(row) && FoldAll(row.children, depth, 1) != []
    ensures var cells := FoldAll(row.children, depth, 1);
      Fold(row, depth, number) == [Part(Text, RowText(cells), None, None, Some(|cells|))]
  {
  }

  lemma {:induction false} RowContents(rows: seq<Block>, depth: nat, number: nat)
    requires AreRows(rows, depth)
    ensures ContentsOf(FoldAll(rows, depth, number)) == RowTexts(rows, depth)
    decreases |rows|
  {
    if rows != [] {
      RowPart(rows[0], depth, number);
      RowContents(rows[1..], depth, number + 1);
      var parts := FoldAll(rows, depth, number);
      assert parts[1..] == FoldAll(rows[1..], depth, number + 1);
    }
  }

  lemma {:induction false} RowTextsSingle(rows: seq<Block>, depth: nat)
    requires AreRows(rows, depth)
    ensures SingleLines(RowTexts(rows, depth)) && |RowTexts(rows, depth)| == |rows|
  {
    if rows != [] {
      RowHasItsColumns(FoldAll(rows[0].children, depth, 1));
      RowTextsSingle(rows[1..], depth);
    }
  }

  /** The head of a table: the line of its first row, and under it a rule with as many columns. */
  lemma {:induction false} HeadHasRule(head: Block, depth: nat, number: nat) returns (rule: string)
    requires IsNode(head, Thead) && head.children != [] && IsRow(head.children[0])
    requires FoldAll(head.children[0].children, depth, 1) != []
    ensures var cells := FoldAll(head.children[0].children, depth, 1);
      && IsRule(rule, |cells|)
      && |Fold(head, depth, number)| == 1
      && Fold(head, depth, number)[0].content == RowText(cells) + "\n" + rule
  {
    var cells := FoldAll(head.children[0].children, depth, 1);
    rule := Repeat("|---", |cells|) + "|";
    RowPart(head.children[0], depth, 1);
    RuleShape(|cells|);
    var parts := FoldAll(head.children, depth, 1);
    assert parts[0] == Part(Text, RowText(cells), None, None, Some(|cells|));
    Associate(RowText(cells) + "\n", Repeat("|---", |cells|), "|");
  }

  lemma {:induction false} RuleIsLine(rule: string, n: nat)
    requires IsRule(rule, n)
    ensures '\n' !in rule
  {
    forall i | 0 <= i < |rule| ensures rule[i] != '\n' {
      assert rule[i] == if i % 4 == 0 then '|' else '-';
    }
  }

  /** A table with a head of one row and a body of rows: its lines are the row of the head, the rule,
      and the rows of the body, in order. */
  lemma {:induction false} TableLines(table: Block, depth: nat, number: nat) returns (rule: string)
    requires IsNode(table, Table) && |table.children| == 2
    requires IsNode(table.children[0], Thead) && IsNode(table.children[1], Tbody)
    requires AreRows(table.children[0].children, depth + 1) && |table.children[0].children| == 1
    requires AreRows(table.children[1].children, depth + 1) && table.children[1].children != []
    ensures IsRule(rule, |FoldAll(table.children[0].children[0].children, depth + 1, 1)|)
    ensures |Fold(table, depth, number)| == 1
    ensures Lines(Fold(table, depth, number)[0].content)
         == RowTexts(table.children[0].children, depth + 1) + [rule] + RowTexts(table.children[1].children, depth + 1)
  {
    var head, body := table.children[0], table.children[1];
    var cells := FoldAll(head.children[0].children, depth + 1, 1);
    rule := HeadHasRule(head, depth + 1, 1);
    RowHasItsColumns(cells);
    RuleIsLine(rule, |cells|);
    var top := RowText(cells) + "\n" + rule;
    LinesOfFirst(RowText(cells), rule);
    LinesOfFirst(rule, "");
    assert head.children[1..] == [];
    assert RowTexts(head.children, depth + 1) == [RowText(cells)];
    var rest := BodyLines(body, depth + 1, 2);
    LinesConcat(top, rest);
    TableContent(table, depth, number, top, rest);
  }

  lemma {:induction false} BodyLines(body: Block, depth: nat, number: nat) returns (content: string)
    requires IsNode(body, Tbody) && AreRows(body.children, depth) && body.children != []
    ensures |Fold(body, depth, number)| == 1 && content == Fold(body, depth, number)[0].content
    ensures Lines(content) == RowTexts(body.children, depth)
  {
    RowContents(body.children, depth, 1);
    RowTextsSingle(body.children, depth);
    content := Fold(body, depth, number)[0].content;
    SplitOfJoined(RowTexts(body.children, depth));
  }

  lemma {:induction false} TwoContents(a: Part, b: Part)
    ensures ContentsOf([a, b]) == [a.content, b.content]
  {
    assert [a, b][1..] == [b] && [b][1..] == [];
    assert ContentsOf([b]) == [b.content] + ContentsOf([]);
  }

  lemma {:induction false} TableContent(table: Block, depth: nat, number: nat, top: string, rest: string)
    requires IsNode(table, Table) && |table.children| == 2
    requires |Fold(table.children[0], depth + 1, 1)| == 1 && Fold(table.children[0], depth + 1, 1)[0].content == top
    requires |Fold(table.children[1], depth + 1, 2)| == 1 && Fold(table.children[1], depth + 1, 2)[0].content == rest
    ensures |Fold(table, depth, number)| == 1 && Fold(table, depth, number)[0].content == top + "\n" + rest
  {
    var parts := FoldAll(table.children, depth + 1, 1);
    var a, b := Fold(table.children[0], depth + 1, 1), Fold(table.children[1], depth + 1, 2);
    assert table.children[1..][1..] == [];
    assert FoldAll(table.children[1..], depth + 1, 2) == b;
    assert parts == [a[0], b[0]];
    TwoContents(a[0], b[0]);
    JoinCons(top, [rest]);
    assert [top] + [rest] == [top, rest];
  }
}
