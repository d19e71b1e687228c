/** Where the text of each leaf of a document is found again, and in which form. */
module MarkdownContents {
  import opened Common
  import opened MarkdownSpec
  import opened MarkdownText
  import opened MarkdownLines
  import opened MarkdownProofs
  import SplitterSpec

  // ------------------------------------------------------------------
  // Parts come in the order of the document
  // ------------------------------------------------------------------

  /** The first path leads to a block that begins before the one the second path leads to. */
  predicate Before(p: BlockPath, q: BlockPath) {
    q != [] && (p == [] || p[0] < q[0] || (p[0] == q[0] && Before(p[1..], q[1..])))
  }

  lemma {:induction false} NotBeforeItself(p: BlockPath)
    ensures !Before(p, p)
  {
    if p != [] {
      NotBeforeItself(p[1..]);
    }
  }

  ghost predicate Increasing(paths: seq<BlockPath>) {
    forall i, j | 0 <= i < j < |paths| :: Before(paths[i], paths[j])
  }

  /** Every path begins with at least `k`. */
  predicate From(paths: seq<BlockPath>, k: nat) {
    forall i | 0 <= i < |paths| :: paths[i] != [] && paths[i][0] >= k
  }

  lemma {:induction false} DownIncreases(k: nat, paths: seq<BlockPath>)
    requires Increasing(paths)
    ensures Increasing(Down(k, paths))
    ensures forall i | 0 <= i < |Down(k, paths)| :: Down(k, paths)[i] != [] && Down(k, paths)[i][0] == k
  {
    var down := Down(k, paths);
    DownIndex(k, paths, 0);
    forall i | 0 <= i < |down| ensures down[i] == [k] + paths[i] {
      DownIndex(k, paths, i);
    }
    forall i, j | 0 <= i < j < |down| ensures Before(down[i], down[j]) {
      assert down[i][1..] == paths[i] && down[j][1..] == paths[j];
    }
  }

  lemma {:induction false} EmittersIncrease(block: Block, depth: nat, number: nat)
    ensures Increasing(Emitters(block, depth, number))
    decreases block, 0
  {
    if block.Node? && block.open.ttype.Open? {
      var inner := InnerNesting(block.open.ttype.kind, depth);
      AllEmittersIncrease(block.children, inner, 1, 0);
      ItemFirst(EmittersAll(block.children, inner, 1, 0));
    }
  }

  lemma {:induction false} ItemFirst(paths: seq<BlockPath>)
    requires Increasing(paths) && From(paths, 0)
    ensures Increasing([[]] + paths)
  {
    var all := [[]] + paths;
    forall i, j | 0 <= i < j < |all| ensures Before(all[i], all[j]) {
      if i > 0 {
        assert Before(paths[i - 1], paths[j - 1]);
      }
    }
  }

  lemma {:induction false} AllEmittersIncrease(blocks: seq<Block>, depth: nat, number: nat, k: nat)
    ensures Increasing(EmittersAll(blocks, depth, number, k)) && From(EmittersAll(blocks, depth, number, k), k)
    decreases blocks, 0
  {
    if blocks != [] {
      EmittersIncrease(blocks[0], depth, number);
      AllEmittersIncrease(blocks[1..], depth, number + 1, k + 1);
      DownIncreases(k, Emitters(blocks[0], depth, number));
      var x, y := Down(k, Emitters(blocks[0], depth, number)), EmittersAll(blocks[1..], depth, number + 1, k + 1);
      forall i, j | 0 <= i < j < |x + y| ensures Before((x + y)[i], (x + y)[j]) {
        if j < |x| {
          assert Before(x[i], x[j]);
        } else if i >= |x| {
          assert Before(y[i - |x|], y[j - |x|]);
        }
      }
    }
  }

  /** Part by part the emitting blocks follow each other in the document, so none emits two parts. */
  lemma {:induction false} PartsInDocumentOrder(blocks: seq<Block>, i: nat, j: nat)
    requires i < j < |EmittersAll(blocks, 0, 1, 0)|
    ensures Before(EmittersAll(blocks, 0, 1, 0)[i], EmittersAll(blocks, 0, 1, 0)[j])
  {
    AllEmittersIncrease(blocks, 0, 1, 0);
  }

  // ------------------------------------------------------------------
  // Every leaf is shown
  // ------------------------------------------------------------------

  /** Blocks that hand on the parts inside them one by one. */
  predicate HandsOn(kind: Kind) {
    kind in {Blockquote, Paragraph, OrderedList, BulletList, ListItem}
  }

  /** The block that emits the part for the leaf at the end of the path: the leaf itself, or the
      outermost heading or table around it. */
  function EmitterOf(block: Block, path: BlockPath): BlockPath
    requires IsPathIn(block, path)
  {
    if path == [] then []
    else if block.open.ttype.Open? && HandsOn(block.open.ttype.kind) then
      [path[0]] + EmitterOf(block.children[path[0]], path[1..])
    else []
  }

  /** Of a table head the path takes the first row. */
  predicate InFirstRows(block: Block, path: BlockPath)
    requires IsPathIn(block, path)
  {
    path == []
    || ((block.open.ttype == Open(Thead) ==> path[0] == 0 && IsRow(block.children[0]))
        && InFirstRows(block.children[path[0]], path[1..]))
  }

  /** The text lines of the leaf at the end of the path, escaped once for each table row around it. */
  function LeafLines(block: Block, path: BlockPath): seq<string>
    requires IsPathIn(block, path)
  {
    if path == [] then LinesUnder(block)
    else if IsRow(block) then EscapeAll(LeafLines(block.children[path[0]], path[1..]))
    else LeafLines(block.children[path[0]], path[1..])
  }

  ghost predicate PartOf(x: seq<string>, y: seq<string>) {
    exists a, b :: y == a + x + b
  }

  lemma {:induction false} PartOfChildren(blocks: seq<Block>, k: nat, x: seq<string>)
    requires k < |blocks| && PartOf(x, LinesUnder(blocks[k]))
    ensures PartOf(x, LinesUnderAll(blocks))
  {
    if k == 0 {
      var a, b :| LinesUnder(blocks[0]) == a + x + b;
      Associate(a + x, b, LinesUnderAll(blocks[1..]));
      assert LinesUnderAll(blocks) == a + x + (b + LinesUnderAll(blocks[1..]));
    } else {
      PartOfChildren(blocks[1..], k - 1, x);
      var a, b :| LinesUnderAll(blocks[1..]) == a + x + b;
      assert LinesUnderAll(blocks) == LinesUnder(blocks[0]) + a + x + b;
    }
  }

  lemma {:induction false} PartOfEscaped(x: seq<string>, y: seq<string>)
    requires PartOf(x, y)
    ensures PartOf(EscapeAll(x), EscapeAll(y))
  {
    var a, b :| y == a + x + b;
    EscapeAllConcat(a + x, b);
    EscapeAllConcat(a, x);
  }

  lemma {:induction false} ChildWellFormed(children: seq<Block>, parent: Kind, k: nat)
    requires AllWellFormed(children, parent) && k < |children|
    ensures WellFormed(children[k])
  {
    if k > 0 {
      ChildWellFormed(children[1..], parent, k - 1);
    }
  }

  /** The lines of a leaf are among those of every block around it. */
  lemma {:induction false} LeafLinesAmong(block: Block, path: BlockPath)
    requires WellFormed(block) && IsPathIn(block, path) && InFirstRows(block, path)
    ensures PartOf(LeafLines(block, path), LinesUnder(block))
    decreases |path|
  {
    if path == [] {
      assert LinesUnder(block) == [] + LinesUnder(block) + [];
    } else {
      var k := path[0];
      ChildWellFormed(block.children, block.open.ttype.kind, k);
      LeafLinesAmong(block.children[k], path[1..]);
      PartOfChildren(block.children, k, LeafLines(block.children[k], path[1..]));
      PartOfEscaped(LeafLines(block.children[k], path[1..]), LinesUnderAll(block.children));
    }
  }

  lemma {:induction false} EmitterHoldsLeaf(block: Block, path: BlockPath)
    requires WellFormed(block) && IsPathIn(block, path) && InFirstRows(block, path) && BlockAt(block, path).Leaf?
    ensures IsPathIn(block, EmitterOf(block, path))
    ensures PartOf(LeafLines(block, path), ShownLines(BlockAt(block, EmitterOf(block, path))))
    decreases |path|
  {
    if path != [] && HandsOn(block.open.ttype.kind) {
      var k := path[0];
      var deeper := EmitterOf(block.children[k], path[1..]);
      ChildWellFormed(block.children, block.open.ttype.kind, k);
      EmitterHoldsLeaf(block.children[k], path[1..]);
      assert ([k] + deeper)[1..] == deeper;
    } else {
      LeafLinesAmong(block, path);
    }
  }

  /** Part `i` of the block is emitted by the block at the end of the path. */
  predicate IsEmittedBy(block: Block, depth: nat, number: nat, i: nat, path: BlockPath) {
    Listed(Fold(block, depth, number), Emitters(block, depth, number), i, path)
  }

  /** The same for a list of blocks, the first of which is at position `k`. */
  predicate IsEmittedIn(blocks: seq<Block>, depth: nat, number: nat, k: nat, i: nat, path: BlockPath) {
    Listed(FoldAll(blocks, depth, number), EmittersAll(blocks, depth, number, k), i, path)
  }

  predicate Listed(parts: seq<Part>, paths: seq<BlockPath>, i: nat, path: BlockPath) {
    |parts| == |paths| && i < |parts| && paths[i] == path
  }

  lemma {:induction false} ListedBefore(
      x: seq<Part>, p: seq<BlockPath>, y: seq<Part>, q: seq<BlockPath>, i: nat, path: BlockPath)
    requires Listed(x, p, i, path) && |y| == |q|
    ensures Listed(x + y, p + q, i, path) && (x + y)[i] == x[i]
  {
  }

  lemma {:induction false} ListedAfter(
      x: seq<Part>, p: seq<BlockPath>, y: seq<Part>, q: seq<BlockPath>, i: nat, path: BlockPath)
    requires Listed(y, q, i, path) && |x| == |p|
    ensures Listed(x + y, p + q, |x| + i, path) && (x + y)[|x| + i] == y[i]
  {
  }

  lemma {:induction false} ListedDown(k: nat, parts: seq<Part>, paths: seq<BlockPath>, i: nat, path: BlockPath)
    requires Listed(parts, paths, i, path)
    ensures Listed(parts, Down(k, paths), i, [k] + path)
  {
    DownIndex(k, paths, i);
  }

  lemma {:induction false} SameLength(block: Block, depth: nat, number: nat)
    ensures |Emitters(block, depth, number)| == |Fold(block, depth, number)|
  {
    BlockEmits(block, depth, number);
  }

  lemma {:induction false} SameLengths(blocks: seq<Block>, depth: nat, number: nat, k: nat)
    ensures |EmittersAll(blocks, depth, number, k)| == |FoldAll(blocks, depth, number)|
  {
    if blocks != [] {
      SameLength(blocks[0], depth, number);
      DownIndex(k, Emitters(blocks[0], depth, number), 0);
      SameLengths(blocks[1..], depth, number + 1, k + 1);
    }
  }

  /** A part of child `k`, seen among the parts of all children. */
  lemma {:induction false} ChildIndex(
      blocks: seq<Block>, depth: nat, number: nat, k0: nat, k: nat, i: nat, path: BlockPath) returns (at: nat)
    requires k < |blocks| && IsEmittedBy(blocks[k], depth, number + k, i, path)
    ensures IsEmittedIn(blocks, depth, number, k0, at, [k0 + k] + path)
    ensures FoldAll(blocks, depth, number)[at] == Fold(blocks[k], depth, number + k)[i]
  {
    at := NumberedChildIndex(blocks, depth, number, k0, k0 + k, blocks[k], number + k, i, path);
  }

  /** The same for the child at place `k` of children that start at place `k0`. */
  lemma {:induction false} NumberedChildIndex(
      blocks: seq<Block>, depth: nat, number: nat, k0: nat, k: nat, child: Block, own: nat, i: nat, path: BlockPath)
    returns (at: nat)
    requires k0 <= k < k0 + |blocks| && blocks[k - k0] == child && own - number == k - k0
    requires IsEmittedBy(child, depth, own, i, path)
    ensures IsEmittedIn(blocks, depth, number, k0, at, [k] + path)
    ensures FoldAll(blocks, depth, number)[at] == Fold(child, depth, own)[i]
    decreases |blocks|
  {
    if k == k0 {
      at := i;
      FirstChildIndex(blocks, depth, number, k0, i, path);
    } else {
      var later := NumberedChildIndex(blocks[1..], depth, number + 1, k0 + 1, k, child, own, i, path);
      at := |Fold(blocks[0], depth, number)| + later;
      LaterIndex(blocks, depth, number, k0, later, [k] + path);
    }
  }

  lemma {:induction false} FirstChildIndex(blocks: seq<Block>, depth: nat, number: nat, k0: nat, i: nat, path: BlockPath)
    requires blocks != [] && IsEmittedBy(blocks[0], depth, number, i, path)
    ensures IsEmittedIn(blocks, depth, number, k0, i, [k0] + path)
    ensures FoldAll(blocks, depth, number)[i] == Fold(blocks[0], depth, number)[i]
  {
    var x, p := Fold(blocks[0], depth, number), Emitters(blocks[0], depth, number);
    var y, q := FoldAll(blocks[1..], depth, number + 1), EmittersAll(blocks[1..], depth, number + 1, k0 + 1);
    SameLengths(blocks[1..], depth, number + 1, k0 + 1);
    ListedDown(k0, x, p, i, path);
    ListedBefore(x, Down(k0, p), y, q, i, [k0] + path);
  }

  lemma {:induction false} LaterIndex(blocks: seq<Block>, depth: nat, number: nat, k0: nat, later: nat, path: BlockPath)
    requires blocks != [] && IsEmittedIn(blocks[1..], depth, number + 1, k0 + 1, later, path)
    ensures var at := |Fold(blocks[0], depth, number)| + later;
      && IsEmittedIn(blocks, depth, number, k0, at, path)
      && FoldAll(blocks, depth, number)[at] == FoldAll(blocks[1..], depth, number + 1)[later]
  {
    var x, p := Fold(blocks[0], depth, number), Emitters(blocks[0], depth, number);
    SameLength(blocks[0], depth, number);
    DownIndex(k0, p, 0);
    ListedAfter(x, Down(k0, p), FoldAll(blocks[1..], depth, number + 1),
                EmittersAll(blocks[1..], depth, number + 1, k0 + 1), later, path);
  }

  /** A leaf with some text has a part. */
  lemma {:induction false} EmitterIsListed(block: Block, path: BlockPath, depth: nat, number: nat) returns (i: nat)
    requires WellFormed(block) && IsPathIn(block, path) && InFirstRows(block, path)
    requires BlockAt(block, path).Leaf? && LeafLines(block, path) != []
    ensures IsEmittedBy(block, depth, number, i, EmitterOf(block, path))
    decreases |path|
  {
    if path != [] && HandsOn(block.open.ttype.kind) {
      var k, inner := path[0], InnerNesting(block.open.ttype.kind, depth);
      var deeper := EmitterOf(block.children[k], path[1..]);
      ChildWellFormed(block.children, block.open.ttype.kind, k);
      i := EmitterIsListed(block.children[k], path[1..], inner, 1 + k);
      i := ChildIndex(block.children, inner, 1, 0, k, i, deeper);
      i := HandedOn(block, depth, number, i, [k] + deeper);
    } else {
      i := 0;
      OwnIsListed(block, path, depth, number);
    }
  }

  /** A part inside a block that hands on its parts is emitted by the same block seen from outside. */
  lemma {:induction false} HandedOn(block: Block, depth: nat, number: nat, at: nat, path: BlockPath) returns (i: nat)
    requires block.Node? && block.open.ttype.Open? && HandsOn(block.open.ttype.kind)
    requires IsEmittedIn(block.children, InnerNesting(block.open.ttype.kind, depth), 1, 0, at, path)
    ensures IsEmittedBy(block, depth, number, i, path)
    ensures i == if block.open.ttype.kind.ListItem? && !IsText(FoldAll(block.children, depth, 1)[0]) then at + 1 else at
  {
    SameLength(block, depth, number);
    i := if block.open.ttype.kind.ListItem? && !IsText(FoldAll(block.children, depth, 1)[0]) then at + 1 else at;
  }

  lemma {:induction false} OwnIsListed(block: Block, path: BlockPath, depth: nat, number: nat)
    requires WellFormed(block) && IsPathIn(block, path) && InFirstRows(block, path)
    requires LeafLines(block, path) != [] && EmitterOf(block, path) == []
    requires path == [] ==> block.Leaf?
    ensures IsEmittedBy(block, depth, number, 0, [])
  {
    LeafLinesAmong(block, path);
    BlockShows(block, depth, number);
    SameLength(block, depth, number);
  }

  lemma {:induction false} InOrderPart(content: string, a: seq<string>, x: seq<string>, b: seq<string>)
    requires InOrder(content, a + x + b)
    ensures InOrder(content, x)
  {
    Associate(a, x, b);
    InOrderRight(content, a, x + b);
    InOrderLeft(content, x, b);
  }

  lemma {:induction false} InOrderRight(content: string, x: seq<string>, y: seq<string>)
    requires InOrder(content, x + y)
    ensures InOrder(content, y)
    decreases |x|
  {
    if x == [] {
      assert x + y == y;
    } else {
      var u, v := First(content, x + y);
      assert (x + y)[1..] == x[1..] + y && (x + y)[0] == x[0];
      InOrderRight(v, x[1..], y);
      InOrderInside(u + x[0], v, "", y);
      assert u + x[0] + v + "" == u + x[0] + v;
    }
  }

  lemma {:induction false} InOrderLeft(content: string, x: seq<string>, y: seq<string>)
    requires InOrder(content, x + y)
    ensures InOrder(content, x)
    decreases |x|
  {
    if x != [] {
      var u, v := First(content, x + y);
      assert (x + y)[1..] == x[1..] + y && (x + y)[0] == x[0];
      InOrderLeft(v, x[1..], y);
      Found(content, u, v, x);
    }
  }

  /** Every line of every leaf that has text is found, in order, in the part emitted at the leaf's place:
      by the leaf itself, or by the heading or table around it. Lines are escaped in table cells only. */
  lemma {:induction false} LeafIsShown(block: Block, path: BlockPath, depth: nat, number: nat) returns (i: nat)
    requires WellFormed(block) && IsPathIn(block, path) && InFirstRows(block, path)
    requires BlockAt(block, path).Leaf? && LeafLines(block, path) != []
    ensures IsEmittedBy(block, depth, number, i, EmitterOf(block, path))
    ensures InOrder(Fold(block, depth, number)[i].content, LeafLines(block, path))
  {
    i := EmitterIsListed(block, path, depth, number);
    EmitterHoldsLeaf(block, path);
    NestingIsDepth(block, depth, number, i);
    var a, b :| ShownLines(BlockAt(block, EmitterOf(block, path))) == a + LeafLines(block, path) + b;
    InOrderPart(Fold(block, depth, number)[i].content, a, LeafLines(block, path), b);
  }

  lemma {:induction false} DocumentBlock(blocks: seq<Block>, k: nat)
    requires Document(blocks) && k < |blocks|
    ensures WellFormed(blocks[k])
  {
    if k > 0 {
      DocumentBlock(blocks[1..], k - 1);
    }
  }

  /** The same for the whole document: the leaf is at the end of `path` in block `k`. */
  lemma {:induction false} DocumentTextIsShown(blocks: seq<Block>, k: nat, path: BlockPath) returns (at: nat)
    requires Document(blocks) && k < |blocks| && IsPathIn(blocks[k], path) && InFirstRows(blocks[k], path)
    requires BlockAt(blocks[k], path).Leaf? && LeafLines(blocks[k], path) != []
    ensures IsEmittedIn(blocks, 0, 1, 0, at, [k] + EmitterOf(blocks[k], path))
    ensures InOrder(FoldAll(blocks, 0, 1)[at].content, LeafLines(blocks[k], path))
  {
    DocumentBlock(blocks, k);
    var i := LeafIsShown(blocks[k], path, 0, 1 + k);
    at := InDocument(blocks, k, i, EmitterOf(blocks[k], path));
  }

  /** A part of block `k`, seen among all parts of the document. */
  lemma {:induction false} InDocument(blocks: seq<Block>, k: nat, i: nat, path: BlockPath) returns (at: nat)
    requires k < |blocks| && IsEmittedBy(blocks[k], 0, 1 + k, i, path)
    ensures IsEmittedIn(blocks, 0, 1, 0, at, [k] + path)
    ensures FoldAll(blocks, 0, 1)[at] == Fold(blocks[k], 0, 1 + k)[i]
  {
    at := ChildIndex(blocks, 0, 1, 0, k, i, path);
  }

  /** Of a table head only the first row counts: whatever rows follow it, the result is the same. */
  lemma {:induction false} LaterHeadRowsAreLost(
      open: Token, close: Token, first: Block, rows: seq<Block>, others: seq<Block>, depth: nat, number: nat)
    requires open.ttype == Open(Thead) && Fold(first, depth, 1) != []
    ensures Fold(Node(open, [first] + rows, close), depth, number) == Fold(Node(open, [first] + others, close), depth, number)
  {
    var x, y := [first] + rows, [first] + others;
    assert x[0] == first == y[0];
    assert FoldAll(x, depth, 1)[0] == Fold(first, depth, 1)[0] == FoldAll(y, depth, 1)[0];
  }

  // ------------------------------------------------------------------
  // The exact lines under quotes and lists
  // ------------------------------------------------------------------

  /** There are only quotes, paragraphs, lists and items on the way to the leaf. */
  predicate InQuotesAndLists(block: Block, path: BlockPath)
    requires IsPathIn(block, path)
  {
    path == []
    || (block.open.ttype.Open? && HandsOn(block.open.ttype.kind)
        && InQuotesAndLists(block.children[path[0]], path[1..]))
  }

  predicate OneLineMarkup(block: Block, path: BlockPath)
    requires IsPathIn(block, path)
  {
    path == [] || ('\n' !in block.open.markup && OneLineMarkup(block.children[path[0]], path[1..]))
  }

  /** Whether the leaf at the end of the path gives the first part inside this item. */
  predicate ComesFirst(item: Block, path: BlockPath, depth: nat)
    requires item.Node?
  {
    var paths := EmittersAll(item.children, depth, 1, 0);
    paths != [] && paths[0] == path
  }

  /** What stands before line `j` of the leaf: from the outside in, the mark of each quote and the place
      in each item. The first line of the first part of an item has its marker, the other lines of that
      part have as many spaces, and later parts have four. */
  function LinePrefix(block: Block, path: BlockPath, depth: nat, number: nat, j: nat): string
    requires IsPathIn(block, path)
  {
    if path == [] then ""
    else
      var inner := if block.open.ttype.Open? then InnerNesting(block.open.ttype.kind, depth) else depth;
      OwnPrefix(block, path, depth, number, j) + LinePrefix(block.children[path[0]], path[1..], inner, 1 + path[0], j)
  }

  function OwnPrefix(block: Block, path: BlockPath, depth: nat, number: nat, j: nat): string
    requires block.Node?
  {
    if block.open.ttype == Open(Blockquote) then block.open.markup + " "
    else if block.open.ttype == Open(ListItem) then ItemLine(block.open, number, ComesFirst(block, path, depth), j)
    else ""
  }

  /** What an item puts before line `j` of a part inside it. */
  function ItemLine(item: Token, number: nat, first: bool, j: nat): string {
    if !first then "    "
    else if j == 0 then (if item.info != "" then Decimal(number) else "") + item.markup + " "
    else Repeat(" ", (if item.info != "" then |Decimal(number)| else 0) + |item.markup| + 1)
  }

  function OwnPrefixes(block: Block, path: BlockPath, depth: nat, number: nat): nat -> string
    requires block.Node?
  {
    (j: nat) => OwnPrefix(block, path, depth, number, j)
  }

  function LinePrefixes(block: Block, path: BlockPath, depth: nat, number: nat): nat -> string
    requires IsPathIn(block, path)
  {
    (j: nat) => LinePrefix(block, path, depth, number, j)
  }

  /** Line by line, the second text is the first with something before each line. */
  ghost predicate PrefixedBy(before: nat -> string, text: string, content: string) {
    && |Lines(content)| == |Lines(text)|
    && forall j: nat | j < |Lines(text)| :: Lines(content)[j] == before(j) + Lines(text)[j]
  }

  lemma {:induction false} PrefixAllAt(prefix: string, lines: seq<string>)
    ensures |PrefixAll(prefix, lines)| == |lines|
    ensures forall j: nat | j < |lines| :: PrefixAll(prefix, lines)[j] == prefix + lines[j]
  {
    if lines != [] {
      PrefixAllAt(prefix, lines[1..]);
      assert forall j: nat | 0 < j < |lines| :: lines[j] == lines[1..][j - 1];
    }
  }

  lemma {:induction false} LinesMarked(marker: string, content: string, j: nat)
    requires '\n' !in marker && j < |Lines(content)|
    ensures |Lines(MarkLines(marker, content))| == |Lines(content)|
    ensures Lines(MarkLines(marker, content))[j] == (if j == 0 then marker else Repeat(" ", |marker|)) + Lines(content)[j]
  {
    MarkerOnFirstLineOnly(marker, content);
    PrefixAllAt(Repeat(" ", |marker|), Lines(content)[1..]);
  }

  lemma {:induction false} QuotedAt(markup: string, parts: seq<Part>, i: nat)
    requires i < |parts|
    ensures |QuoteParts(markup, parts)| == |parts|
    ensures QuoteParts(markup, parts)[i]
         == if IsText(parts[i]) then parts[i].(content := PrefixLines(markup + " ", parts[i].content)) else parts[i]
  {
    if |parts| > 1 {
      QuotedAt(markup, parts[1..], if i > 0 then i - 1 else 0);
    }
  }

  lemma {:induction false} IndentedAt(parts: seq<Part>, i: nat)
    requires i < |parts|
    ensures |IndentParts(parts)| == |parts|
    ensures IndentParts(parts)[i]
         == if IsText(parts[i]) then parts[i].(content := PrefixLines("    ", parts[i].content)) else parts[i]
  {
    if |parts| > 1 {
      IndentedAt(parts[1..], if i > 0 then i - 1 else 0);
    }
  }

  lemma {:induction false} DigitsOnly(n: nat)
    ensures forall c <- Decimal(n) :: '0' <= c <= '9'
    ensures Decimal(n) != "" && (n >= 10 ==> Decimal(n)[0] != '0')
    decreases n
  {
    if n >= 10 {
      DigitsOnly(n / 10);
      if n / 10 < 10 {
        assert Decimal(n)[0] == "0123456789"[n / 10];
      }
    }
  }

  lemma {:induction false} RepeatLength(s: string, n: nat)
    requires |s| == 1
    ensures |Repeat(s, n)| == n
  {
    if n > 0 {
      RepeatLength(s, n - 1);
    }
  }

  /** The part `leaf` with `before` in front of each line, unless it is code, which stays as it is. */
  ghost predicate ShownAs(leaf: Part, before: nat -> string, part: Part) {
    && part.kind == leaf.kind
    && if leaf.kind.Code? then part.content == leaf.content else PrefixedBy(before, leaf.content, part.content)
  }

  lemma {:induction false} MorePrefix(
      leaf: Part, part: Part, outer: Part, own: nat -> string, inner: nat -> string, before: nat -> string)
    requires ShownAs(leaf, inner, part) && ShownAs(part, own, outer)
    requires forall j: nat :: before(j) == own(j) + inner(j)
    ensures ShownAs(leaf, before, outer)
  {
    if IsText(leaf) {
      forall j: nat | j < |Lines(leaf.content)| ensures Lines(outer.content)[j] == before(j) + Lines(leaf.content)[j] {
        Associate(own(j), inner(j), Lines(leaf.content)[j]);
      }
    }
  }

  lemma {:induction false} NoPrefix(part: Part, own: nat -> string)
    requires forall j: nat :: own(j) == ""
    ensures ShownAs(part, own, part)
  {
    forall j: nat | j < |Lines(part.content)| ensures Lines(part.content)[j] == own(j) + Lines(part.content)[j] {
      assert "" + Lines(part.content)[j] == Lines(part.content)[j];
    }
  }

  /** A part whose lines get a prefix if it is text. */
  lemma {:induction false} WithPrefix(prefix: string, part: Part, own: nat -> string)
    requires '\n' !in prefix && forall j: nat :: own(j) == prefix
    ensures ShownAs(part, own, if IsText(part) then part.(content := PrefixLines(prefix, part.content)) else part)
  {
    if IsText(part) {
      EveryLinePrefixed(prefix, part.content);
      PrefixAllAt(prefix, Lines(part.content));
    }
  }

  lemma {:induction false} MarkPrefix(marker: string, content: string, own: nat -> string)
    requires '\n' !in marker && forall j: nat :: own(j) == if j == 0 then marker else Repeat(" ", |marker|)
    ensures PrefixedBy(own, content, MarkLines(marker, content))
  {
    LinesMarked(marker, content, 0);
    forall j: nat | j < |Lines(content)| ensures Lines(MarkLines(marker, content))[j] == own(j) + Lines(content)[j] {
      LinesMarked(marker, content, j);
    }
  }

  /** Whether the part at position `at` inside an item is its first is a matter of its path. */
  lemma {:induction false} FirstByPath(item: Block, path: BlockPath, depth: nat, at: nat)
    requires item.Node? && at < |EmittersAll(item.children, depth, 1, 0)|
    requires EmittersAll(item.children, depth, 1, 0)[at] == path
    ensures ComesFirst(item, path, depth) <==> at == 0
  {
    AllEmittersIncrease(item.children, depth, 1, 0);
    if at > 0 {
      NotBeforeItself(path);
    }
  }

  lemma {:induction false} MarkerLength(item: Token, number: nat)
    requires '\n' !in item.markup
    ensures '\n' !in Marker(item, number)
    ensures |Marker(item, number)| == (if item.info != "" then |Decimal(number)| else 0) + |item.markup| + 1
    ensures Marker(item, number) == (if item.info != "" then Decimal(number) else "") + item.markup + " "
  {
    DigitsOnly(number);
    assert "" + item.markup == item.markup;
  }

  function InItem(marker: string, at: nat, j: nat): string {
    if at > 0 then "    " else if j == 0 then marker else Repeat(" ", |marker|)
  }

  /** The place of a part in an item says what its lines get. */
  lemma {:induction false} ItemPartAt(token: Token, marker: string, parts: seq<Part>, nesting: nat, at: nat, own: nat -> string)
    requires at < |parts| && '\n' !in marker
    requires forall j: nat :: own(j) == InItem(marker, at, j)
    ensures var i := if IsText(parts[0]) then at else at + 1;
      i < |ItemParts(token, marker, parts, nesting)| && ShownAs(parts[at], own, ItemParts(token, marker, parts, nesting)[i])
  {
    if at > 0 {
      IndentedAt(parts[1..], at - 1);
      WithPrefix("    ", parts[at], own);
    } else if IsText(parts[0]) {
      MarkPrefix(marker, parts[0].content, own);
    }
  }

  /** A part inside an item, seen from outside: where it is, and with what before its lines. */
  lemma {:induction false} ItemPrefix(block: Block, path: BlockPath, depth: nat, number: nat, at: nat) returns (i: nat)
    requires block.Node? && block.open.ttype == Open(ListItem) && '\n' !in block.open.markup
    requires IsEmittedIn(block.children, depth, 1, 0, at, path)
    ensures IsEmittedBy(block, depth, number, i, path)
    ensures ShownAs(FoldAll(block.children, depth, 1)[at], OwnPrefixes(block, path, depth, number), Fold(block, depth, number)[i])
  {
    i := HandedOn(block, depth, number, at, path);
    ItemOwnPrefix(block, path, depth, number, at);
    ItemPartAt(block.open, Marker(block.open, number), FoldAll(block.children, depth, 1), depth, at,
               OwnPrefixes(block, path, depth, number));
    ItemFold(block, depth, number);
  }

  lemma {:induction false} ItemFold(block: Block, depth: nat, number: nat)
    requires block.Node? && block.open.ttype == Open(ListItem)
    ensures Fold(block, depth, number)
         == ItemParts(block.open, Marker(block.open, number), FoldAll(block.children, depth, 1), depth)
  {
  }

  lemma {:induction false} ItemOwnPrefix(block: Block, path: BlockPath, depth: nat, number: nat, at: nat)
    requires block.Node? && block.open.ttype == Open(ListItem) && '\n' !in block.open.markup
    requires IsEmittedIn(block.children, depth, 1, 0, at, path)
    ensures '\n' !in Marker(block.open, number)
    ensures forall j: nat :: OwnPrefixes(block, path, depth, number)(j) == InItem(Marker(block.open, number), at, j)
  {
    FirstByPath(block, path, depth, at);
    MarkerLength(block.open, number);
    forall j: nat ensures OwnPrefixes(block, path, depth, number)(j) == InItem(Marker(block.open, number), at, j) {
      ItemLineByPlace(block.open, number, ComesFirst(block, path, depth), at, j);
    }
  }

  lemma {:induction false} ItemLineByPlace(item: Token, number: nat, first: bool, at: nat, j: nat)
    requires '\n' !in item.markup && (first <==> at == 0)
    ensures ItemLine(item, number, first, j) == InItem(Marker(item, number), at, j)
  {
    MarkerLength(item, number);
  }

  /** A leaf, a heading or a table: it emits its part itself. */
  predicate EmitsItself(block: Block) {
    block.Leaf? || (block.open.ttype.Open? && !HandsOn(block.open.ttype.kind))
  }

  function NumberAt(path: BlockPath, number: nat): nat {
    if path == [] then number else NumberAt(path[1..], 1 + path[0])
  }

  /** The parts of the block at the end of the path, without what is around it. */
  function OwnParts(block: Block, path: BlockPath, depth: nat, number: nat): seq<Part>
    requires IsPathIn(block, path)
  {
    Fold(BlockAt(block, path), depth + NestsOn(block, path), NumberAt(path, number))
  }

  /** The exact text of a leaf, heading or table under quotes and lists: its own lines, each with what
      the quotes and items around it put before it. Code is never changed. */
  lemma {:induction false} PartIsExact(block: Block, path: BlockPath, depth: nat, number: nat) returns (i: nat)
    requires IsPathIn(block, path) && InQuotesAndLists(block, path) && OneLineMarkup(block, path)
    requires EmitsItself(BlockAt(block, path)) && OwnParts(block, path, depth, number) != []
    ensures IsEmittedBy(block, depth, number, i, path)
    ensures ShownAs(OwnParts(block, path, depth, number)[0], LinePrefixes(block, path, depth, number),
                    Fold(block, depth, number)[i])
    decreases |path|
  {
    if path == [] {
      i := 0;
      SameLength(block, depth, number);
      NoPrefix(Fold(block, depth, number)[0], LinePrefixes(block, path, depth, number));
    } else {
      var inner := InnerNesting(block.open.ttype.kind, depth);
      NestsFurther(block, path, depth, number);
      var inside := PartIsExact(block.children[path[0]], path[1..], inner, 1 + path[0]);
      i := ExactFromChild(block, path, depth, number, inside, OwnParts(block, path, depth, number)[0]);
    }
  }

  lemma {:induction false} NestsFurther(block: Block, path: BlockPath, depth: nat, number: nat)
    requires path != [] && IsPathIn(block, path) && block.open.ttype.Open?
    ensures OwnParts(block, path, depth, number)
         == OwnParts(block.children[path[0]], path[1..], InnerNesting(block.open.ttype.kind, depth), 1 + path[0])
  {
  }

  lemma {:induction false} ExactFromChild(
      block: Block, path: BlockPath, depth: nat, number: nat, inside: nat, leaf: Part) returns (i: nat)
    requires path != [] && IsPathIn(block, path)
    requires block.open.ttype.Open? && HandsOn(block.open.ttype.kind) && '\n' !in block.open.markup
    requires var child, inner := block.children[path[0]], InnerNesting(block.open.ttype.kind, depth);
      && IsEmittedBy(child, inner, 1 + path[0], inside, path[1..])
      && ShownAs(leaf, LinePrefixes(child, path[1..], inner, 1 + path[0]), Fold(child, inner, 1 + path[0])[inside])
    ensures IsEmittedBy(block, depth, number, i, path)
    ensures ShownAs(leaf, LinePrefixes(block, path, depth, number), Fold(block, depth, number)[i])
  {
    var inner := InnerNesting(block.open.ttype.kind, depth);
    var at := AmongChildren(block.children, path, inner, inside);
    i := OwnIsExact(block, path, depth, number, at);
    PrefixesAdd(block, path, depth, number, leaf, FoldAll(block.children, inner, 1)[at], Fold(block, depth, number)[i]);
  }

  lemma {:induction false} AmongChildren(children: seq<Block>, path: BlockPath, depth: nat, inside: nat) returns (at: nat)
    requires path != [] && path[0] < |children|
    requires IsEmittedBy(children[path[0]], depth, 1 + path[0], inside, path[1..])
    ensures IsEmittedIn(children, depth, 1, 0, at, path)
    ensures FoldAll(children, depth, 1)[at] == Fold(children[path[0]], depth, 1 + path[0])[inside]
  {
    at := ChildIndex(children, depth, 1, 0, path[0], inside, path[1..]);
    assert [path[0]] + path[1..] == path;
  }

  lemma {:induction false} PrefixesAdd(
      block: Block, path: BlockPath, depth: nat, number: nat, leaf: Part, part: Part, outer: Part)
    requires path != [] && IsPathIn(block, path) && block.open.ttype.Open?
    requires var child, inner := block.children[path[0]], InnerNesting(block.open.ttype.kind, depth);
      ShownAs(leaf, LinePrefixes(child, path[1..], inner, 1 + path[0]), part)
    requires ShownAs(part, OwnPrefixes(block, path, depth, number), outer)
    ensures ShownAs(leaf, LinePrefixes(block, path, depth, number), outer)
  {
    var child, inner := block.children[path[0]], InnerNesting(block.open.ttype.kind, depth);
    MorePrefix(leaf, part, outer, OwnPrefixes(block, path, depth, number),
               LinePrefixes(child, path[1..], inner, 1 + path[0]), LinePrefixes(block, path, depth, number));
  }

  /** What one block puts before the lines of a part inside it. */
  lemma {:induction false} OwnIsExact(block: Block, path: BlockPath, depth: nat, number: nat, at: nat) returns (i: nat)
    requires block.Node? && block.open.ttype.Open? && HandsOn(block.open.ttype.kind) && '\n' !in block.open.markup
    requires IsEmittedIn(block.children, InnerNesting(block.open.ttype.kind, depth), 1, 0, at, path)
    ensures IsEmittedBy(block, depth, number, i, path)
    ensures ShownAs(FoldAll(block.children, InnerNesting(block.open.ttype.kind, depth), 1)[at],
                    OwnPrefixes(block, path, depth, number), Fold(block, depth, number)[i])
  {
    var parts := FoldAll(block.children, InnerNesting(block.open.ttype.kind, depth), 1);
    if block.open.ttype.kind.ListItem? {
      i := ItemPrefix(block, path, depth, number, at);
    } else {
      i := HandedOn(block, depth, number, at, path);
      if block.open.ttype.kind.Blockquote? {
        QuotedAt(block.open.markup, parts, at);
        WithPrefix(block.open.markup + " ", parts[at], OwnPrefixes(block, path, depth, number));
      } else {
        NoPrefix(parts[at], OwnPrefixes(block, path, depth, number));
      }
    }
  }

  /** The text of a leaf that is shown as it is. */
  predicate Verbatim(token: Token, text: string) {
    match token.ttype
    case Inline => text == token.content
    case HtmlBlock => text == token.content
    case Hr => text == token.markup
    case _ => false
  }

  /** Inline text, HTML and rules in particular: line `j` of the part is line `j` of the text after the
      prefix of its place, and under paragraphs alone the part has exactly the text. */
  lemma {:induction false} TextIsExact(block: Block, path: BlockPath, depth: nat, number: nat, text: string)
    returns (i: nat)
    requires IsPathIn(block, path) && InQuotesAndLists(block, path) && OneLineMarkup(block, path)
    requires BlockAt(block, path).Leaf? && Verbatim(BlockAt(block, path).token, text)
    ensures IsEmittedBy(block, depth, number, i, path)
    ensures var part := Fold(block, depth, number)[i];
      && part.kind.Text? && |Lines(part.content)| == |Lines(text)|
      && forall j: nat | j < |Lines(text)| ::
           Lines(part.content)[j] == LinePrefix(block, path, depth, number, j) + Lines(text)[j]
  {
    i := PartIsExact(block, path, depth, number);
  }

  /** The same for the whole document: the leaf is at the end of `path` in block `k`. */
  lemma {:induction false} DocumentTextIsExact(blocks: seq<Block>, k: nat, path: BlockPath, text: string) returns (at: nat)
    requires k < |blocks| && IsPathIn(blocks[k], path)
    requires InQuotesAndLists(blocks[k], path) && OneLineMarkup(blocks[k], path)
    requires BlockAt(blocks[k], path).Leaf? && Verbatim(BlockAt(blocks[k], path).token, text)
    ensures IsEmittedIn(blocks, 0, 1, 0, at, [k] + path)
    ensures var part := FoldAll(blocks, 0, 1)[at];
      && part.kind.Text? && |Lines(part.content)| == |Lines(text)|
      && forall j: nat | j < |Lines(text)| ::
           Lines(part.content)[j] == LinePrefix(blocks[k], path, 0, 1 + k, j) + Lines(text)[j]
  {
    var i := TextIsExact(blocks[k], path, 0, 1 + k, text);
    at := InDocument(blocks, k, i, path);
  }

  predicate UnderParagraphs(block: Block, path: BlockPath)
    requires IsPathIn(block, path)
  {
    path == [] || (block.open.ttype == Open(Paragraph) && UnderParagraphs(block.children[path[0]], path[1..]))
  }

  /** Under paragraphs alone the part has exactly the text. */
  lemma {:induction false} ParagraphTextIsKept(block: Block, path: BlockPath, depth: nat, number: nat, text: string)
    returns (i: nat)
    requires IsPathIn(block, path) && UnderParagraphs(block, path)
    requires BlockAt(block, path).Leaf? && Verbatim(BlockAt(block, path).token, text)
    ensures IsEmittedBy(block, depth, number, i, path)
    ensures Fold(block, depth, number)[i].kind.Text? && Fold(block, depth, number)[i].content == text
    decreases |path|
  {
    if path == [] {
      i := 0;
    } else {
      i := ParagraphTextIsKept(block.children[path[0]], path[1..], depth, 1 + path[0], text);
      i := ChildIndex(block.children, depth, 1, 0, path[0], i, path[1..]);
      assert [path[0]] + path[1..] == path;
      ParagraphUnfolds(block, depth, number);
    }
  }

  lemma {:induction false} ParagraphUnfolds(block: Block, depth: nat, number: nat)
    requires block.Node? && block.open.ttype == Open(Paragraph)
    ensures Fold(block, depth, number) == FoldAll(block.children, depth, 1)
    ensures Emitters(block, depth, number) == EmittersAll(block.children, depth, 1, 0)
  {
  }

  /** Code under quotes and lists is put in a fence that is the shortest that will do, of at most
      thirteen backticks, and is not changed by what is around it. */
  lemma {:induction false} CodeIsKept(block: Block, path: BlockPath, depth: nat, number: nat) returns (i: nat, n: nat)
    requires IsPathIn(block, path) && InQuotesAndLists(block, path) && OneLineMarkup(block, path)
    requires BlockAt(block, path).Leaf? && BlockAt(block, path).token.ttype in {CodeBlock, Fence}
    ensures IsEmittedBy(block, depth, number, i, path)
    ensures var part, token := Fold(block, depth, number)[i], BlockAt(block, path).token;
      var lang := if token.ttype.Fence? then token.info else "";
      && part.kind == Code(if lang == "" then None else Some(lang))
      && part.content == Repeat("`", n) + lang + "\n" + Strip(token.content) + "\n" + Repeat("`", n)
    ensures 3 <= n <= 13 && (forall m | 3 <= m < n :: Contains(BlockAt(block, path).token.content, Repeat("`", m)))
    ensures n < 13 ==> !Contains(BlockAt(block, path).token.content, Repeat("`", n))
  {
    i := PartIsExact(block, path, depth, number);
    n := ShortestFence(BlockAt(block, path).token.content, 3, 10);
    ThreeBackticks();
  }

  lemma {:induction false} ThreeBackticks()
    ensures Repeat("`", 3) == "```"
  {
    assert Repeat("`", 0) == "" && Repeat("`", 1) == "`" && Repeat("`", 2) == "``";
  }

  lemma {:induction false} OneMoreBacktick(n: nat)
    ensures Repeat("`", n) + "`" == Repeat("`", n + 1)
  {
    if n > 0 {
      OneMoreBacktick(n - 1);
      Associate("`", Repeat("`", n - 1), "`");
    }
  }

  /** The loop stops at the first fence that the code does not contain. */
  lemma {:induction false} ShortestFence(code: string, k: nat, left: nat) returns (n: nat)
    requires k > 0
    ensures Repeat("`", k) != "" && Backticks(code, Repeat("`", k), left) == Repeat("`", n) && k <= n <= k + left
    ensures forall m | k <= m < n :: Repeat("`", m) != "" && Contains(code, Repeat("`", m))
    ensures n < k + left ==> Repeat("`", n) != "" && !Contains(code, Repeat("`", n))
    decreases left
  {
    RepeatLength("`", k);
    n := k;
    if left > 0 && Contains(code, Repeat("`", k)) {
      OneMoreBacktick(k);
      n := ShortestFence(code, k + 1, left - 1);
    }
  }
}
