/** The cursor conversion refines the fold over the block tree. */
module MarkdownProofs {
  import opened Common
  import opened MarkdownSpec
  import opened MarkdownLines
  import MarkdownText
  import SplitterSpec

  predicate Numbered(block: Block) {
    IsNode(block, ListItem) && block.open.info != ""
  }

  /** Where the counter of ordered items stands after a block. */
  function OrdinalAfter(block: Block, ordinal: nat): nat {
    if Numbered(block) then ordinal + 1 else ordinal
  }

  function OrdinalAfterAll(blocks: seq<Block>, ordinal: nat): nat {
    if blocks == [] then ordinal else OrdinalAfterAll(blocks[1..], OrdinalAfter(blocks[0], ordinal))
  }

  lemma {:induction false} FlattenStarts(block: Block, kind: Kind)
    requires WellFormed(block)
    ensures Flatten(block) != [] && Flatten(block)[0].ttype != Close(kind)
  {
  }

  /** The parts of a block do not depend on its number unless it is a numbered item. */
  lemma {:induction false} NumberMatters(block: Block, depth: nat, m: nat, n: nat)
    requires WellFormed(block) && (Numbered(block) ==> m == n)
    ensures Fold(block, depth, m) == Fold(block, depth, n)
  {
  }

  lemma {:induction false} FoldSlots(children: seq<Block>, parent: Kind, depth: nat, m: nat, n: nat)
    requires AllWellFormed(children, parent) && (parent.OrderedList? ==> m == n)
    ensures FoldAll(children, depth, m) == FoldAll(children, depth, n)
    decreases |children|
  {
    if children != [] {
      NumberMatters(children[0], depth, m, n);
      FoldSlots(children[1..], parent, depth, m + 1, n + 1);
    }
  }

  /** Only the items of an ordered list move the counter. */
  lemma {:induction false} OthersKeepOrdinal(children: seq<Block>, parent: Kind, ordinal: nat)
    requires AllWellFormed(children, parent) && !parent.OrderedList?
    ensures OrdinalAfterAll(children, ordinal) == ordinal
    decreases |children|
  {
    if children != [] {
      OthersKeepOrdinal(children[1..], parent, ordinal);
    }
  }

  /** Converting the tokens of a well-formed block, whatever follows them, gives the meaning of
      the block, consumes exactly its tokens and moves the counter only past a numbered item. */
  lemma {:induction false} BlockRefines(block: Block, rest: seq<Token>, depth: nat, ordinal: nat)
    requires WellFormed(block)
    ensures Convert(Flatten(block) + rest, depth, ordinal)
         == Outcome(Fold(block, depth, ordinal), |Flatten(block)|, OrdinalAfter(block, ordinal))
    decreases block, 1
  {
    match block
    case Leaf(token) =>
    case Node(open, children, close) =>
      var kind := open.ttype.kind;
      var tokens := Flatten(block) + rest;
      var inner, start := InnerNesting(kind, depth), if kind.OrderedList? then 1 else ordinal;
      assert tokens[0] == open;
      assert tokens[1..] == FlattenAll(children) + [close] + rest;
      ChildrenRefine(children, kind, close, rest, inner, start);
      FoldSlots(children, kind, inner, start, 1);
      if !kind.OrderedList? {
        OthersKeepOrdinal(children, kind, ordinal);
      }
  }

  /** One turn of the loop that converts up to a closing token. */
  lemma {:induction false} UntilStep(head: seq<Token>, after: seq<Token>, kind: Kind, depth: nat, ordinal: nat,
      first: Outcome)
    requires head != [] && head[0].ttype != Close(kind)
    requires Convert(head + after, depth, ordinal) == first && first.used == |head|
    ensures var rest := ConvertUntil(after, kind, depth, first.ordinal);
            ConvertUntil(head + after, kind, depth, ordinal)
            == Outcome(first.parts + rest.parts, first.used + rest.used, rest.ordinal)
  {
    var tokens := head + after;
    assert tokens != [] && tokens[0] == head[0];
    assert tokens[|head|..] == after;
  }

  /** Converting up to the close stops just past the matching closing token. */
  lemma {:induction false} ChildrenRefine(
      children: seq<Block>, kind: Kind, close: Token, rest: seq<Token>, depth: nat, ordinal: nat)
    requires AllWellFormed(children, kind) && close.ttype == Close(kind)
    ensures ConvertUntil(FlattenAll(children) + [close] + rest, kind, depth, ordinal)
         == Outcome(FoldAll(children, depth, ordinal), |FlattenAll(children)| + 1, OrdinalAfterAll(children, ordinal))
    decreases children, 0
  {
    if children == [] {
      assert FlattenAll(children) + [close] + rest == [close] + rest;
    } else {
      var head, tail := Flatten(children[0]), FlattenAll(children[1..]);
      var after, next := tail + [close] + rest, OrdinalAfter(children[0], ordinal);
      assert FlattenAll(children) + [close] + rest == head + after;
      FlattenStarts(children[0], kind);
      BlockRefines(children[0], after, depth, ordinal);
      UntilStep(head, after, kind, depth, ordinal, Outcome(Fold(children[0], depth, ordinal), |head|, next));
      ChildrenRefine(children[1..], kind, close, rest, depth, next);
      SlotsAfter(children, kind, depth, ordinal);
    }
  }

  /** The later children may be numbered from the counter or from their position. */
  lemma {:induction false} SlotsAfter(children: seq<Block>, kind: Kind, depth: nat, ordinal: nat)
    requires AllWellFormed(children, kind) && children != []
    ensures FoldAll(children, depth, ordinal)
         == Fold(children[0], depth, ordinal) + FoldAll(children[1..], depth, OrdinalAfter(children[0], ordinal))
  {
    FoldSlots(children[1..], kind, depth, OrdinalAfter(children[0], ordinal), ordinal + 1);
  }

  predicate Document(blocks: seq<Block>) {
    blocks == [] || (WellFormed(blocks[0]) && !IsNode(blocks[0], ListItem) && Document(blocks[1..]))
  }

  /** `convert_all` on the token stream of a document is the fold over its blocks. */
  lemma {:induction false} DocumentRefines(blocks: seq<Block>, ordinal: nat)
    requires Document(blocks)
    ensures ConvertAll(FlattenAll(blocks), ordinal) == FoldAll(blocks, 0, ordinal)
    decreases |blocks|
  {
    if blocks != [] {
      var head, tail := Flatten(blocks[0]), FlattenAll(blocks[1..]);
      FlattenStarts(blocks[0], Paragraph);
      BlockRefines(blocks[0], tail, 0, ordinal);
      assert (head + tail)[|head|..] == tail;
      DocumentRefines(blocks[1..], ordinal);
      DocumentSlots(blocks[1..], ordinal, ordinal + 1);
    }
  }

  lemma {:induction false} DocumentSlots(blocks: seq<Block>, m: nat, n: nat)
    requires Document(blocks)
    ensures FoldAll(blocks, 0, m) == FoldAll(blocks, 0, n)
    decreases |blocks|
  {
    if blocks != [] {
      NumberMatters(blocks[0], 0, m, n);
      DocumentSlots(blocks[1..], m + 1, n + 1);
    }
  }

  // ------------------------------------------------------------------
  // What the metadata and the labels say
  // ------------------------------------------------------------------

  /** A path from a block down to one inside it: the position of the child to take at each level. */
  type BlockPath = seq<nat>

  predicate IsPathIn(block: Block, path: BlockPath) {
    path == []
    || (block.Node? && path[0] < |block.children| && IsPathIn(block.children[path[0]], path[1..]))
  }

  function BlockAt(block: Block, path: BlockPath): Block
    requires IsPathIn(block, path)
  {
    if path == [] then block else BlockAt(block.children[path[0]], path[1..])
  }

  /** The blockquotes, lists and tables around the block at the end of the path. */
  function NestsOn(block: Block, path: BlockPath): nat
    requires IsPathIn(block, path)
  {
    if path == [] then 0
    else
      (if block.open.ttype in {Open(Blockquote), Open(OrderedList), Open(BulletList), Open(Table)} then 1 else 0)
      + NestsOn(block.children[path[0]], path[1..])
  }

  function Down(k: nat, paths: seq<BlockPath>): seq<BlockPath> {
    if paths == [] then [] else [[k] + paths[0]] + Down(k, paths[1..])
  }

  /** For each part of a block, in order, the path to the block that emitted it: quotes, paragraphs
      and lists only hand on the parts inside them, an item adds its marker as a part where the
      first part inside is not text, and every other block emits its parts itself. */
  function Emitters(block: Block, depth: nat, number: nat): seq<BlockPath> {
    match block
    case Leaf(token) => if LeafPart(token, depth) == [] then [] else [[]]
    case Node(open, children, close) =>
      if !open.ttype.Open? then []
      else
        var inner := InnerNesting(open.ttype.kind, depth);
        match open.ttype.kind
        case Blockquote => EmittersAll(children, inner, 1, 0)
        case Paragraph => EmittersAll(children, inner, 1, 0)
        case OrderedList => EmittersAll(children, inner, 1, 0)
        case BulletList => EmittersAll(children, inner, 1, 0)
        case ListItem =>
          var parts := FoldAll(children, inner, 1);
          if parts != [] && IsText(parts[0]) then EmittersAll(children, inner, 1, 0)
          else [[]] + EmittersAll(children, inner, 1, 0)
        case _ => if Fold(block, depth, number) == [] then [] else [[]]
  }

  /** The same for the children from position `k` on. */
  function EmittersAll(blocks: seq<Block>, depth: nat, number: nat, k: nat): seq<BlockPath> {
    if blocks == [] then []
    else Down(k, Emitters(blocks[0], depth, number)) + EmittersAll(blocks[1..], depth, number + 1, k + 1)
  }

  function LinesOf(block: Block): Option<(int, int)> {
    match block case Leaf(token) => token.lines case Node(open, _, _) => open.lines
  }

  /** The blocks that put a nesting on parts of their own: all leaves with a handler, headings, items
      and tables. */
  predicate Emits(block: Block) {
    match block
    case Leaf(token) => token.ttype in {Inline, CodeBlock, Fence, Hr, HtmlBlock, Definition}
    case Node(open, _, _) => open.ttype in {Open(Heading), Open(ListItem), Open(Table)}
  }

  /** What a part has to show of the block that emitted it; the part of an item is only its marker. */
  function ShownLines(block: Block): seq<string> {
    if block.Node? && block.open.ttype == Open(ListItem) then [] else LinesUnder(block)
  }

  /** The path leads to the block that emitted the part. The text lines of all leaves in the block are
      found in the part, in order; the part has a nesting exactly if the block puts one on it, it is the
      number of blockquotes, lists and tables around the block, and the source lines are the block's. */
  ghost predicate EmittedAt(block: Block, depth: nat, part: Part, path: BlockPath) {
    && IsPathIn(block, path)
    && InOrder(part.content, ShownLines(BlockAt(block, path)))
    && (part.nesting.Some? <==> Emits(BlockAt(block, path)))
    && (part.nesting.Some? ==>
          part.nesting.value == depth + NestsOn(block, path) && part.lines == LinesOf(BlockAt(block, path)))
    && (BlockAt(block, path).Leaf? ==> part.lines == LinesOf(BlockAt(block, path)))
  }

  ghost predicate AllEmitted(block: Block, depth: nat, parts: seq<Part>, paths: seq<BlockPath>) {
    && |parts| == |paths|
    && (parts != [] ==> EmittedAt(block, depth, parts[0], paths[0]) && AllEmitted(block, depth, parts[1..], paths[1..]))
  }

  lemma {:induction false} EmittedCons(
      block: Block, depth: nat, part: Part, path: BlockPath, parts: seq<Part>, paths: seq<BlockPath>)
    requires EmittedAt(block, depth, part, path) && AllEmitted(block, depth, parts, paths)
    ensures AllEmitted(block, depth, [part] + parts, [path] + paths)
  {
    assert ([part] + parts)[1..] == parts && ([path] + paths)[1..] == paths;
  }

  lemma {:induction false} EmittedConcat(
      block: Block, depth: nat, a: seq<Part>, p: seq<BlockPath>, b: seq<Part>, q: seq<BlockPath>)
    requires AllEmitted(block, depth, a, p) && AllEmitted(block, depth, b, q)
    ensures AllEmitted(block, depth, a + b, p + q)
  {
    if a == [] {
      assert a + b == b && p + q == q;
    } else {
      EmittedConcat(block, depth, a[1..], p[1..], b, q);
      EmittedCons(block, depth, a[0], p[0], a[1..] + b, p[1..] + q);
      ConsAppend(a, b);
      ConsAppend(p, q);
    }
  }

  lemma {:induction false} ShownSingle(block: Block)
    ensures MarkdownText.SingleLines(ShownLines(block))
  {
    LinesUnderSingle(block);
  }

  /** Only contents change when parts are quoted or indented. */
  lemma {:induction false} QuotedEmitted(
      block: Block, depth: nat, markup: string, parts: seq<Part>, paths: seq<BlockPath>)
    requires AllEmitted(block, depth, parts, paths)
    ensures AllEmitted(block, depth, QuoteParts(markup, parts), paths)
  {
    if parts != [] {
      QuotedEmitted(block, depth, markup, parts[1..], paths[1..]);
      ShownSingle(BlockAt(block, paths[0]));
      PrefixedInOrder(markup + " ", parts[0].content, ShownLines(BlockAt(block, paths[0])));
    }
  }

  lemma {:induction false} IndentedEmitted(block: Block, depth: nat, parts: seq<Part>, paths: seq<BlockPath>)
    requires AllEmitted(block, depth, parts, paths)
    ensures AllEmitted(block, depth, IndentParts(parts), paths)
  {
    if parts != [] {
      IndentedEmitted(block, depth, parts[1..], paths[1..]);
      ShownSingle(BlockAt(block, paths[0]));
      PrefixedInOrder("    ", parts[0].content, ShownLines(BlockAt(block, paths[0])));
    }
  }

  /** What a child emitted, seen from its parent. */
  lemma {:induction false} EmittedBelow(
      block: Block, k: nat, depth: nat, parts: seq<Part>, paths: seq<BlockPath>)
    requires block.Node? && block.open.ttype.Open? && k < |block.children|
    requires AllEmitted(block.children[k], InnerNesting(block.open.ttype.kind, depth), parts, paths)
    ensures AllEmitted(block, depth, parts, Down(k, paths))
  {
    if parts != [] {
      var path := [k] + paths[0];
      assert path[0] == k && path[1..] == paths[0];
      EmittedBelow(block, k, depth, parts[1..], paths[1..]);
    }
  }

  lemma {:induction false} BlockEmits(block: Block, depth: nat, number: nat)
    ensures AllEmitted(block, depth, Fold(block, depth, number), Emitters(block, depth, number))
    decreases block, 1, 0
  {
    if block.Leaf? {
      LeafEmitted(block, depth);
    } else if block.open.ttype.Open? {
      var open, kind := block.open, block.open.ttype.kind;
      var inner := InnerNesting(kind, depth);
      var parts, paths := FoldAll(block.children, inner, 1), EmittersAll(block.children, inner, 1, 0);
      assert block.children[0..] == block.children;
      ChildrenEmit(block, depth, 1, 0);
      if kind.Blockquote? {
        QuotedEmitted(block, depth, open.markup, parts, paths);
      } else if kind.ListItem? {
        ItemEmits(block, depth, Marker(open, number), parts, paths);
      } else if !(kind.Paragraph? || kind.OrderedList? || kind.BulletList?) {
        OwnEmitted(block, depth, number);
      }
    }
  }

  lemma {:induction false} LeafEmitted(block: Block, depth: nat)
    requires block.Leaf?
    ensures AllEmitted(block, depth, LeafPart(block.token, depth), if LeafPart(block.token, depth) == [] then [] else [[]])
  {
    if LeafPart(block.token, depth) != [] {
      LeafContentShows(block.token, depth);
    }
  }

  /** Headings, tables and their parts emit one part of their own, or none. */
  lemma {:induction false} OwnEmitted(block: Block, depth: nat, number: nat)
    requires block.Node? && block.open.ttype.Open?
    requires var kind := block.open.ttype.kind;
      !(kind.Blockquote? || kind.ListItem? || kind.Paragraph? || kind.OrderedList? || kind.BulletList?)
    ensures AllEmitted(block, depth, Fold(block, depth, number), Emitters(block, depth, number))
  {
    var own := Fold(block, depth, number);
    BlockShows(block, depth, number);
    if own != [] {
      assert own[1..] == [] && own == [own[0]];
      ShowOne(own[0], LinesUnder(block));
    }
  }

  lemma {:induction false} ItemEmits(block: Block, depth: nat, marker: string, parts: seq<Part>, paths: seq<BlockPath>)
    requires block.Node? && block.open.ttype == Open(ListItem) && AllEmitted(block, depth, parts, paths)
    ensures AllEmitted(block, depth, ItemParts(block.open, marker, parts, depth),
                       if parts != [] && IsText(parts[0]) then paths else [[]] + paths)
  {
    var bare := Part(Text, marker, block.open.lines, Some(depth), None);
    if parts == [] {
      assert [bare][1..] == [] && ([[]] + paths)[1..] == [];
    } else {
      IndentedEmitted(block, depth, parts[1..], paths[1..]);
      var item := ItemParts(block.open, marker, parts, depth);
      if IsText(parts[0]) {
        assert item[1..] == IndentParts(parts[1..]);
        ShownSingle(BlockAt(block, paths[0]));
        MarkedInOrder(marker, Repeat(" ", |marker|), parts[0].content, ShownLines(BlockAt(block, paths[0])));
      } else {
        assert item[1..] == [parts[0]] + IndentParts(parts[1..]) && ([[]] + paths)[1..] == paths;
        assert item[1..][1..] == IndentParts(parts[1..]);
      }
    }
  }

  lemma {:induction false} ChildrenEmit(block: Block, depth: nat, number: nat, k: nat)
    requires block.Node? && block.open.ttype.Open? && k <= |block.children|
    ensures var inner := InnerNesting(block.open.ttype.kind, depth);
      AllEmitted(block, depth, FoldAll(block.children[k..], inner, number), EmittersAll(block.children[k..], inner, number, k))
    decreases block, 0, |block.children| - k
  {
    if k < |block.children| {
      var inner, child := InnerNesting(block.open.ttype.kind, depth), block.children[k];
      BlockEmits(child, inner, number);
      EmittedBelow(block, k, depth, Fold(child, inner, number), Emitters(child, inner, number));
      ChildrenEmit(block, depth, number + 1, k + 1);
      assert block.children[k..][1..] == block.children[k + 1..] && block.children[k..][0] == child;
      EmittedConcat(block, depth, Fold(child, inner, number), Down(k, Emitters(child, inner, number)),
                    FoldAll(block.children[k + 1..], inner, number + 1),
                    EmittersAll(block.children[k + 1..], inner, number + 1, k + 1));
    }
  }

  lemma {:induction false} EmittedIndex(block: Block, depth: nat, parts: seq<Part>, paths: seq<BlockPath>, i: nat)
    requires AllEmitted(block, depth, parts, paths) && i < |parts|
    ensures EmittedAt(block, depth, parts[i], paths[i])
  {
    if i > 0 {
      EmittedIndex(block, depth, parts[1..], paths[1..], i - 1);
    }
  }

  /** The nesting of each part of a block, by position: it is the depth of the block plus the
      number of blockquotes, lists and tables on the way to the block that emitted the part. */
  lemma {:induction false} NestingIsDepth(block: Block, depth: nat, number: nat, i: nat)
    requires i < |Fold(block, depth, number)|
    ensures |Emitters(block, depth, number)| == |Fold(block, depth, number)|
    ensures EmittedAt(block, depth, Fold(block, depth, number)[i], Emitters(block, depth, number)[i])
  {
    BlockEmits(block, depth, number);
    EmittedIndex(block, depth, Fold(block, depth, number), Emitters(block, depth, number), i);
  }

  /** In the document the path starts with the position of a block. */
  ghost predicate EmittedIn(blocks: seq<Block>, part: Part, path: BlockPath) {
    path != [] && path[0] < |blocks| && EmittedAt(blocks[path[0]], 0, part, path[1..])
  }

  lemma {:induction false} NestingFrom(blocks: seq<Block>, number: nat, k: nat, i: nat)
    requires k <= |blocks| && i < |FoldAll(blocks[k..], 0, number)|
    ensures |EmittersAll(blocks[k..], 0, number, k)| == |FoldAll(blocks[k..], 0, number)|
    ensures EmittedIn(blocks, FoldAll(blocks[k..], 0, number)[i], EmittersAll(blocks[k..], 0, number, k)[i])
    decreases |blocks| - k
  {
    var parts, paths := Fold(blocks[k], 0, number), Emitters(blocks[k], 0, number);
    assert blocks[k..][1..] == blocks[k + 1..];
    BlockEmits(blocks[k], 0, number);
    DownIndex(k, paths, i);
    DocumentLengths(blocks, number + 1, k + 1);
    if i < |parts| {
      EmittedIndex(blocks[k], 0, parts, paths, i);
      assert ([k] + paths[i])[1..] == paths[i];
    } else {
      NestingFrom(blocks, number + 1, k + 1, i - |parts|);
    }
  }

  /** The whole document: part by part, `md_nesting` is the number of blockquotes, lists and tables
      around the block that emitted the part. */
  lemma {:induction false} DocumentNesting(blocks: seq<Block>, i: nat)
    requires i < |FoldAll(blocks, 0, 1)|
    ensures |EmittersAll(blocks, 0, 1, 0)| == |FoldAll(blocks, 0, 1)|
    ensures EmittedIn(blocks, FoldAll(blocks, 0, 1)[i], EmittersAll(blocks, 0, 1, 0)[i])
  {
    assert blocks[0..] == blocks;
    NestingFrom(blocks, 1, 0, i);
  }

  lemma {:induction false} DocumentLengths(blocks: seq<Block>, number: nat, k: nat)
    requires k <= |blocks|
    ensures |EmittersAll(blocks[k..], 0, number, k)| == |FoldAll(blocks[k..], 0, number)|
    decreases |blocks| - k
  {
    if k < |blocks| {
      assert blocks[k..][1..] == blocks[k + 1..];
      BlockEmits(blocks[k], 0, number);
      DownIndex(k, Emitters(blocks[k], 0, number), 0);
      DocumentLengths(blocks, number + 1, k + 1);
    }
  }

  lemma {:induction false} DownIndex(k: nat, paths: seq<BlockPath>, i: nat)
    ensures |Down(k, paths)| == |paths| && (i < |paths| ==> Down(k, paths)[i] == [k] + paths[i])
  {
    if paths != [] {
      DownIndex(k, paths[1..], if i > 0 then i - 1 else 0);
    }
  }

  /** The item at position k of an ordered list, whatever lists it and the items before it hold,
      begins with the label k + 1. */
  lemma {:induction false} ItemsAreNumbered(children: seq<Block>, depth: nat, k: nat)
    requires AllWellFormed(children, OrderedList) && k < |children|
    ensures children[k].Node?
    ensures var item := Fold(children[k], depth, k + 1);
            && FoldAll(children, depth, 1)
               == FoldAll(children[..k], depth, 1) + item + FoldAll(children[k + 1..], depth, k + 2)
            && item != []
            && Decimal(k + 1) + children[k].open.markup + " " <= item[0].content
  {
    ItemAt(children, k);
    FoldAllSplit(children, depth, 1, k);
    var open := children[k].open;
    var parts := FoldAll(children[k].children, depth, 1);
    if parts != [] && IsText(parts[0]) {
      MarkedStarts(Marker(open, k + 1), parts[0].content);
    }
  }

  /** Every item begins with its marker: before the first line inside it, or in a part of its own where
      nothing or code comes first. */
  lemma {:induction false} ItemHasItsMarker(item: Block, depth: nat, number: nat)
    requires item.Node? && item.open.ttype == Open(ListItem)
    ensures Fold(item, depth, number) != []
    ensures var marker := (if item.open.info != "" then Decimal(number) else "") + item.open.markup + " ";
      var inside, first := FoldAll(item.children, depth, 1), Fold(item, depth, number)[0];
      if inside != [] && !inside[0].kind.Code? then marker <= first.content
      else
        && first.kind.Text? && first.content == marker
        && |Fold(item, depth, number)| == |inside| + 1 && (inside != [] ==> Fold(item, depth, number)[1] == inside[0])
  {
    var inside := FoldAll(item.children, depth, 1);
    assert "" + item.open.markup == item.open.markup;
    if inside != [] {
      MarkedStarts(Marker(item.open, number), inside[0].content);
      IndentLength(inside[1..]);
    }
  }

  lemma {:induction false} IndentLength(parts: seq<Part>)
    ensures |IndentParts(parts)| == |parts|
  {
    if parts != [] {
      IndentLength(parts[1..]);
    }
  }

  lemma {:induction false} ItemAt(children: seq<Block>, k: nat)
    requires AllWellFormed(children, OrderedList) && k < |children|
    ensures Numbered(children[k])
  {
    if k > 0 {
      ItemAt(children[1..], k - 1);
    }
  }

  lemma {:induction false} FoldAllConcat(a: seq<Block>, b: seq<Block>, depth: nat, number: nat)
    ensures FoldAll(a + b, depth, number) == FoldAll(a, depth, number) + FoldAll(b, depth, number + |a|)
  {
    if a == [] {
      assert a + b == b;
    } else {
      assert (a + b)[1..] == a[1..] + b;
      FoldAllConcat(a[1..], b, depth, number + 1);
      Associate(Fold(a[0], depth, number), FoldAll(a[1..], depth, number + 1), FoldAll(b, depth, number + |a|));
    }
  }

  lemma {:induction false} FoldAllSplit(blocks: seq<Block>, depth: nat, number: nat, k: nat)
    requires k < |blocks|
    ensures FoldAll(blocks, depth, number)
         == FoldAll(blocks[..k], depth, number) + Fold(blocks[k], depth, number + k)
            + FoldAll(blocks[k + 1..], depth, number + k + 1)
  {
    assert blocks == blocks[..k] + blocks[k..];
    FoldAllConcat(blocks[..k], blocks[k..], depth, number);
    SuffixOfSuffix(blocks, k, k + 1);
    Associate(FoldAll(blocks[..k], depth, number), Fold(blocks[k], depth, number + k),
              FoldAll(blocks[k + 1..], depth, number + k + 1));
  }

  lemma {:induction false} MarkedStarts(marker: string, content: string)
    ensures marker <= MarkLines(marker, content)
  {
    var lines := SplitterSpec.PySplit(content, "\n");
    assert MarkLines(marker, content)[..|marker|] == marker;
  }

  function Value(digits: string): nat {
    if digits == "" then 0
    else
      var d := digits[|digits| - 1] as int - '0' as int;
      10 * Value(digits[..|digits| - 1]) + (if 0 <= d < 10 then d else 0)
  }

  /** Labels read back as the number they stand for, so different items have different labels. */
  lemma {:induction false} LabelReadsBack(n: nat)
    ensures Value(Decimal(n)) == n
    decreases n
  {
    if n < 10 {
      ValueSnoc("", n);
      assert "" + Digit(n) == Digit(n);
    } else {
      LabelReadsBack(n / 10);
      ValueSnoc(Decimal(n / 10), n % 10);
    }
  }

  lemma {:induction false} ValueSnoc(digits: string, d: nat)
    requires d < 10
    ensures Value(digits + Digit(d)) == 10 * Value(digits) + d
  {
    var longer := digits + Digit(d);
    assert longer[..|longer| - 1] == digits;
    assert longer[|longer| - 1] == "0123456789"[d];
  }
}
