/** What the output parts of the rechunker look like: their text, titles, flags and source range. */
module RechunkShows {
  import opened Common
  import opened SplitterSpec
  import opened RechunkSpec
  import opened RechunkProofs

  // ------------------------------------------------------------------
  // The pieces and what they are made from
  // ------------------------------------------------------------------

  /** A piece is a part within the budget, or one of the split chunks of a larger part: it is then
      flagged, is no title, and is otherwise described as that part was. */
  predicate PieceOf(cfg: Config, item: Item, piece: Item) {
    if cfg.tok(item.content) <= cfg.size then piece == item
    else
      && piece.content in Split(cfg, 0, item.content)
      && piece.level.None? && piece.meta.splitted
      && piece.meta.nesting == item.meta.nesting && piece.meta.titles == item.meta.titles
      && piece.meta.sourceMap == item.meta.sourceMap
  }

  lemma {:induction false} PiecesComeFromParts(cfg: Config, items: seq<Item>, k: nat)
    requires k < |ExpandAll(cfg, items)|
    ensures exists item <- items :: PieceOf(cfg, item, ExpandAll(cfg, items)[k])
  {
    var head := Expand(cfg, items[0]);
    if k < |head| {
      assert ExpandAll(cfg, items)[k] == head[k] && items[0] in items;
      FirstPieces(cfg, items[0], k);
    } else {
      PiecesComeFromParts(cfg, items[1..], k - |head|);
      var item :| item in items[1..] && PieceOf(cfg, item, ExpandAll(cfg, items[1..])[k - |head|]);
      assert item in items;
    }
  }

  lemma {:induction false} FirstPieces(cfg: Config, item: Item, k: nat)
    requires k < |Expand(cfg, item)|
    ensures PieceOf(cfg, item, Expand(cfg, item)[k])
  {
    var chunks := Split(cfg, 0, item.content);
    if cfg.tok(item.content) > cfg.size {
      assert Expand(cfg, item)[k].content == chunks[k];
    }
  }

  // ------------------------------------------------------------------
  // The text of an output part
  // ------------------------------------------------------------------

  /** Where the text of piece `i` begins: each piece before it is followed by a blank line. */
  function Offset(pieces: seq<Item>, i: nat): nat
    requires i <= |pieces|
  {
    if i == 0 then 0 else Offset(pieces, i - 1) + |pieces[i - 1].content| + 2
  }

  predicate PlacedAt(content: string, pieces: seq<Item>, i: nat)
    requires i < |pieces|
  {
    var at := Offset(pieces, i);
    OccursAt(content, pieces[i].content, at) && (i > 0 ==> at >= 2 && OccursAt(content, "\n\n", at - 2))
  }

  /** The pieces in order, a blank line between neighbours, and nothing else. */
  ghost predicate LaidOutAs(content: string, pieces: seq<Item>) {
    && |content| + 2 == Offset(pieces, |pieces|)
    && forall i | 0 <= i < |pieces| :: PlacedAt(content, pieces, i)
  }

  lemma {:induction false} OffsetOfPrefix(pieces: seq<Item>, n: nat, i: nat)
    requires i <= n <= |pieces|
    ensures Offset(pieces[..n], i) == Offset(pieces, i)
  {
    if i > 0 {
      OffsetOfPrefix(pieces, n, i - 1);
    }
  }

  lemma {:induction false} OccursLonger(a: string, b: string, sub: string, j: nat)
    requires OccursAt(a, sub, j)
    ensures OccursAt(a + b, sub, j)
  {
    assert (a + b)[j..j + |sub|] == a[j..j + |sub|];
  }

  lemma {:induction false} JoinIsLaidOut(pieces: seq<Item>)
    requires pieces != []
    ensures LaidOutAs(Join(pieces), pieces)
  {
    var n := |pieces| - 1;
    var last := pieces[n].content;
    if n == 0 {
      assert Join(pieces)[0..|last|] == last;
    } else {
      JoinIsLaidOut(pieces[..n]);
      LaidOutSnoc(Join(pieces[..n]), pieces);
      Associate(Join(pieces[..n]), "\n\n", last);
    }
  }

  lemma {:induction false} LaidOutSnoc(before: string, pieces: seq<Item>)
    requires |pieces| > 1 && LaidOutAs(before, pieces[..|pieces| - 1])
    ensures LaidOutAs(before + ("\n\n" + pieces[|pieces| - 1].content), pieces)
  {
    var n := |pieces| - 1;
    var more := "\n\n" + pieces[n].content;
    OffsetOfPrefix(pieces, n, n);
    LastPlaced(before, pieces[n].content);
    forall i | 0 <= i < n ensures PlacedAt(before + more, pieces, i) {
      assert PlacedAt(before, pieces[..n], i);
      EarlierPlaced(before, more, pieces, n, i);
    }
  }

  /** Text appended at the end leaves the pieces where they are. */
  lemma {:induction false} EarlierPlaced(before: string, more: string, pieces: seq<Item>, n: nat, i: nat)
    requires i < n <= |pieces| && PlacedAt(before, pieces[..n], i)
    ensures PlacedAt(before + more, pieces, i)
  {
    OffsetOfPrefix(pieces, n, i);
    OccursLonger(before, more, pieces[i].content, Offset(pieces, i));
    if i > 0 {
      OccursLonger(before, more, "\n\n", Offset(pieces, i) - 2);
    }
  }

  lemma {:induction false} LastPlaced(before: string, last: string)
    ensures var s := before + ("\n\n" + last);
      OccursAt(s, "\n\n", |before|) && OccursAt(s, last, |before| + 2)
  {
    var s := before + ("\n\n" + last);
    assert s[|before|..|before| + 2] == "\n\n";
    assert s[|before| + 2..|before| + 2 + |last|] == last;
  }

  // ------------------------------------------------------------------
  // The output part as a whole
  // ------------------------------------------------------------------

  /** The least range around those of the pieces; none if no piece has one. */
  predicate TightRange(range: Option<(int, int)>, pieces: seq<Item>) {
    match range
    case None => forall p <- pieces :: p.meta.sourceMap.None?
    case Some(hull) =>
      && (forall p <- pieces :: Inside(p.meta.sourceMap, hull))
      && (exists p <- pieces :: p.meta.sourceMap.Some? && p.meta.sourceMap.value.0 == hull.0)
      && (exists p <- pieces :: p.meta.sourceMap.Some? && p.meta.sourceMap.value.1 == hull.1)
  }

  /** An output part is no title; it has the text of its pieces, the titles on the heading path of
      the first (its own ones when no heading is above it), and the first one's other metadata. */
  ghost predicate IsMadeOf(part: Item, pieces: seq<Item>, path: seq<Heading>) {
    && pieces != [] && part.level.None?
    && LaidOutAs(part.content, pieces)
    && (if path == [] then part.meta.titles == pieces[0].meta.titles
        else part.meta.titles.Some? && TitlesOn(part.meta.titles.value, path))
    && TightRange(part.meta.sourceMap, pieces)
    && part.meta.nesting == pieces[0].meta.nesting && part.meta.splitted == pieces[0].meta.splitted
  }

  lemma {:induction false} ChunkIsMadeOf(chunk: Chunk, path: seq<Heading>)
    requires chunk.pieces != [] && TitlesOn(chunk.titles, path)
    ensures IsMadeOf(ChunkItem(chunk), chunk.pieces, path)
  {
    JoinIsLaidOut(chunk.pieces);
    RangeIsTight(chunk.pieces);
  }

  function PiecesOf(cfg: Config, sections: seq<Section>, origin: Origin): seq<Item> {
    match origin
    case Whole(lo, hi) => if lo < hi <= |sections| then AllItems(sections[lo..hi]) else []
    case Within(g, a, b) =>
      if g < |sections| && a < b <= |ExpandAll(cfg, sections[g].items)| then ExpandAll(cfg, sections[g].items)[a..b]
      else []
  }

  function PathOf(sections: seq<Section>, origin: Origin): seq<Heading> {
    var i := if origin.Whole? then origin.lo else origin.g;
    if i < |sections| then Path(sections, i) else []
  }

  lemma {:induction false} TiledMatches(
      cfg: Config, sections: seq<Section>, chunks: seq<Chunk>, layout: seq<Origin>, g: nat, a: nat, i: nat)
    requires Tiled(cfg, sections, chunks, layout, g, a) && i < |chunks|
    ensures Matches(cfg, sections, chunks[i], layout[i])
    decreases |chunks|
  {
    var n := |chunks| - 1;
    if i < n {
      match layout[n]
      case Whole(lo, hi) => TiledMatches(cfg, sections, chunks[..n], layout[..n], lo, 0, i);
      case Within(h, x, y) => TiledMatches(cfg, sections, chunks[..n], layout[..n], h, x, i);
    }
  }

  /** Every chunk of the result, seen as a part, is made of the pieces at its place. */
  lemma {:induction false} EveryChunkIsMadeOf(
      cfg: Config, sections: seq<Section>, chunks: seq<Chunk>, layout: seq<Origin>, i: nat)
    requires Tiled(cfg, sections, chunks, layout, |sections|, 0) && i < |chunks| && chunks[i].pieces != []
    ensures IsMadeOf(ChunkItem(chunks[i]), PiecesOf(cfg, sections, layout[i]), PathOf(sections, layout[i]))
  {
    TiledMatches(cfg, sections, chunks, layout, |sections|, 0, i);
    ChunkIsMadeOf(chunks[i], PathOf(sections, layout[i]));
  }
}
