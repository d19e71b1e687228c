/** What the rechunker guarantees, proved about its specification. */
module RechunkProofs {
  import opened Common
  import opened SplitterSpec
  import opened SplitterProofs
  import opened RechunkSpec

  // ------------------------------------------------------------------
  // Grouping and title merging
  // ------------------------------------------------------------------

  function NonEmpty(parts: seq<Item>): seq<Item> {
    if parts == [] then []
    else
      var last := parts[|parts| - 1];
      NonEmpty(parts[..|parts| - 1]) + (if last.content == "" then [] else [last])
  }

  lemma {:induction false} AllItemsAppend(x: seq<Section>, y: seq<Section>)
    ensures AllItems(x + y) == AllItems(x) + AllItems(y)
  {
    if x == [] {
      assert x + y == y;
    } else {
      assert (x + y)[1..] == x[1..] + y;
      AllItemsAppend(x[1..], y);
    }
  }

  lemma {:induction false} AllItemsOne(section: Section)
    ensures AllItems([section]) == section.items
  {
    assert [section][1..] == [];
  }

  /** A title with a level that is not inside a quote, a list or a table. */
  predicate TopTitle(part: Item) {
    part.level.Some? && part.level.value > 0 && part.meta.nesting == 0
  }

  /** A section starts with the part that named it; no later part of it is a title at the top. */
  predicate WellHeaded(section: Section) {
    && section.items != []
    && (match section.items[0].level
        case Some(level) => section.level == level && section.title == section.items[0].content
        case None => section.level == 0 && section.title == "")
    && forall i | 0 < i < |section.items| :: !TopTitle(section.items[i])
  }

  /** Every section but perhaps the first starts with a title at the top. */
  predicate Headed(sections: seq<Section>) {
    && (forall i | 0 <= i < |sections| :: WellHeaded(sections[i]))
    && (forall i | 0 < i < |sections| :: TopTitle(sections[i].items[0]))
  }

  lemma {:induction false} AddPartFacts(sections: seq<Section>, part: Item)
    requires Headed(sections)
    ensures Headed(AddPart(sections, part))
    ensures AllItems(AddPart(sections, part)) == AllItems(sections) + if part.content == "" then [] else [part]
  {
    AddPartKeepsItems(sections, part);
    var out := AddPart(sections, part);
    forall i | 0 <= i < |out|
      ensures WellHeaded(out[i]) && (i > 0 ==> TopTitle(out[i].items[0]))
    {
      if i < |sections| {
        assert WellHeaded(sections[i]) && (i > 0 ==> TopTitle(sections[i].items[0]));
      }
    }
  }

  lemma {:induction false} AddPartKeepsItems(sections: seq<Section>, part: Item)
    ensures AllItems(AddPart(sections, part)) == AllItems(sections) + if part.content == "" then [] else [part]
  {
    if part.content != "" {
      if sections == [] || OpensSection(part) {
        var added := Section(TitleLevel(part), TitleText(part), [part]);
        AllItemsAppend(sections, [added]);
        AllItemsOne(added);
      } else {
        var out, n := AddPart(sections, part), |sections| - 1;
        AllItemsSplitLast(sections);
        AllItemsSplitLast(out);
        assert out[..n] == sections[..n];
        Associate(AllItems(sections[..n]), sections[n].items, [part]);
      }
    } else {
      assert AllItems(sections) + [] == AllItems(sections);
    }
  }

  lemma {:induction false} AllItemsSplitLast(sections: seq<Section>)
    requires sections != []
    ensures AllItems(sections) == AllItems(sections[..|sections| - 1]) + sections[|sections| - 1].items
  {
    var n := |sections| - 1;
    assert sections == sections[..n] + [sections[n]];
    AllItemsAppend(sections[..n], [sections[n]]);
    AllItemsOne(sections[n]);
  }

  /** The sections hold exactly the non-empty parts, in order; each starts at its heading. */
  lemma {:induction false} SectionsKeepParts(parts: seq<Item>)
    ensures AllItems(ToSections(parts)) == NonEmpty(parts)
    ensures Headed(ToSections(parts))
    decreases |parts|
  {
    if parts != [] {
      SectionsKeepParts(parts[..|parts| - 1]);
      AddPartFacts(ToSections(parts[..|parts| - 1]), parts[|parts| - 1]);
    }
  }

  ghost predicate NoneEmpty(sections: seq<Section>) {
    forall i | 0 <= i < |sections| :: sections[i].items != []
  }

  /** Title merging keeps the items, their order, and leaves no section without items. */
  lemma {:induction false} MergeKeepsItems(sections: seq<Section>)
    requires NoneEmpty(sections)
    ensures AllItems(MergeTitles(sections)) == AllItems(sections)
    ensures NoneEmpty(MergeTitles(sections))
    ensures sections != [] ==> MergeTitles(sections) != [] && MergeTitles(sections)[0].level == sections[0].level
    decreases |sections|
  {
    if sections != [] {
      var k := if PureTitle(sections[0]) then MergeEnd(sections) else 1;
      var first := if PureTitle(sections[0]) then sections[0].(items := AllItems(sections[..k])) else sections[0];
      MergeKeepsItems(sections[k..]);
      assert sections == sections[..k] + sections[k..];
      AllItemsAppend(sections[..k], sections[k..]);
      assert sections[..1] == [sections[0]];
      AllItemsOne(sections[0]);
      AllItemsAppend([first], MergeTitles(sections[k..]));
      AllItemsOne(first);
      assert sections[..k] == [sections[0]] + sections[1..k];
      AllItemsAppend([sections[0]], sections[1..k]);
    }
  }

  /** A heading and nothing else. */
  predicate TitleOnly(section: Section) {
    section.level > 0 && |section.items| == 1
  }

  /** A title-only section is last, or the next section has a heading above its own. */
  predicate TitleSettled(sections: seq<Section>, i: nat)
    requires i < |sections|
  {
    TitleOnly(sections[i]) && i + 1 < |sections| ==> 0 < sections[i + 1].level < sections[i].level
  }

  ghost predicate TitlesSettled(sections: seq<Section>) {
    forall i | 0 <= i < |sections| :: TitleSettled(sections, i)
  }

  lemma {:induction false} AllItemsGrow(sections: seq<Section>)
    requires NoneEmpty(sections)
    ensures |AllItems(sections)| >= |sections|
  {
    if sections != [] {
      AllItemsGrow(sections[1..]);
    }
  }

  lemma {:induction false} MergeSettles(sections: seq<Section>)
    requires NoneEmpty(sections)
    ensures TitlesSettled(MergeTitles(sections))
    decreases |sections|
  {
    if sections != [] {
      var pure := PureTitle(sections[0]);
      var k := if pure then MergeEnd(sections) else 1;
      var rest := MergeTitles(sections[k..]);
      var out := MergeTitles(sections);
      MergeSettles(sections[k..]);
      MergeKeepsItems(sections[k..]);
      assert out[1..] == rest;
      forall i | 0 <= i < |out| ensures TitleSettled(out, i) {
        if i > 0 {
          assert TitleSettled(rest, i - 1);
        } else if pure {
          assert NoneEmpty(sections[..k]);
          AllItemsGrow(sections[..k]);
          if k == 1 && k < |sections| {
            assert sections[k..][0] == sections[1];
          }
        }
      }
    }
  }

  /** Sections that may become one: any single one, or title-only ones not above the first, of
      which the last may instead have content. */
  predicate Mergeable(run: seq<Section>) {
    && run != []
    && (|run| > 1 ==> TitleOnly(run[0]))
    && forall k | 0 < k < |run| :: JoinsTitles(run[k], run[0].level, k == |run| - 1)
  }

  predicate JoinsTitles(section: Section, level: nat, last: bool) {
    if TitleOnly(section) then section.level >= level else last && (section.level == 0 || section.level >= level)
  }

  predicate MergedRun(run: seq<Section>, merged: Section) {
    Mergeable(run) && merged == run[0].(items := AllItems(run))
  }

  /** After `k` titles without content comes nothing, or a heading above the first of them. */
  predicate Complete(sections: seq<Section>, k: nat)
    requires 0 < k <= |sections|
  {
    (forall j | 0 <= j < k :: TitleOnly(sections[j])) && k < |sections| ==> 0 < sections[k].level < sections[0].level
  }

  /** Each merged section stands for a run of mergeable sections, headed by the first of them, to
      which nothing more could be added. */
  ghost predicate MergedFrom(sections: seq<Section>, merged: seq<Section>)
    decreases |sections|
  {
    if sections == [] then merged == []
    else
      && merged != []
      && exists k | 0 < k <= |sections| ::
           MergedRun(sections[..k], merged[0]) && Complete(sections, k) && MergedFrom(sections[k..], merged[1..])
  }

  lemma {:induction false} TitleRunJoins(sections: seq<Section>, j: nat, level: nat, k: nat)
    requires j <= |sections| && j <= k < TitleRun(sections, j, level)
    ensures PureTitle(sections[k]) && sections[k].level >= level
    decreases |sections| - j
  {
    if j < k {
      TitleRunJoins(sections, j + 1, level, k);
    }
  }

  lemma {:induction false} MergeEndIsMergeable(sections: seq<Section>)
    requires sections != [] && PureTitle(sections[0])
    ensures Mergeable(sections[..MergeEnd(sections)])
  {
    var run, level := sections[..MergeEnd(sections)], sections[0].level;
    forall k | 0 < k < |run|
      ensures JoinsTitles(run[k], level, k == |run| - 1)
    {
      if k < TitleRun(sections, 1, level) {
        TitleRunJoins(sections, 1, level, k);
      }
    }
  }

  lemma {:induction false} MergeEndIsComplete(sections: seq<Section>)
    requires sections != [] && PureTitle(sections[0])
    ensures Complete(sections, MergeEnd(sections))
  {
    var j := TitleRun(sections, 1, sections[0].level);
    TitleRunStops(sections, 1, sections[0].level);
    if MergeEnd(sections) == j + 1 {
      assert !TitleOnly(sections[j]);
    }
  }

  lemma {:induction false} TitleRunStops(sections: seq<Section>, j: nat, level: nat)
    requires j <= |sections|
    ensures var k := TitleRun(sections, j, level);
      k < |sections| ==> !(PureTitle(sections[k]) && sections[k].level >= level)
    decreases |sections| - j
  {
    if j < |sections| && PureTitle(sections[j]) && sections[j].level >= level {
      TitleRunStops(sections, j + 1, level);
    }
  }

  /** Merging puts together only what may be put together, and as much of it as there is. */
  lemma {:induction false} MergesAreRuns(sections: seq<Section>)
    ensures MergedFrom(sections, MergeTitles(sections))
    decreases |sections|
  {
    if sections != [] {
      var merged := MergeTitles(sections);
      var k := if PureTitle(sections[0]) then MergeEnd(sections) else 1;
      MergesAreRuns(sections[k..]);
      assert merged[1..] == MergeTitles(sections[k..]);
      if PureTitle(sections[0]) {
        MergeEndIsMergeable(sections);
        MergeEndIsComplete(sections);
      } else {
        assert !TitleOnly(sections[0]);
        assert sections[..1] == [sections[0]];
        AllItemsOne(sections[0]);
      }
      assert MergedRun(sections[..k], merged[0]);
    }
  }

  lemma {:induction false} SettledIsFixed(sections: seq<Section>)
    requires TitlesSettled(sections)
    ensures MergeTitles(sections) == sections
    decreases |sections|
  {
    if sections != [] {
      assert TitleSettled(sections, 0);
      forall i | 0 <= i < |sections[1..]| ensures TitleSettled(sections[1..], i) {
        assert TitleSettled(sections, i + 1);
      }
      SettledIsFixed(sections[1..]);
      SettledStep(sections);
    }
  }

  lemma {:induction false} SettledStep(sections: seq<Section>)
    requires sections != [] && TitleSettled(sections, 0) && MergeTitles(sections[1..]) == sections[1..]
    ensures MergeTitles(sections) == sections
  {
    if PureTitle(sections[0]) {
      assert MergeEnd(sections) == 1;
      assert sections[..1] == [sections[0]];
      AllItemsOne(sections[0]);
    }
    assert sections == [sections[0]] + sections[1..];
  }

  /** Merging titles is idempotent. */
  lemma {:induction false} MergeIsIdempotent(sections: seq<Section>)
    requires NoneEmpty(sections)
    ensures MergeTitles(MergeTitles(sections)) == MergeTitles(sections)
  {
    MergeSettles(sections);
    SettledIsFixed(MergeTitles(sections));
  }

  // ------------------------------------------------------------------
  // Heading paths
  // ------------------------------------------------------------------

  /** The heading of section `j` still encloses the last of the first `n` sections. */
  predicate Encloses(sections: seq<Section>, j: nat, n: nat)
    requires j < n <= |sections|
  {
    sections[j].level > 0 && forall k | j < k < n :: sections[k].level > sections[j].level
  }

  /** The enclosing headings among the first `j` sections. */
  function PathFrom(sections: seq<Section>, j: nat, n: nat): seq<Heading>
    requires j <= n <= |sections|
  {
    if j == 0 then []
    else
      var inner := if Encloses(sections, j - 1, n) then [(sections[j - 1].title, sections[j - 1].level)] else [];
      PathFrom(sections, j - 1, n) + inner
  }

  /** The heading path of section `i`, outermost first. */
  function Path(sections: seq<Section>, i: nat): seq<Heading>
    requires i < |sections|
  {
    PathFrom(sections, i + 1, i + 1)
  }

  lemma {:induction false} EnclosesMore(sections: seq<Section>, j: nat, n: nat)
    requires j < n < |sections|
    ensures Encloses(sections, j, n + 1) <==> Encloses(sections, j, n) && sections[n].level > sections[j].level
  {
  }

  lemma {:induction false} PathStays(sections: seq<Section>, j: nat, n: nat, bound: nat)
    requires j <= bound < n < |sections| && Encloses(sections, bound, n)
    requires sections[n].level > sections[bound].level
    ensures PathFrom(sections, j, n) == PathFrom(sections, j, n + 1)
  {
    if j > 0 {
      EnclosesMore(sections, j - 1, n);
      PathStays(sections, j - 1, n, bound);
    }
  }

  lemma {:induction false} PopLast(stack: seq<Heading>, last: Heading, level: nat)
    ensures PopTo(stack + [last], level) == if last.1 >= level then PopTo(stack, level) else stack + [last]
  {
    assert (stack + [last])[..|stack|] == stack;
  }

  lemma {:induction false} PopKeepsEnclosing(sections: seq<Section>, j: nat, n: nat)
    requires j <= n < |sections|
    ensures PopTo(PathFrom(sections, j, n), sections[n].level) == PathFrom(sections, j, n + 1)
  {
    if j > 0 {
      var level := sections[n].level;
      EnclosesMore(sections, j - 1, n);
      PopKeepsEnclosing(sections, j - 1, n);
      PathStep(sections, j, n);
      PathStep(sections, j, n + 1);
      if Encloses(sections, j - 1, n) {
        PopLast(PathFrom(sections, j - 1, n), (sections[j - 1].title, sections[j - 1].level), level);
        if sections[j - 1].level < level {
          PathStays(sections, j - 1, n, j - 1);
        }
      }
    }
  }

  lemma {:induction false} PathStep(sections: seq<Section>, j: nat, n: nat)
    requires 0 < j <= n <= |sections|
    ensures PathFrom(sections, j, n)
         == if Encloses(sections, j - 1, n) then
              PathFrom(sections, j - 1, n) + [(sections[j - 1].title, sections[j - 1].level)]
            else PathFrom(sections, j - 1, n)
  {
  }

  lemma {:induction false} EnterIsPath(sections: seq<Section>, n: nat)
    requires n < |sections|
    ensures Enter(PathFrom(sections, n, n), sections[n].level, sections[n].title) == Path(sections, n)
  {
    PopKeepsEnclosing(sections, n, n);
  }

  lemma {:induction false} StepEnters(cfg: Config, st: State, section: Section)
    ensures Step(cfg, st, section).stack == Enter(st.stack, section.level, section.title)
  {
  }

  /** After `n` groups the stack is the path of enclosing headings. */
  lemma {:induction false} StackIsPath(cfg: Config, sections: seq<Section>, n: nat)
    requires n <= |sections|
    ensures Run(cfg, sections[..n]).stack == PathFrom(sections, n, n)
    decreases n
  {
    if n > 0 {
      assert sections[..n][..n - 1] == sections[..n - 1];
      StackIsPath(cfg, sections, n - 1);
      StepEnters(cfg, Run(cfg, sections[..n - 1]), sections[n - 1]);
      EnterIsPath(sections, n - 1);
    }
  }

  predicate Below(path: seq<Heading>, level: nat) {
    forall a | 0 <= a < |path| :: path[a].1 < level
  }

  predicate Increasing(path: seq<Heading>) {
    forall a | 0 <= a < |path| :: Below(path[..a], path[a].1)
  }

  lemma {:induction false} IncreasingSnoc(path: seq<Heading>, last: Heading)
    requires Increasing(path) && Below(path, last.1)
    ensures Increasing(path + [last])
  {
    var longer := path + [last];
    forall a | 0 <= a < |longer| ensures Below(longer[..a], longer[a].1) {
      if a < |path| {
        assert longer[..a] == path[..a] && longer[a] == path[a];
        assert Below(path[..a], path[a].1);
      } else {
        assert longer[..a] == path;
      }
    }
  }

  /** Levels on a heading path strictly increase. */
  lemma {:induction false} PathLevelsIncrease(sections: seq<Section>, j: nat, n: nat)
    requires j <= n <= |sections|
    ensures Increasing(PathFrom(sections, j, n))
    ensures forall k | j <= k < n :: Below(PathFrom(sections, j, n), sections[k].level)
  {
    if j > 0 {
      PathLevelsIncrease(sections, j - 1, n);
      assert Below(PathFrom(sections, j - 1, n), sections[j - 1].level);
      forall k | j <= k < n ensures Below(PathFrom(sections, j, n), sections[k].level) {
        assert Below(PathFrom(sections, j - 1, n), sections[k].level);
      }
      if Encloses(sections, j - 1, n) {
        IncreasingSnoc(PathFrom(sections, j - 1, n), (sections[j - 1].title, sections[j - 1].level));
      }
    }
  }

  /** The titles are the names of the headings on the path, outermost first. */
  predicate TitlesOn(titles: seq<string>, path: seq<Heading>) {
    |titles| == |path| && forall i | 0 <= i < |path| :: titles[i] == path[i].0
  }

  lemma {:induction false} NamesAreTitles(stack: seq<Heading>)
    ensures TitlesOn(Names(stack), stack)
  {
    if stack != [] {
      NamesAreTitles(stack[1..]);
    }
  }

  // ------------------------------------------------------------------
  // Where the pieces of each chunk come from
  // ------------------------------------------------------------------

  /** A chunk holds whole sections `lo..hi`, or the expanded pieces `a..b` of section `g`. */
  datatype Origin = Whole(lo: nat, hi: nat) | Within(g: nat, a: nat, b: nat)

  predicate SectionFits(cfg: Config, section: Section) {
    ItemTokens(cfg, section.items) <= cfg.size && forall i | 0 <= i < |section.items| :: !section.items[i].meta.splitted
  }

  /** Section `next` may be merged into a chunk begun by section `first`. */
  predicate Joins(cfg: Config, first: Section, next: Section) {
    next.level >= first.level && ItemTokens(cfg, next.items) <= cfg.size
  }

  /** The tokens of the chunk of the sections `lo..k` and of section `k` are within the budget. */
  predicate HasRoom(cfg: Config, sections: seq<Section>, lo: nat, k: nat)
    requires lo <= k < |sections|
  {
    cfg.tok(Join(AllItems(sections[lo..k]))) + ItemTokens(cfg, sections[k].items) <= cfg.size
  }

  /** The sections were merged one after the other, each while there was room for it. */
  predicate MayBeOne(cfg: Config, sections: seq<Section>, lo: nat, hi: nat)
    requires lo < hi <= |sections|
  {
    && (forall k | lo <= k < hi :: Joins(cfg, sections[lo], sections[k]))
    && (forall k | lo < k < hi :: HasRoom(cfg, sections, lo, k))
  }

  predicate Matches(cfg: Config, sections: seq<Section>, chunk: Chunk, origin: Origin) {
    match origin
    case Whole(lo, hi) =>
      && lo < hi <= |sections|
      && chunk.pieces == AllItems(sections[lo..hi])
      && MayBeOne(cfg, sections, lo, hi)
      && TitlesOn(chunk.titles, Path(sections, lo))
    case Within(g, a, b) =>
      && g < |sections|
      && a < b <= |ExpandAll(cfg, sections[g].items)|
      && chunk.pieces == ExpandAll(cfg, sections[g].items)[a..b]
      && (SectionFits(cfg, sections[g]) ==> a == 0 && b == |ExpandAll(cfg, sections[g].items)|)
      && TitlesOn(chunk.titles, Path(sections, g))
  }

  /** A range of pieces may end at `b` only at the end, where the next piece would exceed the
      budget, or where pieces of a split part give way to one that was not split. */
  predicate CutNeeded(cfg: Config, pieces: seq<Item>, a: nat, b: nat)
    requires a < b <= |pieces|
  {
    || b == |pieces|
    || ItemTokens(cfg, pieces[a..b]) + cfg.tok(pieces[b].content) > cfg.size
    || (pieces[b - 1].meta.splitted && !pieces[b].meta.splitted)
  }

  predicate NoCutBefore(cfg: Config, pieces: seq<Item>, a: nat, b: nat)
    requires b <= |pieces|
  {
    forall j | a < j < b :: !CutNeeded(cfg, pieces, a, j)
  }

  /** The range that starts at `a` ends at the first place where it must. */
  predicate FirstCut(cfg: Config, pieces: seq<Item>, a: nat, b: nat)
    requires a < b <= |pieces|
  {
    CutNeeded(cfg, pieces, a, b) && NoCutBefore(cfg, pieces, a, b)
  }

  /** Nothing more could go into the chunk: the next section has a higher heading or is too much,
      or the pieces had to be cut. */
  predicate Closed(cfg: Config, sections: seq<Section>, chunk: Chunk, origin: Origin)
    requires Matches(cfg, sections, chunk, origin)
  {
    match origin
    case Whole(lo, hi) =>
      || hi == |sections|
      || sections[hi].level < sections[lo].level
      || !HasRoom(cfg, sections, lo, hi)
    case Within(g, a, b) => FirstCut(cfg, ExpandAll(cfg, sections[g].items), a, b)
  }

  /** The chunks account for all pieces before piece `a` of section `g`, each once and in order,
      and none was sealed too early. */
  ghost predicate Tiled(cfg: Config, sections: seq<Section>, chunks: seq<Chunk>, layout: seq<Origin>, g: nat, a: nat)
    decreases |chunks|
  {
    |chunks| == |layout| &&
    if chunks == [] then g == 0 && a == 0
    else
      var n := |chunks| - 1;
      && Matches(cfg, sections, chunks[n], layout[n]) && Closed(cfg, sections, chunks[n], layout[n])
      && match layout[n]
         case Whole(lo, hi) => g == hi && a == 0 && Tiled(cfg, sections, chunks[..n], layout[..n], lo, 0)
         case Within(h, x, y) =>
           && (g, a) == AfterPiece(cfg, sections, h, y)
           && Tiled(cfg, sections, chunks[..n], layout[..n], h, x)
  }

  function AfterPiece(cfg: Config, sections: seq<Section>, g: nat, b: nat): (nat, nat)
    requires g < |sections|
  {
    if b == |ExpandAll(cfg, sections[g].items)| then (g + 1, 0) else (g, b)
  }

  lemma {:induction false} TiledMore(
      cfg: Config, sections: seq<Section>, chunks: seq<Chunk>, layout: seq<Origin>, g: nat, a: nat,
      chunk: Chunk, origin: Origin)
    requires Tiled(cfg, sections, chunks, layout, g, a)
    requires Matches(cfg, sections, chunk, origin) && Closed(cfg, sections, chunk, origin)
    requires match origin case Whole(lo, _) => g == lo && a == 0 case Within(h, x, _) => g == h && a == x
    ensures match origin
      case Whole(_, hi) => Tiled(cfg, sections, chunks + [chunk], layout + [origin], hi, 0)
      case Within(h, _, y) =>
        var next := AfterPiece(cfg, sections, h, y);
        Tiled(cfg, sections, chunks + [chunk], layout + [origin], next.0, next.1)
  {
    assert (chunks + [chunk])[..|chunks|] == chunks;
    assert (layout + [origin])[..|layout|] == layout;
  }

  // ------------------------------------------------------------------
  // Packing one section
  // ------------------------------------------------------------------

  lemma {:induction false} ItemTokensAppend(cfg: Config, x: seq<Item>, y: seq<Item>)
    ensures ItemTokens(cfg, x + y) == ItemTokens(cfg, x) + ItemTokens(cfg, y)
  {
    if x == [] {
      assert x + y == y;
    } else {
      assert (x + y)[1..] == x[1..] + y;
      ItemTokensAppend(cfg, x[1..], y);
    }
  }

  lemma {:induction false} ItemTokensOne(cfg: Config, item: Item)
    ensures ItemTokens(cfg, [item]) == cfg.tok(item.content)
  {
    assert [item][1..] == [];
  }

  /** Nothing in a list within the budget needs splitting. */
  lemma {:induction false} FittingIsNotExpanded(cfg: Config, items: seq<Item>)
    requires ItemTokens(cfg, items) <= cfg.size
    ensures ExpandAll(cfg, items) == items
    decreases |items|
  {
    if items != [] {
      FittingIsNotExpanded(cfg, items[1..]);
    }
  }

  lemma {:induction false} SplitIsNonEmpty(cfg: Config, s: string)
    requires s != ""
    ensures Split(cfg, 0, s) != []
  {
    var plan := SplitPlan(cfg, 0, s);
    assert plan == [] ==> Flat(plan) == [];
  }

  lemma {:induction false} ExpandAllIsNonEmpty(cfg: Config, items: seq<Item>)
    requires items != [] && items[0].content != ""
    ensures ExpandAll(cfg, items) != []
  {
    SplitIsNonEmpty(cfg, items[0].content);
  }

  ghost predicate Budgeted(cfg: Config, pieces: seq<Item>) {
    ItemTokens(cfg, pieces) <= cfg.size && forall i | 0 <= i < |pieces| :: !pieces[i].meta.splitted
  }

  /** A section within the budget is packed without sealing: the next piece always still fits. */
  lemma {:induction false} BudgetedNeverSeals(cfg: Config, pieces: seq<Item>, i: nat)
    requires Budgeted(cfg, pieces) && i < |pieces|
    ensures !MustSeal(cfg, pieces[i], ItemTokens(cfg, pieces[..i]), false)
  {
    assert pieces == pieces[..i] + [pieces[i]] + pieces[i + 1..];
    ItemTokensAppend(cfg, pieces[..i] + [pieces[i]], pieces[i + 1..]);
    ItemTokensAppend(cfg, pieces[..i], [pieces[i]]);
    ItemTokensOne(cfg, pieces[i]);
  }

  /** The open chunk of a section being packed: it holds the pieces `x..i`. */
  ghost predicate Packing(
      cfg: Config, pieces: seq<Item>, titles: seq<string>, whole: bool, x: nat, i: nat,
      last: Option<Chunk>, sum: nat, previousSplitted: bool)
  {
    && x <= i <= |pieces|
    && (last.None? <==> x == i) && (last.None? ==> i == 0)
    && (last.Some? ==> last.value == Chunk(pieces[x..i], titles))
    && sum == ItemTokens(cfg, pieces[x..i])
    && (i > 0 ==> previousSplitted == pieces[i - 1].meta.splitted)
    && NoCutBefore(cfg, pieces, x, i)
    && (whole ==> Budgeted(cfg, pieces) && x == 0 && !previousSplitted)
  }

  lemma {:induction false} PackingGrows(
      cfg: Config, pieces: seq<Item>, titles: seq<string>, whole: bool, x: nat, i: nat,
      last: Option<Chunk>, sum: nat, previousSplitted: bool)
    requires Packing(cfg, pieces, titles, whole, x, i, last, sum, previousSplitted) && i < |pieces|
    requires last.Some? ==> !MustSeal(cfg, pieces[i], sum, previousSplitted)
    ensures Packing(cfg, pieces, titles, whole, x, i + 1, Some(Append(pieces[i], last, titles)),
                    sum + cfg.tok(pieces[i].content), pieces[i].meta.splitted)
  {
    assert pieces[x..i + 1] == pieces[x..i] + [pieces[i]];
    ItemTokensAppend(cfg, pieces[x..i], [pieces[i]]);
    ItemTokensOne(cfg, pieces[i]);
  }

  lemma {:induction false} PackingRestarts(cfg: Config, pieces: seq<Item>, titles: seq<string>, i: nat)
    requires i < |pieces|
    ensures Packing(cfg, pieces, titles, false, i, i + 1, Some(Append(pieces[i], None, titles)),
                    cfg.tok(pieces[i].content), pieces[i].meta.splitted)
  {
    assert pieces[i..i + 1] == [pieces[i]];
    ItemTokensOne(cfg, pieces[i]);
  }

  /** Only a section over the budget is sealed before its end. */
  lemma {:induction false} SealsOnlyWhenOver(
      cfg: Config, pieces: seq<Item>, titles: seq<string>, whole: bool, x: nat, i: nat,
      last: Option<Chunk>, sum: nat, previousSplitted: bool)
    requires Packing(cfg, pieces, titles, whole, x, i, last, sum, previousSplitted) && i < |pieces|
    requires MustSeal(cfg, pieces[i], sum, previousSplitted)
    ensures !whole
  {
    if whole {
      BudgetedNeverSeals(cfg, pieces, i);
    }
  }

  /** `cuts` ends the consecutive ranges that divide the pieces from `x` on. */
  predicate ValidCuts(x: nat, cuts: seq<nat>, n: nat)
    decreases |cuts|
  {
    if cuts == [] then x == n else x < cuts[0] <= n && ValidCuts(cuts[0], cuts[1..], n)
  }

  predicate NeededCuts(cfg: Config, pieces: seq<Item>, x: nat, cuts: seq<nat>)
    requires ValidCuts(x, cuts, |pieces|)
    decreases |cuts|
  {
    cuts == [] || (FirstCut(cfg, pieces, x, cuts[0]) && NeededCuts(cfg, pieces, cuts[0], cuts[1..]))
  }

  function RangeChunks(pieces: seq<Item>, titles: seq<string>, x: nat, cuts: seq<nat>): seq<Chunk>
    requires ValidCuts(x, cuts, |pieces|)
    decreases |cuts|
  {
    if cuts == [] then []
    else [Chunk(pieces[x..cuts[0]], titles)] + RangeChunks(pieces, titles, cuts[0], cuts[1..])
  }

  lemma {:induction false} PackUnfolds(cfg: Config, pieces: seq<Item>, i: nat, titles: seq<string>,
                    last: Option<Chunk>, sum: nat, previousSplitted: bool)
    requires i < |pieces|
    ensures var p := pieces[i];
      Pack(cfg, pieces[i..], titles, last, sum, previousSplitted)
      == if MustSeal(cfg, p, sum, previousSplitted) && last.Some? then
           [last.value]
           + Pack(cfg, pieces[i + 1..], titles, Some(Append(p, None, titles)), cfg.tok(p.content), p.meta.splitted)
         else
           Pack(cfg, pieces[i + 1..], titles, Some(Append(p, last, titles)), sum + cfg.tok(p.content), p.meta.splitted)
  {
    assert pieces[i..][0] == pieces[i] && pieces[i..][1..] == pieces[i + 1..];
  }

  lemma {:induction false} RangesCons(cfg: Config, pieces: seq<Item>, titles: seq<string>, x: nat, i: nat, more: seq<nat>)
    requires x < i <= |pieces| && ValidCuts(i, more, |pieces|) && NeededCuts(cfg, pieces, i, more)
    requires FirstCut(cfg, pieces, x, i)
    ensures ValidCuts(x, [i] + more, |pieces|) && NeededCuts(cfg, pieces, x, [i] + more)
    ensures RangeChunks(pieces, titles, x, [i] + more)
         == [Chunk(pieces[x..i], titles)] + RangeChunks(pieces, titles, i, more)
  {
    assert ([i] + more)[1..] == more;
  }

  /** Sealing before piece `i` ends a range there. */
  lemma {:induction false} SealedRange(
      cfg: Config, pieces: seq<Item>, titles: seq<string>, whole: bool, x: nat, i: nat,
      last: Option<Chunk>, sum: nat, previousSplitted: bool, more: seq<nat>)
    requires i < |pieces| && Packing(cfg, pieces, titles, whole, x, i, last, sum, previousSplitted)
    requires MustSeal(cfg, pieces[i], sum, previousSplitted) && last.Some?
    requires ValidCuts(i, more, |pieces|) && NeededCuts(cfg, pieces, i, more)
    requires var p := pieces[i];
      Pack(cfg, pieces[i + 1..], titles, Some(Append(p, None, titles)), cfg.tok(p.content), p.meta.splitted)
      == RangeChunks(pieces, titles, i, more)
    ensures ValidCuts(x, [i] + more, |pieces|) && NeededCuts(cfg, pieces, x, [i] + more)
    ensures Pack(cfg, pieces[i..], titles, last, sum, previousSplitted) == RangeChunks(pieces, titles, x, [i] + more)
  {
    PackUnfolds(cfg, pieces, i, titles, last, sum, previousSplitted);
    RangesCons(cfg, pieces, titles, x, i, more);
  }

  lemma {:induction false} PackTakes(cfg: Config, pieces: seq<Item>, i: nat, titles: seq<string>,
                    last: Option<Chunk>, sum: nat, previousSplitted: bool)
    requires i < |pieces| && !(MustSeal(cfg, pieces[i], sum, previousSplitted) && last.Some?)
    ensures var p := pieces[i];
      Pack(cfg, pieces[i..], titles, last, sum, previousSplitted)
      == Pack(cfg, pieces[i + 1..], titles, Some(Append(p, last, titles)), sum + cfg.tok(p.content), p.meta.splitted)
  {
    PackUnfolds(cfg, pieces, i, titles, last, sum, previousSplitted);
  }

  /** The open chunk is the last range. */
  lemma {:induction false} LastRange(
      cfg: Config, pieces: seq<Item>, titles: seq<string>, whole: bool, x: nat,
      last: Option<Chunk>, sum: nat, previousSplitted: bool)
    requires pieces != [] && Packing(cfg, pieces, titles, whole, x, |pieces|, last, sum, previousSplitted)
    ensures ValidCuts(x, [|pieces|] + [], |pieces|) && NeededCuts(cfg, pieces, x, [|pieces|] + [])
    ensures Pack(cfg, pieces[|pieces|..], titles, last, sum, previousSplitted)
         == RangeChunks(pieces, titles, x, [|pieces|] + [])
  {
    assert pieces[|pieces|..] == [];
    RangesCons(cfg, pieces, titles, x, |pieces|, []);
  }

  /** Packing divides the pieces into consecutive ranges, cut only where they must be; within the
      budget there is just one. */
  lemma {:induction false} PackRanges(
      cfg: Config, pieces: seq<Item>, titles: seq<string>, whole: bool, x: nat, i: nat,
      last: Option<Chunk>, sum: nat, previousSplitted: bool)
    returns (cuts: seq<nat>)
    requires pieces != [] && Packing(cfg, pieces, titles, whole, x, i, last, sum, previousSplitted)
    ensures ValidCuts(x, cuts, |pieces|) && NeededCuts(cfg, pieces, x, cuts)
    ensures Pack(cfg, pieces[i..], titles, last, sum, previousSplitted) == RangeChunks(pieces, titles, x, cuts)
    ensures whole ==> cuts == [|pieces|]
    decreases |pieces| - i, 1
  {
    if i == |pieces| {
      cuts := [i] + [];
      LastRange(cfg, pieces, titles, whole, x, last, sum, previousSplitted);
    } else if MustSeal(cfg, pieces[i], sum, previousSplitted) && last.Some? {
      cuts := RangesAfterSealing(cfg, pieces, titles, whole, x, i, last, sum, previousSplitted);
    } else {
      cuts := RangesAfterTaking(cfg, pieces, titles, whole, x, i, last, sum, previousSplitted);
    }
  }

  lemma {:induction false} RangesAfterSealing(
      cfg: Config, pieces: seq<Item>, titles: seq<string>, whole: bool, x: nat, i: nat,
      last: Option<Chunk>, sum: nat, previousSplitted: bool)
    returns (cuts: seq<nat>)
    requires i < |pieces| && Packing(cfg, pieces, titles, whole, x, i, last, sum, previousSplitted)
    requires MustSeal(cfg, pieces[i], sum, previousSplitted) && last.Some?
    ensures ValidCuts(x, cuts, |pieces|) && NeededCuts(cfg, pieces, x, cuts) && !whole
    ensures Pack(cfg, pieces[i..], titles, last, sum, previousSplitted) == RangeChunks(pieces, titles, x, cuts)
    decreases |pieces| - i, 0
  {
    var p := pieces[i];
    SealsOnlyWhenOver(cfg, pieces, titles, whole, x, i, last, sum, previousSplitted);
    PackingRestarts(cfg, pieces, titles, i);
    var more := PackRanges(cfg, pieces, titles, false, i, i + 1,
                           Some(Append(p, None, titles)), cfg.tok(p.content), p.meta.splitted);
    cuts := [i] + more;
    SealedRange(cfg, pieces, titles, whole, x, i, last, sum, previousSplitted, more);
  }

  lemma {:induction false} RangesAfterTaking(
      cfg: Config, pieces: seq<Item>, titles: seq<string>, whole: bool, x: nat, i: nat,
      last: Option<Chunk>, sum: nat, previousSplitted: bool)
    returns (cuts: seq<nat>)
    requires i < |pieces| && Packing(cfg, pieces, titles, whole, x, i, last, sum, previousSplitted)
    requires !(MustSeal(cfg, pieces[i], sum, previousSplitted) && last.Some?)
    ensures ValidCuts(x, cuts, |pieces|) && NeededCuts(cfg, pieces, x, cuts)
    ensures Pack(cfg, pieces[i..], titles, last, sum, previousSplitted) == RangeChunks(pieces, titles, x, cuts)
    ensures whole ==> cuts == [|pieces|]
    decreases |pieces| - i, 0
  {
    var p := pieces[i];
    var last', sum' := Some(Append(p, last, titles)), sum + cfg.tok(p.content);
    PackTakes(cfg, pieces, i, titles, last, sum, previousSplitted);
    PackingGrows(cfg, pieces, titles, whole, x, i, last, sum, previousSplitted);
    cuts := PackRanges(cfg, pieces, titles, whole, x, i + 1, last', sum', p.meta.splitted);
  }

  lemma {:induction false} Reassociate<T>(x: seq<T>, y: T, z: seq<T>)
    ensures x + ([y] + z) == (x + [y]) + z
  {
  }

  /** A range of section `g` tiles on after what came before. */
  lemma {:induction false} RangeTiles(
      cfg: Config, sections: seq<Section>, g: nat, pieces: seq<Item>, titles: seq<string>,
      x: nat, b: nat, chunks: seq<Chunk>, layout: seq<Origin>)
    requires g < |sections| && pieces == ExpandAll(cfg, sections[g].items) && TitlesOn(titles, Path(sections, g))
    requires x < b <= |pieces| && FirstCut(cfg, pieces, x, b)
    requires SectionFits(cfg, sections[g]) ==> x == 0 && b == |pieces|
    requires Tiled(cfg, sections, chunks, layout, g, x)
    ensures var next := AfterPiece(cfg, sections, g, b);
      Tiled(cfg, sections, chunks + [Chunk(pieces[x..b], titles)], layout + [Within(g, x, b)], next.0, next.1)
  {
    TiledMore(cfg, sections, chunks, layout, g, x, Chunk(pieces[x..b], titles), Within(g, x, b));
  }

  /** The ranges of section `g` tile on after what came before. */
  lemma {:induction false} RangesTile(
      cfg: Config, sections: seq<Section>, g: nat, pieces: seq<Item>, titles: seq<string>,
      x: nat, cuts: seq<nat>, chunks: seq<Chunk>, layout: seq<Origin>)
    returns (full: seq<Origin>)
    requires g < |sections| && pieces == ExpandAll(cfg, sections[g].items) && TitlesOn(titles, Path(sections, g))
    requires cuts != [] && ValidCuts(x, cuts, |pieces|) && NeededCuts(cfg, pieces, x, cuts)
    requires SectionFits(cfg, sections[g]) ==> x == 0 && cuts == [|pieces|]
    requires Tiled(cfg, sections, chunks, layout, g, x)
    ensures Tiled(cfg, sections, chunks + RangeChunks(pieces, titles, x, cuts), full, g + 1, 0)
    decreases |cuts|
  {
    var chunk, origin := Chunk(pieces[x..cuts[0]], titles), Within(g, x, cuts[0]);
    RangeTiles(cfg, sections, g, pieces, titles, x, cuts[0], chunks, layout);
    if cuts[1..] == [] {
      full := layout + [origin];
      OneRange(pieces, titles, x, cuts);
    } else {
      full := RangesTile(cfg, sections, g, pieces, titles, cuts[0], cuts[1..], chunks + [chunk], layout + [origin]);
      Reassociate(chunks, chunk, RangeChunks(pieces, titles, cuts[0], cuts[1..]));
    }
  }

  lemma {:induction false} OneRange(pieces: seq<Item>, titles: seq<string>, x: nat, cuts: seq<nat>)
    requires cuts != [] && cuts[1..] == [] && ValidCuts(x, cuts, |pieces|)
    ensures RangeChunks(pieces, titles, x, cuts) == [Chunk(pieces[x..cuts[0]], titles)] && cuts[0] == |pieces|
  {
    assert [Chunk(pieces[x..cuts[0]], titles)] + [] == [Chunk(pieces[x..cuts[0]], titles)];
  }

  // ------------------------------------------------------------------
  // The whole run
  // ------------------------------------------------------------------

  /** What grouping and title merging hand over: sections of parts with content. */
  ghost predicate Ready(sections: seq<Section>) {
    && NoneEmpty(sections)
    && forall i, j | 0 <= i < |sections| && 0 <= j < |sections[i].items| :: sections[i].items[j].content != ""
  }

  ghost predicate LaidOut(cfg: Config, sections: seq<Section>, n: nat, st: State, layout: seq<Origin>, lo: nat)
    requires n <= |sections|
  {
    if st.last.None? then st.highest.None? && Tiled(cfg, sections, st.done, layout, n, 0)
    else
      && lo < n && st.highest == Some(sections[lo].level)
      && Matches(cfg, sections, st.last.value, Whole(lo, n))
      && Tiled(cfg, sections, st.done, layout, lo, 0)
  }

  lemma {:induction false} AppendAllJoins(items: seq<Item>, last: Option<Chunk>, titles: seq<string>)
    requires items != []
    ensures AppendAll(items, last, titles)
         == Some(if last.None? then Chunk(items, titles) else last.value.(pieces := last.value.pieces + items))
    decreases |items|
  {
    var begun := Append(items[0], last, titles);
    if |items| == 1 {
      assert items == [items[0]] && items[1..] == [];
    } else {
      AppendAllJoins(items[1..], Some(begun), titles);
      assert [items[0]] + items[1..] == items;
      assert begun.pieces + items[1..] == (if last.None? then [] else last.value.pieces) + items;
    }
  }

  lemma {:induction false} WholeGrows(sections: seq<Section>, lo: nat, n: nat)
    requires lo <= n < |sections|
    ensures AllItems(sections[lo..n + 1]) == AllItems(sections[lo..n]) + sections[n].items
    ensures AllItems(sections[n..n + 1]) == sections[n].items
  {
    assert sections[lo..n + 1] == sections[lo..n] + [sections[n]];
    assert sections[n..n + 1] == [sections[n]];
    AllItemsAppend(sections[lo..n], [sections[n]]);
    AllItemsOne(sections[n]);
  }

  lemma {:induction false} WholeStarts(cfg: Config, sections: seq<Section>, n: nat)
    requires n < |sections| && ItemTokens(cfg, sections[n].items) <= cfg.size
    ensures Matches(cfg, sections, Chunk(sections[n].items, Names(Path(sections, n))), Whole(n, n + 1))
  {
    WholeGrows(sections, n, n);
    NamesAreTitles(Path(sections, n));
  }

  lemma {:induction false} TakesOneMore(cfg: Config, sections: seq<Section>, lo: nat, n: nat)
    requires lo < n < |sections| && MayBeOne(cfg, sections, lo, n)
    requires Joins(cfg, sections[lo], sections[n]) && HasRoom(cfg, sections, lo, n)
    ensures MayBeOne(cfg, sections, lo, n + 1)
  {
  }

  lemma {:induction false} WholeTakesMore(cfg: Config, sections: seq<Section>, lo: nat, n: nat, chunk: Chunk)
    requires n < |sections| && Matches(cfg, sections, chunk, Whole(lo, n)) && Joins(cfg, sections[lo], sections[n])
    requires HasRoom(cfg, sections, lo, n)
    ensures Matches(cfg, sections, chunk.(pieces := chunk.pieces + sections[n].items), Whole(lo, n + 1))
  {
    var more := chunk.(pieces := chunk.pieces + sections[n].items);
    WholeGrows(sections, lo, n);
    TakesOneMore(cfg, sections, lo, n);
    assert more.titles == chunk.titles && TitlesOn(more.titles, Path(sections, lo));
  }

  lemma {:induction false} MergedMatches(cfg: Config, sections: seq<Section>, n: nat, st: State,
      layout: seq<Origin>, lo: nat)
    requires n < |sections| && LaidOut(cfg, sections, n, st, layout, lo)
    requires CanMerge(cfg, st, sections[n])
    ensures var chunk := if st.last.None? then Chunk(sections[n].items, Names(Path(sections, n)))
                         else st.last.value.(pieces := st.last.value.pieces + sections[n].items);
      Matches(cfg, sections, chunk, Whole(if st.last.None? then n else lo, n + 1))
  {
    if st.last.None? {
      WholeStarts(cfg, sections, n);
    } else {
      WholeTakesMore(cfg, sections, lo, n, st.last.value);
    }
  }

  lemma {:induction false} MergeStep(cfg: Config, sections: seq<Section>, n: nat, st: State, layout: seq<Origin>, lo: nat)
    requires n < |sections| && sections[n].items != [] && LaidOut(cfg, sections, n, st, layout, lo)
    requires st.stack == PathFrom(sections, n, n) && CanMerge(cfg, st, sections[n])
    ensures LaidOut(cfg, sections, n + 1, Step(cfg, st, sections[n]), layout, if st.last.None? then n else lo)
  {
    EnterIsPath(sections, n);
    AppendAllJoins(sections[n].items, st.last, Names(Path(sections, n)));
    MergedMatches(cfg, sections, n, st, layout, lo);
  }

  lemma {:induction false} PackStep(cfg: Config, sections: seq<Section>, n: nat, st: State, layout: seq<Origin>, lo: nat)
    returns (full: seq<Origin>)
    requires n < |sections| && Ready(sections) && LaidOut(cfg, sections, n, st, layout, lo)
    requires st.stack == PathFrom(sections, n, n) && !CanMerge(cfg, st, sections[n])
    ensures LaidOut(cfg, sections, n + 1, Step(cfg, st, sections[n]), full, 0)
  {
    var items := sections[n].items;
    var pieces := ExpandAll(cfg, items);
    var sealed := if st.last.None? then layout else layout + [Whole(lo, n)];
    EnterIsPath(sections, n);
    if st.last.Some? {
      TiledMore(cfg, sections, st.done, layout, lo, 0, st.last.value, Whole(lo, n));
    } else {
      assert st.done + [] == st.done;
    }
    ExpandAllIsNonEmpty(cfg, items);
    assert pieces[0..0] == [] && pieces[0..] == pieces;
    var whole := SectionFits(cfg, sections[n]);
    if whole {
      FittingIsNotExpanded(cfg, items);
    }
    var titles := Names(Path(sections, n));
    NamesAreTitles(Path(sections, n));
    var cuts := PackRanges(cfg, pieces, titles, whole, 0, 0, None, 0, false);
    full := RangesTile(cfg, sections, n, pieces, titles, 0, cuts, st.done + Sealed(st.last), sealed);
  }

  lemma {:induction false} StepLayout(cfg: Config, sections: seq<Section>, n: nat, st: State, layout: seq<Origin>,
      lo: nat)
    returns (layout': seq<Origin>, lo': nat)
    requires n < |sections| && Ready(sections) && LaidOut(cfg, sections, n, st, layout, lo)
    requires st.stack == PathFrom(sections, n, n)
    ensures LaidOut(cfg, sections, n + 1, Step(cfg, st, sections[n]), layout', lo')
  {
    if CanMerge(cfg, st, sections[n]) {
      MergeStep(cfg, sections, n, st, layout, lo);
      layout', lo' := layout, if st.last.None? then n else lo;
    } else {
      layout' := PackStep(cfg, sections, n, st, layout, lo);
      lo' := 0;
    }
  }

  /** The sealed chunks and the open one account for the first `n` sections. */
  ghost predicate HasLayout(cfg: Config, sections: seq<Section>, n: nat)
    requires n <= |sections|
  {
    exists layout, lo :: LaidOut(cfg, sections, n, Run(cfg, sections[..n]), layout, lo)
  }

  /** Every run of the packing loop accounts for its sections. */
  lemma {:induction false} RunLayout(cfg: Config, sections: seq<Section>, n: nat)
    requires n <= |sections| && Ready(sections)
    ensures HasLayout(cfg, sections, n)
    decreases n
  {
    if n == 0 {
      StartLayout(cfg, sections);
    } else {
      RunLayout(cfg, sections, n - 1);
      NextLayout(cfg, sections, n - 1);
    }
  }

  lemma {:induction false} StartLayout(cfg: Config, sections: seq<Section>)
    ensures HasLayout(cfg, sections, 0)
  {
    assert Run(cfg, sections[..0]) == START;
    assert LaidOut(cfg, sections, 0, Run(cfg, sections[..0]), [], 0);
  }

  lemma {:induction false} NextLayout(cfg: Config, sections: seq<Section>, n: nat)
    requires n < |sections| && Ready(sections)
    requires HasLayout(cfg, sections, n)
    ensures HasLayout(cfg, sections, n + 1)
  {
    var before, from :| LaidOut(cfg, sections, n, Run(cfg, sections[..n]), before, from);
    StackIsPath(cfg, sections, n);
    RunStep(cfg, sections, n);
    var layout, lo := StepLayout(cfg, sections, n, Run(cfg, sections[..n]), before, from);
  }

  lemma {:induction false} RunStep(cfg: Config, sections: seq<Section>, i: nat)
    requires i < |sections|
    ensures Run(cfg, sections[..i + 1]) == Step(cfg, Run(cfg, sections[..i]), sections[i])
  {
    PrefixGrows(sections, i);
  }

  /** Each chunk is a run of whole sections, none with a heading above the first one's, or
      pieces of a single section; together they hold every piece once, in order; a section
      within the budget is never divided; each chunk has the heading path of its first piece;
      and a chunk was sealed only where nothing more could go into it. */
  lemma {:induction false} ChunkStructure(cfg: Config, sections: seq<Section>)
    returns (layout: seq<Origin>)
    requires Ready(sections)
    ensures Tiled(cfg, sections, Chunks(cfg, sections), layout, |sections|, 0)
  {
    assert sections[..|sections|] == sections;
    var st := Run(cfg, sections);
    RunLayout(cfg, sections, |sections|);
    var lo;
    layout, lo :| LaidOut(cfg, sections, |sections|, st, layout, lo);
    if st.last.Some? {
      TiledMore(cfg, sections, st.done, layout, lo, 0, st.last.value, Whole(lo, |sections|));
      layout := layout + [Whole(lo, |sections|)];
    } else {
      assert st.done + [] == st.done;
    }
  }

  function Pieces(chunks: seq<Chunk>): seq<Item> {
    if chunks == [] then [] else Pieces(chunks[..|chunks| - 1]) + chunks[|chunks| - 1].pieces
  }

  lemma {:induction false} ExpandAllAppend(cfg: Config, x: seq<Item>, y: seq<Item>)
    ensures ExpandAll(cfg, x + y) == ExpandAll(cfg, x) + ExpandAll(cfg, y)
  {
    if x == [] {
      assert x + y == y;
    } else {
      assert (x + y)[1..] == x[1..] + y;
      ExpandAllAppend(cfg, x[1..], y);
      Associate(Expand(cfg, x[0]), ExpandAll(cfg, x[1..]), ExpandAll(cfg, y));
    }
  }

  /** The pieces before piece `a` of section `g`. */
  function PiecesBefore(cfg: Config, sections: seq<Section>, g: nat, a: nat): seq<Item>
    requires g <= |sections|
    requires a > 0 ==> g < |sections| && a <= |ExpandAll(cfg, sections[g].items)|
  {
    ExpandAll(cfg, AllItems(sections[..g])) + if a > 0 then ExpandAll(cfg, sections[g].items)[..a] else []
  }

  lemma {:induction false} WholeIsNotExpanded(cfg: Config, sections: seq<Section>, lo: nat, hi: nat, first: Section)
    requires lo <= hi <= |sections|
    requires forall k | lo <= k < hi :: Joins(cfg, first, sections[k])
    ensures ExpandAll(cfg, AllItems(sections[lo..hi])) == AllItems(sections[lo..hi])
    decreases hi - lo
  {
    if lo < hi {
      assert sections[lo..hi][1..] == sections[lo + 1..hi];
      WholeIsNotExpanded(cfg, sections, lo + 1, hi, first);
      FittingIsNotExpanded(cfg, sections[lo].items);
      ExpandAllAppend(cfg, sections[lo].items, AllItems(sections[lo + 1..hi]));
    }
  }

  lemma {:induction false} SectionEnds(cfg: Config, sections: seq<Section>, g: nat)
    requires g < |sections|
    ensures PiecesBefore(cfg, sections, g + 1, 0)
         == ExpandAll(cfg, AllItems(sections[..g])) + ExpandAll(cfg, sections[g].items)
  {
    assert sections[..g + 1] == sections[..g] + [sections[g]];
    AllItemsAppend(sections[..g], [sections[g]]);
    AllItemsOne(sections[g]);
    ExpandAllAppend(cfg, AllItems(sections[..g]), sections[g].items);
  }

  lemma {:induction false} WholePieces(cfg: Config, sections: seq<Section>, lo: nat, hi: nat)
    requires lo < hi <= |sections|
    requires forall k | lo <= k < hi :: Joins(cfg, sections[lo], sections[k])
    ensures PiecesBefore(cfg, sections, hi, 0) == PiecesBefore(cfg, sections, lo, 0) + AllItems(sections[lo..hi])
  {
    WholeIsNotExpanded(cfg, sections, lo, hi, sections[lo]);
    PrefixPlusSlice(sections, lo, hi);
    AllItemsAppend(sections[..lo], sections[lo..hi]);
    ExpandAllAppend(cfg, AllItems(sections[..lo]), AllItems(sections[lo..hi]));
  }

  lemma {:induction false} PiecesUpTo(cfg: Config, sections: seq<Section>, g: nat, a: nat)
    requires g < |sections| && a <= |ExpandAll(cfg, sections[g].items)|
    ensures PiecesBefore(cfg, sections, g, a)
         == ExpandAll(cfg, AllItems(sections[..g])) + ExpandAll(cfg, sections[g].items)[..a]
  {
    assert a == 0 ==> ExpandAll(cfg, sections[g].items)[..a] == [];
  }

  lemma {:induction false} WithinPieces(cfg: Config, sections: seq<Section>, g: nat, a: nat, b: nat)
    requires g < |sections| && a < b <= |ExpandAll(cfg, sections[g].items)|
    ensures var next := AfterPiece(cfg, sections, g, b);
      PiecesBefore(cfg, sections, next.0, next.1)
      == PiecesBefore(cfg, sections, g, a) + ExpandAll(cfg, sections[g].items)[a..b]
  {
    var before, pieces := ExpandAll(cfg, AllItems(sections[..g])), ExpandAll(cfg, sections[g].items);
    PiecesUpTo(cfg, sections, g, a);
    PiecesUpTo(cfg, sections, g, b);
    if b == |pieces| {
      SectionEnds(cfg, sections, g);
      assert pieces[..b] == pieces;
    }
    PrefixPlusSlice(pieces, a, b);
    Associate(before, pieces[..a], pieces[a..b]);
  }

  lemma {:induction false} TiledPieces(
      cfg: Config, sections: seq<Section>, chunks: seq<Chunk>, layout: seq<Origin>, g: nat, a: nat)
    requires Tiled(cfg, sections, chunks, layout, g, a)
    ensures g <= |sections| && (a > 0 ==> g < |sections| && a <= |ExpandAll(cfg, sections[g].items)|)
    ensures Pieces(chunks) == PiecesBefore(cfg, sections, g, a)
    decreases |chunks|
  {
    if chunks == [] {
      assert sections[..0] == [];
    } else {
      var n := |chunks| - 1;
      match layout[n]
      case Whole(lo, hi) =>
        TiledPieces(cfg, sections, chunks[..n], layout[..n], lo, 0);
        WholePieces(cfg, sections, lo, hi);
      case Within(h, x, y) =>
        TiledPieces(cfg, sections, chunks[..n], layout[..n], h, x);
        WithinPieces(cfg, sections, h, x, y);
    }
  }

  lemma {:induction false} NonEmptyIsReady(sections: seq<Section>)
    requires NoneEmpty(sections)
    requires forall k | 0 <= k < |AllItems(sections)| :: AllItems(sections)[k].content != ""
    ensures Ready(sections)
    decreases |sections|
  {
    if sections != [] {
      var rest := AllItems(sections[1..]);
      forall k | 0 <= k < |rest| ensures rest[k].content != "" {
        assert AllItems(sections)[|sections[0].items| + k] == rest[k];
      }
      NonEmptyIsReady(sections[1..]);
      forall i, j | 0 <= i < |sections| && 0 <= j < |sections[i].items| ensures sections[i].items[j].content != "" {
        if i == 0 {
          assert AllItems(sections)[j] == sections[0].items[j];
        } else {
          assert sections[1..][i - 1] == sections[i];
        }
      }
    }
  }

  lemma {:induction false} NonEmptyHasContent(parts: seq<Item>)
    ensures forall k | 0 <= k < |NonEmpty(parts)| :: NonEmpty(parts)[k].content != ""
    decreases |parts|
  {
    if parts != [] {
      NonEmptyHasContent(parts[..|parts| - 1]);
    }
  }

  /** The grouped and title-merged input. */
  lemma {:induction false} GroupedInput(parts: seq<Item>)
    ensures var sections := MergeTitles(ToSections(parts));
      Ready(sections) && AllItems(sections) == NonEmpty(parts) && TitlesSettled(sections)
  {
    SectionsKeepParts(parts);
    assert NoneEmpty(ToSections(parts)) by {
      assert forall i | 0 <= i < |ToSections(parts)| :: WellHeaded(ToSections(parts)[i]);
    }
    MergeKeepsItems(ToSections(parts));
    MergeSettles(ToSections(parts));
    NonEmptyHasContent(parts);
    NonEmptyIsReady(MergeTitles(ToSections(parts)));
  }

  /** End to end: the chunks are made of exactly the non-empty parts, large ones split, in order. */
  lemma {:induction false} RechunkKeepsPieces(cfg: Config, parts: seq<Item>)
    ensures Pieces(Rechunk(cfg, parts)) == ExpandAll(cfg, NonEmpty(parts))
  {
    GroupedInput(parts);
    var sections := MergeTitles(ToSections(parts));
    var layout := ChunkStructure(cfg, sections);
    TiledPieces(cfg, sections, Chunks(cfg, sections), layout, |sections|, 0);
    assert sections[..|sections|] == sections;
  }

  function Contents(items: seq<Item>): string {
    if items == [] then "" else items[0].content + Contents(items[1..])
  }

  lemma {:induction false} ContentsAppend(x: seq<Item>, y: seq<Item>)
    ensures Contents(x + y) == Contents(x) + Contents(y)
  {
    if x == [] {
      assert x + y == y;
    } else {
      assert (x + y)[1..] == x[1..] + y;
      ContentsAppend(x[1..], y);
    }
  }

  lemma {:induction false} ContentsOfChunks(items: seq<Item>, chunks: seq<string>)
    requires |items| == |chunks| && forall i | 0 <= i < |items| :: items[i].content == chunks[i]
    ensures Contents(items) == Concat(chunks)
    decreases |items|
  {
    if items != [] {
      ContentsOfChunks(items[1..], chunks[1..]);
    }
  }

  lemma {:induction false} ExpandKeepsText(cfg: Config, items: seq<Item>)
    requires cfg.overlap <= 0
    ensures Contents(ExpandAll(cfg, items)) == Contents(items)
    decreases |items|
  {
    if items != [] {
      var head := Expand(cfg, items[0]);
      if cfg.tok(items[0].content) > cfg.size {
        WithoutOverlapChunksRejoin(cfg, 0, items[0].content);
        ContentsOfChunks(head, Split(cfg, 0, items[0].content));
      } else {
        assert head[1..] == [];
      }
      ExpandKeepsText(cfg, items[1..]);
      ContentsAppend(head, ExpandAll(cfg, items[1..]));
    }
  }

  lemma {:induction false} NonEmptyKeepsText(parts: seq<Item>)
    ensures Contents(NonEmpty(parts)) == Contents(parts)
    decreases |parts|
  {
    if parts != [] {
      var n := |parts| - 1;
      NonEmptyKeepsText(parts[..n]);
      assert parts == parts[..n] + [parts[n]];
      ContentsAppend(parts[..n], [parts[n]]);
      ContentsAppend(NonEmpty(parts[..n]), if parts[n].content == "" then [] else [parts[n]]);
      assert [parts[n]][1..] == [];
    }
  }

  /** Without an overlap the chunks hold every character of the input exactly once, in order. */
  lemma {:induction false} RechunkKeepsText(cfg: Config, parts: seq<Item>)
    requires cfg.overlap <= 0
    ensures Contents(Pieces(Rechunk(cfg, parts))) == Contents(parts)
  {
    RechunkKeepsPieces(cfg, parts);
    ExpandKeepsText(cfg, NonEmpty(parts));
    NonEmptyKeepsText(parts);
  }

  // ------------------------------------------------------------------
  // The source range of a chunk
  // ------------------------------------------------------------------

  predicate Inside(range: Option<(int, int)>, hull: (int, int)) {
    range.Some? ==> hull.0 <= range.value.0 && range.value.1 <= hull.1
  }

  /** The range of a chunk is the least one around the ranges of its pieces: it is there exactly if
      one of theirs is, contains them all, and begins and ends where one of them does. */
  lemma {:induction false} RangeIsTight(pieces: seq<Item>)
    ensures HullOf(pieces).None? <==> forall p <- pieces :: p.meta.sourceMap.None?
    ensures HullOf(pieces).Some? ==>
      var hull := HullOf(pieces).value;
      && (forall p <- pieces :: Inside(p.meta.sourceMap, hull))
      && (exists p <- pieces :: p.meta.sourceMap.Some? && p.meta.sourceMap.value.0 == hull.0)
      && (exists p <- pieces :: p.meta.sourceMap.Some? && p.meta.sourceMap.value.1 == hull.1)
    decreases |pieces|
  {
    if pieces != [] {
      var before, last := pieces[..|pieces| - 1], pieces[|pieces| - 1];
      RangeIsTight(before);
      assert forall p :: p in pieces <==> p in before || p == last;
    }
  }

  // ------------------------------------------------------------------
  // The size of the chunks
  // ------------------------------------------------------------------

  ghost predicate Subadditive(tok: Tokenizer) {
    forall a: string, b: string :: tok(a + b) <= tok(a) + tok(b)
  }

  lemma {:induction false} JoinSnoc(pieces: seq<Item>, last: Item)
    requires pieces != []
    ensures Join(pieces + [last]) == Join(pieces) + "\n\n" + last.content
  {
    assert (pieces + [last])[..|pieces|] == pieces;
  }

  lemma {:induction false} SnocTokens(cfg: Config, sigma: nat, before: string, last: string)
    requires Subadditive(cfg.tok) && cfg.tok("\n\n") <= sigma
    ensures cfg.tok(before + "\n\n" + last) <= cfg.tok(before) + sigma + cfg.tok(last)
  {
    assert cfg.tok((before + "\n\n") + last) <= cfg.tok(before + "\n\n") + cfg.tok(last);
    assert cfg.tok(before + "\n\n") <= cfg.tok(before) + cfg.tok("\n\n");
  }

  lemma {:induction false} Distributes(sigma: nat, m: int, n: int)
    ensures sigma * (m + n) == sigma * m + sigma * n
  {
  }

  lemma {:induction false} JoinTokens(cfg: Config, sigma: nat, pieces: seq<Item>, more: seq<Item>)
    requires Subadditive(cfg.tok) && cfg.tok("\n\n") <= sigma && pieces != []
    ensures cfg.tok(Join(pieces + more)) <= cfg.tok(Join(pieces)) + ItemTokens(cfg, more) + sigma * |more|
    decreases |more|
  {
    if more == [] {
      assert pieces + more == pieces;
    } else {
      var n := |more| - 1;
      var init, last := more[..n], more[n];
      assert more == init + [last];
      assert pieces + more == (pieces + init) + [last];
      JoinTokens(cfg, sigma, pieces, init);
      JoinSnoc(pieces + init, last);
      SnocTokens(cfg, sigma, Join(pieces + init), last.content);
      ItemTokensAppend(cfg, init, [last]);
      ItemTokensOne(cfg, last);
      Distributes(sigma, n, 1);
    }
  }

  lemma {:induction false} JoinAllTokens(cfg: Config, sigma: nat, pieces: seq<Item>)
    requires Subadditive(cfg.tok) && cfg.tok("\n\n") <= sigma && pieces != []
    ensures cfg.tok(Join(pieces)) <= ItemTokens(cfg, pieces) + sigma * (|pieces| - 1)
  {
    assert pieces == [pieces[0]] + pieces[1..];
    JoinTokens(cfg, sigma, [pieces[0]], pieces[1..]);
  }

  predicate InBudget(cfg: Config, sigma: nat, chunk: Chunk) {
    chunk.pieces != [] && cfg.tok(Join(chunk.pieces)) <= cfg.size + sigma * (|chunk.pieces| - 1)
  }

  predicate SingleCharacter(chunk: Chunk) {
    |chunk.pieces| == 1 && |chunk.pieces[0].content| == 1
  }

  predicate SizeOk(cfg: Config, sigma: nat, chunk: Chunk) {
    InBudget(cfg, sigma, chunk) || SingleCharacter(chunk)
  }

  ghost predicate AllSizesOk(cfg: Config, sigma: nat, chunks: seq<Chunk>) {
    forall i | 0 <= i < |chunks| :: SizeOk(cfg, sigma, chunks[i])
  }

  predicate PieceFits(cfg: Config, piece: Item) {
    cfg.tok(piece.content) <= cfg.size || |piece.content| == 1
  }

  lemma {:induction false} ExpandedPiecesFit(cfg: Config, items: seq<Item>)
    ensures forall p <- ExpandAll(cfg, items) :: PieceFits(cfg, p)
    decreases |items|
  {
    if items != [] {
      ExpandedPiecesFit(cfg, items[1..]);
      var chunks, head := Split(cfg, 0, items[0].content), Expand(cfg, items[0]);
      ChunksFit(cfg, 0, items[0].content);
      forall i | 0 <= i < |head| ensures PieceFits(cfg, head[i]) {
        if cfg.tok(items[0].content) > cfg.size {
          assert head[i].content == chunks[i] && chunks[i] in chunks;
        }
      }
    }
  }

  /** The open chunk is within the token budget, separators not counted, or a single character. */
  predicate OpenOk(cfg: Config, last: Option<Chunk>, sum: nat) {
    if last.None? then sum == 0
    else
      && last.value.pieces != [] && sum == ItemTokens(cfg, last.value.pieces)
      && (sum <= cfg.size || SingleCharacter(last.value))
  }

  lemma {:induction false} OpenIsOk(cfg: Config, sigma: nat, last: Option<Chunk>, sum: nat)
    requires Subadditive(cfg.tok) && cfg.tok("\n\n") <= sigma && OpenOk(cfg, last, sum)
    ensures AllSizesOk(cfg, sigma, Sealed(last))
  {
    if last.Some? {
      JoinAllTokens(cfg, sigma, last.value.pieces);
    }
  }

  lemma {:induction false} AppendIsOk(cfg: Config, piece: Item, last: Option<Chunk>, sum: nat, titles: seq<string>)
    requires OpenOk(cfg, last, sum) && PieceFits(cfg, piece)
    requires last.Some? ==> sum + cfg.tok(piece.content) <= cfg.size
    ensures OpenOk(cfg, Some(Append(piece, last, titles)), sum + cfg.tok(piece.content))
  {
    ItemTokensOne(cfg, piece);
    if last.Some? {
      ItemTokensAppend(cfg, last.value.pieces, [piece]);
    }
  }

  lemma {:induction false} PackSizes(
      cfg: Config, sigma: nat, pieces: seq<Item>, titles: seq<string>,
      last: Option<Chunk>, sum: nat, previousSplitted: bool)
    requires Subadditive(cfg.tok) && cfg.tok("\n\n") <= sigma
    requires forall p <- pieces :: PieceFits(cfg, p)
    requires OpenOk(cfg, last, sum)
    ensures AllSizesOk(cfg, sigma, Pack(cfg, pieces, titles, last, sum, previousSplitted))
    decreases |pieces|
  {
    OpenIsOk(cfg, sigma, last, sum);
    if pieces != [] {
      var p := pieces[0];
      if MustSeal(cfg, p, sum, previousSplitted) && last.Some? {
        AppendIsOk(cfg, p, None, 0, titles);
        PackSizes(cfg, sigma, pieces[1..], titles, Some(Append(p, None, titles)), cfg.tok(p.content), p.meta.splitted);
      } else {
        AppendIsOk(cfg, p, last, sum, titles);
        PackSizes(cfg, sigma, pieces[1..], titles, Some(Append(p, last, titles)), sum + cfg.tok(p.content), p.meta.splitted);
      }
    }
  }

  ghost predicate StateSizes(cfg: Config, sigma: nat, st: State) {
    AllSizesOk(cfg, sigma, st.done) && (st.last.Some? ==> InBudget(cfg, sigma, st.last.value))
  }

  lemma {:induction false} AtLeastZero(m: nat, n: nat)
    ensures m * n >= 0
  {
  }

  lemma {:induction false} MergeSizes(cfg: Config, sigma: nat, st: State, section: Section)
    requires Subadditive(cfg.tok) && cfg.tok("\n\n") <= sigma && section.items != []
    requires StateSizes(cfg, sigma, st) && CanMerge(cfg, st, section)
    ensures StateSizes(cfg, sigma, Step(cfg, st, section))
  {
    var titles := Names(Enter(st.stack, section.level, section.title));
    AppendAllJoins(section.items, st.last, titles);
    if st.last.None? {
      JoinAllTokens(cfg, sigma, section.items);
    } else {
      var before := st.last.value.pieces;
      JoinTokens(cfg, sigma, before, section.items);
      Distributes(sigma, |section.items|, |before| - 1);
      AtLeastZero(sigma, |before| - 1);
    }
  }

  lemma {:induction false} StepSizes(cfg: Config, sigma: nat, st: State, section: Section)
    requires Subadditive(cfg.tok) && cfg.tok("\n\n") <= sigma && section.items != []
    requires StateSizes(cfg, sigma, st)
    ensures StateSizes(cfg, sigma, Step(cfg, st, section))
  {
    if CanMerge(cfg, st, section) {
      MergeSizes(cfg, sigma, st, section);
    } else {
      ExpandedPiecesFit(cfg, section.items);
      PackSizes(cfg, sigma, ExpandAll(cfg, section.items), Names(Enter(st.stack, section.level, section.title)), None, 0, false);
    }
  }

  lemma {:induction false} RunSizes(cfg: Config, sigma: nat, sections: seq<Section>)
    requires Subadditive(cfg.tok) && cfg.tok("\n\n") <= sigma && NoneEmpty(sections)
    ensures StateSizes(cfg, sigma, Run(cfg, sections))
    decreases |sections|
  {
    if sections != [] {
      var n := |sections| - 1;
      RunSizes(cfg, sigma, sections[..n]);
      StepSizes(cfg, sigma, Run(cfg, sections[..n]), sections[n]);
    }
  }

  /** For a subadditive tokenizer a chunk of `m` pieces exceeds the budget by at most the
      `m - 1` separators between them, unless it is a single character. */
  lemma {:induction false} RechunkSizes(cfg: Config, sigma: nat, parts: seq<Item>)
    requires Subadditive(cfg.tok) && cfg.tok("\n\n") <= sigma
    ensures AllSizesOk(cfg, sigma, Rechunk(cfg, parts))
  {
    GroupedInput(parts);
    RunSizes(cfg, sigma, MergeTitles(ToSections(parts)));
  }

  /** From the input parts on: the structure of the result, chunk by chunk. */
  lemma {:induction false} RechunkStructure(cfg: Config, parts: seq<Item>)
    ensures var sections := MergeTitles(ToSections(parts));
      exists layout: seq<Origin> :: Tiled(cfg, sections, Rechunk(cfg, parts), layout, |sections|, 0)
  {
    GroupedInput(parts);
    var sections := MergeTitles(ToSections(parts));
    var layout := ChunkStructure(cfg, sections);
    assert Tiled(cfg, sections, Rechunk(cfg, parts), layout, |sections|, 0);
  }
}
