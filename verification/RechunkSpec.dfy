/** Specification of the `Rechunker` of aperag/docparser/chunking.py, on values. */
module RechunkSpec {
  import opened Common
  import opened SplitterSpec

  /** The metadata entries the rechunker reads or writes. */
  datatype Metadata = Metadata(
    nesting: int,
    titles: Option<seq<string>>,
    sourceMap: Option<(int, int)>,
    splitted: bool,
    tokens: Option<nat>)

  /** The value of a part; a part without content has the empty content. Only a title has a level. */
  datatype Item = Item(content: string, level: Option<nat>, meta: Metadata)

  datatype Section = Section(level: nat, title: string, items: seq<Item>)

  // ------------------------------------------------------------------
  // Grouping parts under headings
  // ------------------------------------------------------------------

  function TitleLevel(part: Item): nat {
    if part.level.Some? then part.level.value else 0
  }

  function TitleText(part: Item): string {
    if part.level.Some? then part.content else ""
  }

  predicate OpensSection(part: Item) {
    TitleLevel(part) != 0 && part.meta.nesting == 0
  }

  function AddPart(sections: seq<Section>, part: Item): seq<Section> {
    if part.content == "" then sections
    else if sections == [] || OpensSection(part) then
      sections + [Section(TitleLevel(part), TitleText(part), [part])]
    else
      var last := |sections| - 1;
      sections[last := sections[last].(items := sections[last].items + [part])]
  }

  function ToSections(parts: seq<Item>): seq<Section> {
    if parts == [] then []
    else AddPart(ToSections(parts[..|parts| - 1]), parts[|parts| - 1])
  }

  // ------------------------------------------------------------------
  // Merging title-only groups into what follows
  // ------------------------------------------------------------------

  predicate PureTitle(section: Section) {
    section.level > 0 && |section.items| == 1
  }

  function AllItems(sections: seq<Section>): seq<Item> {
    if sections == [] then [] else sections[0].items + AllItems(sections[1..])
  }

  /** The end of the run of title-only sections from `j` on that are not above `level`. */
  function TitleRun(sections: seq<Section>, j: nat, level: nat): (k: nat)
    requires j <= |sections|
    ensures j <= k <= |sections|
    decreases |sections| - j
  {
    if j < |sections| && PureTitle(sections[j]) && sections[j].level >= level then
      TitleRun(sections, j + 1, level)
    else j
  }

  /** The end of what is merged with the title-only first section. */
  function MergeEnd(sections: seq<Section>): (k: nat)
    requires sections != []
    ensures 0 < k <= |sections|
  {
    var level := sections[0].level;
    var j := TitleRun(sections, 1, level);
    if j < |sections| && !PureTitle(sections[j]) && (sections[j].level == 0 || sections[j].level >= level) then j + 1
    else j
  }

  function MergeTitles(sections: seq<Section>): seq<Section>
    decreases |sections|
  {
    if sections == [] then []
    else if !PureTitle(sections[0]) then [sections[0]] + MergeTitles(sections[1..])
    else
      var k := MergeEnd(sections);
      [sections[0].(items := AllItems(sections[..k]))] + MergeTitles(sections[k..])
  }

  // ------------------------------------------------------------------
  // Packing sections into chunks
  // ------------------------------------------------------------------

  /** An output part: the pieces it was appended from, and the heading path given to the first. */
  datatype Chunk = Chunk(pieces: seq<Item>, titles: seq<string>)

  function Join(pieces: seq<Item>): string {
    if pieces == [] then ""
    else if |pieces| == 1 then pieces[0].content
    else Join(pieces[..|pieces| - 1]) + "\n\n" + pieces[|pieces| - 1].content
  }

  function Hull(a: Option<(int, int)>, b: Option<(int, int)>): Option<(int, int)> {
    if a.None? then b
    else if b.None? then a
    else
      var lo := if b.value.0 < a.value.0 then b.value.0 else a.value.0;
      var hi := if b.value.1 > a.value.1 then b.value.1 else a.value.1;
      Some((lo, hi))
  }

  function HullOf(pieces: seq<Item>): Option<(int, int)> {
    if pieces == [] then None else Hull(HullOf(pieces[..|pieces| - 1]), pieces[|pieces| - 1].meta.sourceMap)
  }

  /** The value of the output part. */
  function ChunkItem(chunk: Chunk): Item
    requires chunk.pieces != []
  {
    var meta := chunk.pieces[0].meta;
    Item(Join(chunk.pieces), None,
         meta.(titles := if chunk.titles != [] then Some(chunk.titles) else meta.titles,
               sourceMap := HullOf(chunk.pieces),
               tokens := None))
  }

  function Append(piece: Item, dest: Option<Chunk>, titles: seq<string>): Chunk {
    if dest.None? then Chunk([piece], titles) else dest.value.(pieces := dest.value.pieces + [piece])
  }

  function AppendAll(pieces: seq<Item>, dest: Option<Chunk>, titles: seq<string>): Option<Chunk>
    decreases |pieces|
  {
    if pieces == [] then dest else AppendAll(pieces[1..], Some(Append(pieces[0], dest, titles)), titles)
  }

  function ItemTokens(cfg: Config, items: seq<Item>): nat {
    if items == [] then 0 else cfg.tok(items[0].content) + ItemTokens(cfg, items[1..])
  }

  function LastTokens(cfg: Config, last: Option<Chunk>): nat {
    if last.None? then 0 else cfg.tok(Join(last.value.pieces))
  }

  /** A part that is too large becomes its split chunks; any other part stays itself. */
  function Expand(cfg: Config, item: Item): seq<Item> {
    if cfg.tok(item.content) > cfg.size then
      var chunks := Split(cfg, 0, item.content);
      seq(|chunks|, i requires 0 <= i < |chunks| => Item(chunks[i], None, item.meta.(tokens := None, splitted := true)))
    else [item]
  }

  function ExpandAll(cfg: Config, items: seq<Item>): seq<Item> {
    if items == [] then [] else Expand(cfg, items[0]) + ExpandAll(cfg, items[1..])
  }

  function Sealed(last: Option<Chunk>): seq<Chunk> {
    if last.Some? then [last.value] else []
  }

  predicate MustSeal(cfg: Config, piece: Item, sum: nat, previousSplitted: bool) {
    sum + cfg.tok(piece.content) > cfg.size || (previousSplitted && !piece.meta.splitted)
  }

  /** The chunks of one section whose pieces are packed on their own. */
  function Pack(cfg: Config, pieces: seq<Item>, titles: seq<string>,
                last: Option<Chunk>, sum: nat, previousSplitted: bool): seq<Chunk>
    decreases |pieces|
  {
    if pieces == [] then Sealed(last)
    else
      var p, rest := pieces[0], pieces[1..];
      var tokens := cfg.tok(p.content);
      if MustSeal(cfg, p, sum, previousSplitted) && last.Some? then
        Sealed(last) + Pack(cfg, rest, titles, Some(Append(p, None, titles)), tokens, p.meta.splitted)
      else
        Pack(cfg, rest, titles, Some(Append(p, last, titles)), sum + tokens, p.meta.splitted)
  }

  type Heading = (string, nat)

  function PopTo(stack: seq<Heading>, level: nat): seq<Heading> {
    if stack != [] && stack[|stack| - 1].1 >= level then PopTo(stack[..|stack| - 1], level) else stack
  }

  function Enter(stack: seq<Heading>, level: nat, title: string): seq<Heading> {
    PopTo(stack, level) + if level > 0 then [(title, level)] else []
  }

  function Names(stack: seq<Heading>): seq<string> {
    if stack == [] then [] else [stack[0].0] + Names(stack[1..])
  }

  /** The local variables of `_rechunk` between two groups. */
  datatype State = State(stack: seq<Heading>, done: seq<Chunk>, last: Option<Chunk>, highest: Option<nat>)

  const START := State([], [], None, None)

  predicate CanMerge(cfg: Config, st: State, section: Section) {
    && !(st.highest.Some? && st.highest.value > section.level)
    && LastTokens(cfg, st.last) + ItemTokens(cfg, section.items) <= cfg.size
  }

  function Step(cfg: Config, st: State, section: Section): State {
    var stack := Enter(st.stack, section.level, section.title);
    var titles := Names(stack);
    if CanMerge(cfg, st, section) then
      State(stack, st.done, AppendAll(section.items, st.last, titles),
            if st.highest.None? then Some(section.level) else st.highest)
    else
      var packed := Pack(cfg, ExpandAll(cfg, section.items), titles, None, 0, false);
      State(stack, st.done + Sealed(st.last) + packed, None,
            if st.last.Some? || packed != [] then None else st.highest)
  }

  function Run(cfg: Config, sections: seq<Section>): State {
    if sections == [] then START
    else Step(cfg, Run(cfg, sections[..|sections| - 1]), sections[|sections| - 1])
  }

  function Chunks(cfg: Config, sections: seq<Section>): seq<Chunk> {
    var st := Run(cfg, sections);
    st.done + Sealed(st.last)
  }

  function Rechunk(cfg: Config, parts: seq<Item>): seq<Chunk> {
    Chunks(cfg, MergeTitles(ToSections(parts)))
  }
}
