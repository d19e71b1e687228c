/** The code of `Rechunker` (aperag/docparser/chunking.py), on mutable parts and groups. */
module Rechunker {
  import opened Common
  import opened SplitterSpec
  import opened RechunkSpec
  import opened RechunkProofs
  import opened RechunkShows
  import Splitter

  /** A parsed part; only a `TitlePart` has a level. */
  class Part {
    const level: Option<nat>
    var content: string
    var meta: Metadata

    constructor (content: string, level: Option<nat>, meta: Metadata)
      ensures this.content == content && this.level == level && this.meta == meta
    {
      this.content, this.level, this.meta := content, level, meta;
    }

    /** The value of the part; the cached token count is not part of it. */
    ghost function View(): Item
      reads this
    {
      Item(content, level, meta.(tokens := None))
    }

    /** A cached token count is the count of the current content. */
    ghost predicate Counted(tok: Tokenizer)
      reads this
    {
      meta.tokens.Some? ==> meta.tokens.value == tok(content)
    }
  }

  /** The parts have the given values, and their cached counts are right. */
  ghost predicate Shows(tok: Tokenizer, parts: seq<Part>, values: seq<Item>)
    reads parts
  {
    |parts| == |values| && forall i | 0 <= i < |parts| :: parts[i].View() == values[i] && parts[i].Counted(tok)
  }

  class Group {
    const level: nat
    const title: string
    var items: seq<Part>
    var tokens: Option<nat>

    constructor (level: nat, title: string, items: seq<Part>)
      ensures this.level == level && this.title == title && this.items == items && this.tokens == None
    {
      this.level, this.title, this.items, this.tokens := level, title, items, None;
    }

    ghost predicate Is(tok: Tokenizer, section: Section)
      reads this, items
    {
      level == section.level && title == section.title && Shows(tok, items, section.items)
    }
  }

  ghost function PartsOf(groups: seq<Group>): (parts: set<Part>)
    reads groups
    ensures forall i, j | 0 <= i < |groups| && 0 <= j < |groups[i].items| :: groups[i].items[j] in parts
  {
    set i, j | 0 <= i < |groups| && 0 <= j < |groups[i].items| :: groups[i].items[j]
  }

  ghost predicate ShowsAll(tok: Tokenizer, groups: seq<Group>, sections: seq<Section>)
    reads groups, PartsOf(groups)
  {
    |groups| == |sections| && forall i {:trigger groups[i].Is(tok, sections[i])} | 0 <= i < |groups| :: groups[i].Is(tok, sections[i])
  }

  // ------------------------------------------------------------------
  // Grouping
  // ------------------------------------------------------------------

  /** The groups are distinct objects made of the given parts, and nothing is counted yet. */
  ghost predicate Fresh(groups: seq<Group>, parts: seq<Part>)
    reads groups
  {
    && (forall i, j | 0 <= i < j < |groups| :: groups[i] != groups[j])
    && (forall i | 0 <= i < |groups| :: groups[i].tokens.None? && forall p <- groups[i].items :: p in parts)
  }

  /** One turn of the loop: `part` goes into the last group or opens a new one. */
  method AddToGroups(tok: Tokenizer, groups: seq<Group>, part: Part, parts: seq<Part>, ghost sections: seq<Section>)
    returns (result: seq<Group>)
    requires part in parts && part.Counted(tok)
    requires Fresh(groups, parts) && ShowsAll(tok, groups, sections)
    modifies if groups == [] then {} else {groups[|groups| - 1]}
    ensures Fresh(result, parts) && ShowsAll(tok, result, AddPart(sections, part.View()))
    ensures groups <= result && fresh(result[|groups|..])
  {
    if part.content == "" {
      return groups;
    }
    var titleLevel, title := 0, "";
    if part.level.Some? {
      titleLevel, title := part.level.value, part.content;
    }
    if groups != [] && (titleLevel == 0 || part.meta.nesting != 0) {
      AddToLast(tok, groups, part, parts, sections);
      return groups;
    }
    var current := new Group(titleLevel, title, [part]);
    assert current.Is(tok, Section(titleLevel, title, [part.View()]));
    AppendShown(tok, groups, parts, sections, current, Section(titleLevel, title, [part.View()]));
    return groups + [current];
  }

  method AddToLast(tok: Tokenizer, groups: seq<Group>, part: Part, parts: seq<Part>, ghost sections: seq<Section>)
    requires part in parts && part.Counted(tok) && groups != []
    requires Fresh(groups, parts) && ShowsAll(tok, groups, sections)
    modifies groups[|groups| - 1]
    ensures Fresh(groups, parts)
    ensures var n := |groups| - 1;
      ShowsAll(tok, groups, sections[n := sections[n].(items := sections[n].items + [part.View()])])
  {
    var n := |groups| - 1;
    var current := groups[n];
    assert current.Is(tok, sections[n]);
    current.items := current.items + [part];
    ghost var longer := sections[n := sections[n].(items := sections[n].items + [part.View()])];
    forall k | 0 <= k < |groups| ensures groups[k].Is(tok, longer[k]) {
      assert old(groups[k].Is(tok, sections[k]));
    }
  }

  method ToGroups(tok: Tokenizer, parts: seq<Part>, ghost values: seq<Item>) returns (groups: seq<Group>)
    requires Shows(tok, parts, values)
    ensures fresh(groups) && Fresh(groups, parts)
    ensures ShowsAll(tok, groups, ToSections(values))
  {
    groups := [];
    for i := 0 to |parts|
      invariant fresh(groups) && Fresh(groups, parts)
      invariant ShowsAll(tok, groups, ToSections(values[..i]))
    {
      PrefixGrows(values, i);
      assert parts[i].View() == values[i];
      ghost var before := groups;
      groups := AddToGroups(tok, groups, parts[i], parts, ToSections(values[..i]));
      assert groups == before + groups[|before|..];
    }
    assert values[..|parts|] == values;
  }

  // ------------------------------------------------------------------
  // Title merging
  // ------------------------------------------------------------------

  method IsPureTitleGroup(group: Group) returns (pure: bool)
    ensures pure == (group.level > 0 && |group.items| == 1)
  {
    return group.level > 0 && |group.items| == 1;
  }

  lemma {:induction false} TitleRunShift(sections: seq<Section>, i: nat, j: nat, level: nat)
    requires i + j <= |sections|
    ensures TitleRun(sections, i + j, level) == i + TitleRun(sections[i..], j, level)
    decreases |sections| - i - j
  {
    if i + j < |sections| {
      assert sections[i..][j] == sections[i + j];
      TitleRunShift(sections, i, j + 1, level);
    }
  }

  lemma {:induction false} ShowsConcat(tok: Tokenizer, x: seq<Part>, y: seq<Part>, xv: seq<Item>, yv: seq<Item>)
    requires Shows(tok, x, xv) && Shows(tok, y, yv)
    ensures Shows(tok, x + y, xv + yv)
  {
  }

  /** The items of groups `i..j`, a run of title-only groups not above the first. */
  method CollectTitles(tok: Tokenizer, groups: seq<Group>, i: nat, parts: seq<Part>, ghost sections: seq<Section>)
    returns (items: seq<Part>, j: nat)
    requires i < |groups| && Fresh(groups, parts) && ShowsAll(tok, groups, sections) && PureTitle(sections[i])
    ensures i < j <= |groups| && j == TitleRun(sections, i + 1, sections[i].level)
    ensures Shows(tok, items, AllItems(sections[i..j]))
    ensures forall p <- items :: p in parts
  {
    assert groups[i].Is(tok, sections[i]);
    items := groups[i].items;
    j := i + 1;
    AllItemsOne(sections[i]);
    assert sections[i..j] == [sections[i]];
    while j < |groups|
      invariant i < j <= |groups|
      invariant TitleRun(sections, j, sections[i].level) == TitleRun(sections, i + 1, sections[i].level)
      invariant Shows(tok, items, AllItems(sections[i..j]))
      invariant forall p <- items :: p in parts
    {
      assert groups[j].Is(tok, sections[j]);
      var pure := IsPureTitleGroup(groups[j]);
      if !pure || groups[j].level < groups[i].level {
        break;
      }
      AllItemsSnoc(sections, i, j);
      ShowsConcat(tok, items, groups[j].items, AllItems(sections[i..j]), sections[j].items);
      items := items + groups[j].items;
      j := j + 1;
    }
  }

  lemma {:induction false} AllItemsSnoc(sections: seq<Section>, i: nat, j: nat)
    requires i <= j < |sections|
    ensures AllItems(sections[i..j + 1]) == AllItems(sections[i..j]) + sections[j].items
  {
    assert sections[i..j + 1] == sections[i..j] + [sections[j]];
    AllItemsAppend(sections[i..j], [sections[j]]);
    AllItemsOne(sections[j]);
  }

  lemma {:induction false} MergeEndAt(sections: seq<Section>, i: nat)
    requires i < |sections|
    ensures var level := sections[i].level;
      var j := TitleRun(sections, i + 1, level);
      i + MergeEnd(sections[i..])
      == if j < |sections| && !PureTitle(sections[j]) && (sections[j].level == 0 || sections[j].level >= level) then j + 1
         else j
  {
    TitleRunShift(sections, i, 1, sections[i].level);
    assert sections[i..][0] == sections[i];
    var k := TitleRun(sections[i..], 1, sections[i].level);
    assert k < |sections[i..]| ==> sections[i..][k] == sections[i + k];
  }

  /** Merges title-only group `i` with what it may be merged with. */
  method MergeTitleGroup(tok: Tokenizer, groups: seq<Group>, i: nat, parts: seq<Part>, ghost sections: seq<Section>)
    returns (merged: Group, j: nat)
    requires i < |groups| && Fresh(groups, parts) && ShowsAll(tok, groups, sections) && PureTitle(sections[i])
    ensures j == i + MergeEnd(sections[i..]) && j <= |groups|
    ensures fresh(merged) && merged.tokens.None?
    ensures forall p <- merged.items :: p in parts
    ensures merged.Is(tok, sections[i].(items := AllItems(sections[i..j])))
  {
    var items;
    assert groups[i].Is(tok, sections[i]);
    items, j := CollectTitles(tok, groups, i, parts, sections);
    MergeEndAt(sections, i);
    items, j := AddContentGroup(tok, groups, i, items, j, parts, sections);
    merged := new Group(groups[i].level, groups[i].title, items);
  }

  /** After the run of title-only groups `i..k`: one more group with content, if it is not above. */
  method AddContentGroup(tok: Tokenizer, groups: seq<Group>, i: nat, items: seq<Part>, k: nat, parts: seq<Part>,
                         ghost sections: seq<Section>)
    returns (more: seq<Part>, j: nat)
    requires i < k <= |groups| && Fresh(groups, parts) && ShowsAll(tok, groups, sections)
    requires Shows(tok, items, AllItems(sections[i..k])) && forall p <- items :: p in parts
    ensures var level := sections[i].level;
      j == if k < |sections| && !PureTitle(sections[k]) && (sections[k].level == 0 || sections[k].level >= level)
           then k + 1 else k
    ensures Shows(tok, more, AllItems(sections[i..j])) && forall p <- more :: p in parts
  {
    more, j := items, k;
    assert groups[i].Is(tok, sections[i]);
    if k < |groups| {
      assert groups[k].Is(tok, sections[k]);
      var pure := IsPureTitleGroup(groups[k]);
      if !pure {
        if groups[k].level == 0 || groups[k].level >= groups[i].level {
          AllItemsSnoc(sections, i, k);
          ShowsConcat(tok, items, groups[k].items, AllItems(sections[i..k]), sections[k].items);
          more := items + groups[k].items;
          j := k + 1;
        }
      }
    }
  }

  /** The end of what is merged from section `i` on, and the merged section. */
  function MergeOne(sections: seq<Section>, i: nat): (r: (nat, Section))
    requires i < |sections|
    ensures i < r.0 <= |sections|
  {
    if PureTitle(sections[i]) then
      var j := i + MergeEnd(sections[i..]);
      (j, sections[i].(items := AllItems(sections[i..j])))
    else (i + 1, sections[i])
  }

  lemma {:induction false} SuffixSlices<T>(s: seq<T>, i: nat, k: nat)
    requires i + k <= |s|
    ensures s[i..][..k] == s[i..i + k] && s[i..][k..] == s[i + k..]
  {
  }

  lemma {:induction false} MergeUnfolds(sections: seq<Section>, i: nat)
    requires i < |sections|
    ensures MergeTitles(sections[i..]) == [MergeOne(sections, i).1] + MergeTitles(sections[MergeOne(sections, i).0..])
  {
    var next := MergeOne(sections, i);
    SuffixSlices(sections, i, next.0 - i);
    MergeFirst(sections[i..], next.0 - i, next.1);
  }

  /** One turn of the loop moves the first merged section from what is left to what is done. */
  lemma {:induction false} MergeTurn(sections: seq<Section>, i: nat, done: seq<Section>)
    requires i < |sections|
    ensures var next := MergeOne(sections, i);
      done + MergeTitles(sections[i..]) == done + [next.1] + MergeTitles(sections[next.0..])
  {
    MergeUnfolds(sections, i);
    var next := MergeOne(sections, i);
    Reassociate(done, next.1, MergeTitles(sections[next.0..]));
  }

  lemma {:induction false} MergeFirst(sections: seq<Section>, k: nat, first: Section)
    requires sections != [] && k == if PureTitle(sections[0]) then MergeEnd(sections) else 1
    requires first == if PureTitle(sections[0]) then sections[0].(items := AllItems(sections[..k])) else sections[0]
    ensures MergeTitles(sections) == [first] + MergeTitles(sections[k..])
  {
  }

  lemma {:induction false} AppendShown(tok: Tokenizer, groups: seq<Group>, parts: seq<Part>,
      sections: seq<Section>, group: Group, section: Section)
    requires Fresh(groups, parts) && ShowsAll(tok, groups, sections)
    requires group !in groups && group.tokens.None? && (forall p <- group.items :: p in parts)
    requires group.Is(tok, section)
    ensures Fresh(groups + [group], parts) && ShowsAll(tok, groups + [group], sections + [section])
  {
  }

  /** What the loop makes of the groups from `i` on. */
  method NextMerged(tok: Tokenizer, groups: seq<Group>, i: nat, parts: seq<Part>, ghost sections: seq<Section>)
    returns (group: Group, j: nat)
    requires i < |groups| && Fresh(groups, parts) && ShowsAll(tok, groups, sections)
    ensures j == MergeOne(sections, i).0
    ensures group == groups[i] || fresh(group)
    ensures group.tokens.None? && group.Is(tok, MergeOne(sections, i).1)
    ensures forall p <- group.items :: p in parts
  {
    assert groups[i].Is(tok, sections[i]);
    var pure := IsPureTitleGroup(groups[i]);
    if pure {
      group, j := MergeTitleGroup(tok, groups, i, parts, sections);
    } else {
      group, j := groups[i], i + 1;
    }
  }

  ghost predicate Unused(groups: seq<Group>, i: nat, merged: seq<Group>) {
    forall k | i <= k < |groups| :: groups[k] !in merged
  }

  /** One turn of the loop. */
  method MergeNext(tok: Tokenizer, groups: seq<Group>, i: nat, parts: seq<Part>, ghost sections: seq<Section>,
                   merged: seq<Group>, ghost done: seq<Section>)
    returns (longer: seq<Group>, j: nat)
    requires i < |groups| && Fresh(groups, parts) && ShowsAll(tok, groups, sections)
    requires Fresh(merged, parts) && ShowsAll(tok, merged, done) && Unused(groups, i, merged)
    ensures j == MergeOne(sections, i).0
    ensures Fresh(longer, parts) && ShowsAll(tok, longer, done + [MergeOne(sections, i).1]) && Unused(groups, j, longer)
    ensures forall g <- longer :: g in merged || g in groups || fresh(g)
  {
    var group;
    group, j := NextMerged(tok, groups, i, parts, sections);
    AppendShown(tok, merged, parts, done, group, MergeOne(sections, i).1);
    longer := merged + [group];
  }

  method MergeConsecutiveTitleGroups(tok: Tokenizer, groups: seq<Group>, parts: seq<Part>, ghost sections: seq<Section>)
    returns (merged: seq<Group>)
    requires Fresh(groups, parts) && ShowsAll(tok, groups, sections)
    ensures Fresh(merged, parts) && ShowsAll(tok, merged, MergeTitles(sections))
    ensures forall g <- merged :: g in groups || fresh(g)
  {
    merged := [];
    var i := 0;
    ghost var done := [];
    assert sections[0..] == sections;
    while i < |groups|
      invariant i <= |groups|
      invariant Fresh(merged, parts) && ShowsAll(tok, merged, done) && Unused(groups, i, merged)
      invariant forall g <- merged :: g in groups || fresh(g)
      invariant done + MergeTitles(sections[i..]) == MergeTitles(sections)
    {
      MergeTurn(sections, i, done);
      ghost var next := MergeOne(sections, i);
      merged, i := MergeNext(tok, groups, i, parts, sections, merged, done);
      done := done + [next.1];
    }
    assert sections[|groups|..] == [];
  }

  // ------------------------------------------------------------------
  // Counting tokens
  // ------------------------------------------------------------------

  /** Counts the tokens of a part and caches the count in its metadata. */
  method CountPartTokens(tok: Tokenizer, part: Part) returns (tokens: nat)
    requires part.Counted(tok)
    modifies part`meta
    ensures tokens == tok(part.content)
    ensures part.meta == old(part.meta).(tokens := Some(tokens))
  {
    if part.meta.tokens.Some? {
      return part.meta.tokens.value;
    }
    tokens := tok(part.content);
    part.meta := part.meta.(tokens := Some(tokens));
  }

  /** Counting only fills caches: the parts keep their values. */
  method CountGroupTokens(cfg: Config, group: Group, ghost section: Section) returns (tokens: nat)
    requires group.Is(cfg.tok, section)
    requires group.tokens.Some? ==> group.tokens.value == ItemTokens(cfg, section.items)
    modifies group`tokens, (set p <- group.items)`meta
    ensures tokens == ItemTokens(cfg, section.items)
    ensures forall p <- group.items :: p.View() == old(p.View()) && p.Counted(cfg.tok)
  {
    if group.tokens.Some? {
      return group.tokens.value;
    }
    var total := 0;
    var items := group.items;
    for i := 0 to |items|
      invariant group.items == items && group.tokens.None?
      invariant Shows(cfg.tok, items, section.items)
      invariant total == ItemTokens(cfg, section.items[..i])
    {
      assert items[i].View() == section.items[i];
      var num := CountPartTokens(cfg.tok, items[i]);
      total := total + num;
      assert section.items[..i + 1] == section.items[..i] + [section.items[i]];
      ItemTokensAppend(cfg, section.items[..i], [section.items[i]]);
      ItemTokensOne(cfg, section.items[i]);
    }
    assert section.items[..|items|] == section.items;
    group.tokens := Some(total);
    return total;
  }

  // ------------------------------------------------------------------
  // Appending to an output part
  // ------------------------------------------------------------------

  /** `dest` is the output part for `chunk`. */
  ghost predicate Holds(tok: Tokenizer, dest: Part, chunk: Chunk)
    reads dest
  {
    chunk.pieces != [] && dest.View() == ChunkItem(chunk) && dest.Counted(tok)
  }

  ghost predicate HoldsLast(tok: Tokenizer, dest: Part?, last: Option<Chunk>)
    reads dest
  {
    if dest == null then last.None? else last.Some? && Holds(tok, dest, last.value)
  }

  function Extended(dest: Item, piece: Item): Item {
    dest.(content := dest.content + "\n\n" + piece.content,
          meta := dest.meta.(sourceMap := Hull(dest.meta.sourceMap, piece.meta.sourceMap), tokens := None))
  }

  lemma {:induction false} ChunkGrows(chunk: Chunk, piece: Item)
    requires chunk.pieces != []
    ensures ChunkItem(chunk.(pieces := chunk.pieces + [piece])) == Extended(ChunkItem(chunk), piece)
  {
    assert (chunk.pieces + [piece])[..|chunk.pieces|] == chunk.pieces;
  }

  lemma {:induction false} ChunkStarts(piece: Item, titles: seq<string>)
    ensures ChunkItem(Chunk([piece], titles))
         == Item(piece.content, None,
                 piece.meta.(titles := if titles != [] then Some(titles) else piece.meta.titles, tokens := None))
  {
    assert [piece][..0] == [];
    assert HullOf([piece]) == piece.meta.sourceMap;
  }

  method MergeSourceMap(dest: Part, src: Part)
    requires dest != src
    modifies dest`meta
    ensures dest.meta == old(dest.meta).(sourceMap := Hull(old(dest.meta.sourceMap), src.meta.sourceMap))
  {
    var destMap, srcMap := dest.meta.sourceMap, src.meta.sourceMap;
    if srcMap.None? {
      return;
    }
    if destMap.None? {
      dest.meta := dest.meta.(sourceMap := srcMap);
      return;
    }
    var low := if srcMap.value.0 < destMap.value.0 then srcMap.value.0 else destMap.value.0;
    var high := if srcMap.value.1 > destMap.value.1 then srcMap.value.1 else destMap.value.1;
    dest.meta := dest.meta.(sourceMap := Some((low, high)));
  }

  method AppendPartToPart(tok: Tokenizer, part: Part, dest: Part?, titles: seq<string>, ghost last: Option<Chunk>)
    returns (result: Part)
    requires part.Counted(tok) && dest != part && HoldsLast(tok, dest, last)
    modifies if dest == null then {} else {dest}
    ensures Holds(tok, result, Append(part.View(), last, titles))
    ensures if dest == null then fresh(result) else result == dest
  {
    if dest == null {
      var metadata := part.meta;
      if titles != [] {
        metadata := metadata.(titles := Some(titles));
      }
      ChunkStarts(part.View(), titles);
      result := new Part(part.content, None, metadata);
      return;
    }
    ChunkGrows(last.value, part.View());
    dest.content := dest.content + "\n\n" + part.content;
    MergeSourceMap(dest, part);
    dest.meta := dest.meta.(tokens := None);
    return dest;
  }

  method AppendGroupToPart(tok: Tokenizer, items: seq<Part>, dest: Part?, titles: seq<string>,
                           ghost values: seq<Item>, ghost last: Option<Chunk>)
    returns (result: Part?)
    requires Shows(tok, items, values) && dest !in items && HoldsLast(tok, dest, last)
    modifies if dest == null then {} else {dest}
    ensures HoldsLast(tok, result, AppendAll(values, last, titles))
    ensures result == dest || (dest == null && fresh(result))
  {
    result := dest;
    ghost var current := last;
    assert values[0..] == values;
    for i := 0 to |items|
      invariant Shows(tok, items, values) && result !in items
      invariant HoldsLast(tok, result, current)
      invariant result == dest || (dest == null && result != null && fresh(result))
      invariant AppendAll(values[i..], current, titles) == AppendAll(values, last, titles)
    {
      assert values[i..][0] == values[i] && values[i..][1..] == values[i + 1..];
      assert items[i].View() == values[i];
      var next := AppendPartToPart(tok, items[i], result, titles, current);
      result := next;
      current := Some(Append(values[i], current, titles));
    }
  }

  // ------------------------------------------------------------------
  // Splitting and packing one group
  // ------------------------------------------------------------------

  method SplitPart(cfg: Config, part: Part) returns (parts: seq<Part>)
    requires part.Counted(cfg.tok)
    modifies part`meta
    ensures part.View() == old(part.View()) && part.Counted(cfg.tok)
    ensures Shows(cfg.tok, parts, Expand(cfg, part.View()))
    ensures forall p <- parts :: p == part || fresh(p)
  {
    var tokens := CountPartTokens(cfg.tok, part);
    if tokens <= cfg.size {
      return [part];
    }
    var chunks := Splitter.RecursiveSplit(cfg, part.content, 0);
    var metadata := part.meta.(tokens := None, splitted := true);
    parts := [];
    for i := 0 to |chunks|
      invariant part.View() == old(part.View()) && part.Counted(cfg.tok) && metadata == part.meta.(tokens := None, splitted := true)
      invariant |parts| == i && forall k | 0 <= k < i ::
        fresh(parts[k]) && parts[k].View() == Item(chunks[k], None, metadata) && parts[k].Counted(cfg.tok)
    {
      var chunk := new Part(chunks[i], None, metadata);
      parts := parts + [chunk];
    }
  }

  lemma {:induction false} ExpandAllStep(cfg: Config, items: seq<Item>, i: nat)
    requires i < |items|
    ensures ExpandAll(cfg, items[..i + 1]) == ExpandAll(cfg, items[..i]) + Expand(cfg, items[i])
  {
    PrefixGrows(items, i);
    ExpandAllAppend(cfg, items[..i], [items[i]]);
    assert [items[i]][1..] == [] && Expand(cfg, items[i]) + [] == Expand(cfg, items[i]);
  }

  method SplitLargeParts(cfg: Config, items: seq<Part>, ghost values: seq<Item>) returns (parts: seq<Part>)
    requires Shows(cfg.tok, items, values)
    modifies (set p <- items)`meta
    ensures Shows(cfg.tok, items, values) && Shows(cfg.tok, parts, ExpandAll(cfg, values))
    ensures forall p <- parts :: p in items || fresh(p)
  {
    parts := [];
    for i := 0 to |items|
      invariant Shows(cfg.tok, items, values) && Shows(cfg.tok, parts, ExpandAll(cfg, values[..i]))
      invariant forall p <- parts :: p in items || fresh(p)
    {
      assert items[i].View() == values[i];
      var more := SplitPart(cfg, items[i]);
      ExpandAllStep(cfg, values, i);
      ShowsConcat(cfg.tok, parts, more, ExpandAll(cfg, values[..i]), Expand(cfg, values[i]));
      parts := parts + more;
    }
    assert values[..|items|] == values;
  }

  /** The output parts for `chunks`: distinct new objects. */
  ghost predicate HoldsAll(tok: Tokenizer, parts: seq<Part>, chunks: seq<Chunk>)
    reads parts
  {
    && |parts| == |chunks|
    && (forall i | 0 <= i < |parts| :: Holds(tok, parts[i], chunks[i]))
  }

  lemma {:induction false} HoldsSnoc(tok: Tokenizer, parts: seq<Part>, chunks: seq<Chunk>, last: Part, chunk: Chunk)
    requires HoldsAll(tok, parts, chunks) && Holds(tok, last, chunk)
    ensures HoldsAll(tok, parts + [last], chunks + [chunk])
  {
  }

  /** The variables of the packing loop: sealed chunks, open chunk, its tokens, the split flag. */
  datatype Open = Open(done: seq<Chunk>, last: Option<Chunk>, sum: nat, previousSplitted: bool)

  function Turn(cfg: Config, open: Open, piece: Item, titles: seq<string>): Open {
    var seal := MustSeal(cfg, piece, open.sum, open.previousSplitted) && open.last.Some?;
    Open(if seal then open.done + [open.last.value] else open.done,
         Some(Append(piece, if seal then None else open.last, titles)),
         (if seal then 0 else open.sum) + cfg.tok(piece.content),
         piece.meta.splitted)
  }

  function Rest(cfg: Config, open: Open, pieces: seq<Item>, titles: seq<string>): seq<Chunk> {
    open.done + Pack(cfg, pieces, titles, open.last, open.sum, open.previousSplitted)
  }

  lemma {:induction false} TurnKeepsRest(cfg: Config, open: Open, pieces: seq<Item>, i: nat, titles: seq<string>)
    requires i < |pieces|
    ensures Rest(cfg, open, pieces[i..], titles) == Rest(cfg, Turn(cfg, open, pieces[i], titles), pieces[i + 1..], titles)
  {
    PackUnfolds(cfg, pieces, i, titles, open.last, open.sum, open.previousSplitted);
    var next := Turn(cfg, open, pieces[i], titles);
    if next.done != open.done {
      Reassociate(open.done, open.last.value, Pack(cfg, pieces[i + 1..], titles, next.last, next.sum, next.previousSplitted));
    }
  }

  function Turns(cfg: Config, pieces: seq<Item>, titles: seq<string>): Open {
    if pieces == [] then Open([], None, 0, false)
    else Turn(cfg, Turns(cfg, pieces[..|pieces| - 1], titles), pieces[|pieces| - 1], titles)
  }

  lemma {:induction false} TurnsStep(cfg: Config, pieces: seq<Item>, i: nat, titles: seq<string>)
    requires i < |pieces|
    ensures Turns(cfg, pieces[..i + 1], titles) == Turn(cfg, Turns(cfg, pieces[..i], titles), pieces[i], titles)
  {
    PrefixGrows(pieces, i);
  }

  lemma {:induction false} StartRest(cfg: Config, pieces: seq<Item>, titles: seq<string>)
    ensures Rest(cfg, Turns(cfg, pieces[..0], titles), pieces[0..], titles) == Pack(cfg, pieces, titles, None, 0, false)
  {
    assert pieces[0..] == pieces;
  }

  lemma {:induction false} NextRest(cfg: Config, pieces: seq<Item>, i: nat, titles: seq<string>)
    requires i < |pieces|
    ensures Rest(cfg, Turns(cfg, pieces[..i + 1], titles), pieces[i + 1..], titles)
         == Rest(cfg, Turns(cfg, pieces[..i], titles), pieces[i..], titles)
  {
    TurnsStep(cfg, pieces, i, titles);
    TurnKeepsRest(cfg, Turns(cfg, pieces[..i], titles), pieces, i, titles);
  }

  lemma {:induction false} TurnsKeepRest(cfg: Config, pieces: seq<Item>, i: nat, titles: seq<string>)
    requires i <= |pieces|
    ensures Rest(cfg, Turns(cfg, pieces[..i], titles), pieces[i..], titles) == Pack(cfg, pieces, titles, None, 0, false)
  {
    if i == 0 {
      StartRest(cfg, pieces, titles);
    } else {
      TurnsKeepRest(cfg, pieces, i - 1, titles);
      NextRest(cfg, pieces, i - 1, titles);
    }
  }

  lemma {:induction false} TurnsPack(cfg: Config, pieces: seq<Item>, titles: seq<string>)
    ensures var open := Turns(cfg, pieces, titles);
      open.done + Sealed(open.last) == Pack(cfg, pieces, titles, None, 0, false)
  {
    TurnsKeepRest(cfg, pieces, |pieces|, titles);
    assert pieces[..|pieces|] == pieces && pieces[|pieces|..] == [];
  }

  /** The output parts so far and the one still open, all new objects. */
  ghost predicate Output(tok: Tokenizer, chunks: seq<Part>, last: Part?, done: seq<Chunk>, open: Option<Chunk>)
    reads chunks, last
  {
    HoldsAll(tok, chunks, done) && HoldsLast(tok, last, open) && last !in chunks
  }

  method PackPart(cfg: Config, part: Part, titles: seq<string>, chunks: seq<Part>, last: Part?,
                  sum: nat, previousSplitted: bool, ghost open: Open)
    returns (chunks': seq<Part>, last': Part, sum': nat, previousSplitted': bool)
    requires part.Counted(cfg.tok) && part !in chunks && part != last
    requires Output(cfg.tok, chunks, last, open.done, open.last)
    requires sum == open.sum && previousSplitted == open.previousSplitted
    modifies part`meta, if last == null then {} else {last}
    ensures part.View() == old(part.View()) && part.Counted(cfg.tok)
    ensures var next := Turn(cfg, open, part.View(), titles);
      && Output(cfg.tok, chunks', last', next.done, next.last)
      && sum' == next.sum && previousSplitted' == next.previousSplitted
    ensures chunks' == chunks || (last != null && chunks' == chunks + [last])
    ensures last' == last || fresh(last')
  {
    previousSplitted' := part.meta.splitted;
    ghost var piece := part.View();
    TurnUnsealed(cfg, open, piece, titles);
    var tokens, current;
    tokens, chunks', current, sum' := CountAndSeal(cfg, part, chunks, last, sum, previousSplitted, open);
    last' := AppendPiece(cfg, part, titles, chunks', current, Unsealed(cfg, open, piece));
    sum' := sum' + tokens;
  }

  lemma {:induction false} TurnUnsealed(cfg: Config, open: Open, piece: Item, titles: seq<string>)
    ensures var next := Unsealed(cfg, open, piece);
      Turn(cfg, open, piece, titles)
      == Open(next.done, Some(Append(piece, next.last, titles)), next.sum + cfg.tok(piece.content), piece.meta.splitted)
  {
  }

  /** Counts the part and seals the open output part if that has to be done first. */
  method CountAndSeal(cfg: Config, part: Part, chunks: seq<Part>, last: Part?,
                      sum: nat, previousSplitted: bool, ghost open: Open)
    returns (tokens: nat, chunks': seq<Part>, current: Part?, sum': nat)
    requires part.Counted(cfg.tok) && part !in chunks && part != last
    requires Output(cfg.tok, chunks, last, open.done, open.last)
    requires sum == open.sum && previousSplitted == open.previousSplitted
    modifies part`meta
    ensures tokens == cfg.tok(part.content)
    ensures part.View() == old(part.View()) && part.Counted(cfg.tok)
    ensures var next := Unsealed(cfg, open, part.View());
      Output(cfg.tok, chunks', current, next.done, next.last) && sum' == next.sum
    ensures (chunks' == chunks && current == last) || (last != null && current == null && chunks' == chunks + [last])
  {
    tokens := CountPiece(cfg, part, chunks, last, open);
    chunks', current, sum' :=
      SealWhenFull(cfg, tokens, part.meta.splitted, chunks, last, sum, previousSplitted, part.View(), open);
  }

  /** Counting a part leaves the output parts alone. */
  method CountPiece(cfg: Config, part: Part, chunks: seq<Part>, last: Part?, ghost open: Open) returns (tokens: nat)
    requires part.Counted(cfg.tok) && part !in chunks && part != last
    requires Output(cfg.tok, chunks, last, open.done, open.last)
    modifies part`meta
    ensures tokens == cfg.tok(part.content)
    ensures part.View() == old(part.View()) && part.Counted(cfg.tok)
    ensures Output(cfg.tok, chunks, last, open.done, open.last)
  {
    tokens := CountPartTokens(cfg.tok, part);
  }

  /** Appends a part to the open output part, or opens one; the sealed ones stay. */
  method AppendPiece(cfg: Config, part: Part, titles: seq<string>, chunks: seq<Part>, current: Part?, ghost open: Open)
    returns (last: Part)
    requires part.Counted(cfg.tok) && part !in chunks && part != current
    requires Output(cfg.tok, chunks, current, open.done, open.last)
    modifies if current == null then {} else {current}
    ensures part.View() == old(part.View()) && part.Counted(cfg.tok)
    ensures Output(cfg.tok, chunks, last, open.done, Some(Append(part.View(), open.last, titles)))
    ensures if current == null then fresh(last) else last == current
  {
    last := AppendPartToPart(cfg.tok, part, current, titles, open.last);
  }

  /** The variables after sealing, if that has to be done before `piece`. */
  function Unsealed(cfg: Config, open: Open, piece: Item): Open {
    if MustSeal(cfg, piece, open.sum, open.previousSplitted) && open.last.Some? then
      Open(open.done + [open.last.value], None, 0, open.previousSplitted)
    else open
  }

  method SealWhenFull(cfg: Config, tokens: nat, splitted: bool, chunks: seq<Part>, last: Part?,
                      sum: nat, previousSplitted: bool, ghost piece: Item, ghost open: Open)
    returns (chunks': seq<Part>, current: Part?, sum': nat)
    requires Output(cfg.tok, chunks, last, open.done, open.last)
    requires sum == open.sum && previousSplitted == open.previousSplitted
    requires tokens == cfg.tok(piece.content) && splitted == piece.meta.splitted
    ensures var next := Unsealed(cfg, open, piece);
      Output(cfg.tok, chunks', current, next.done, next.last) && sum' == next.sum
    ensures (chunks' == chunks && current == last) || (last != null && current == null && chunks' == chunks + [last])
  {
    chunks', current, sum' := chunks, last, sum;
    if sum + tokens > cfg.size || (previousSplitted && !splitted) {
      if last != null {
        HoldsSnoc(cfg.tok, chunks, open.done, last, open.last.value);
        chunks' := chunks + [last];
        current, sum' := null, 0;
      }
    }
  }

  /** The turn for part `i`; the input parts keep their values. */
  method PackNext(cfg: Config, parts: seq<Part>, i: nat, titles: seq<string>, chunks: seq<Part>, last: Part?,
                  sum: nat, previousSplitted: bool, ghost values: seq<Item>)
    returns (chunks': seq<Part>, last': Part, sum': nat, previousSplitted': bool)
    requires i < |parts| == |values| && Shows(cfg.tok, parts, values) && forall p <- parts :: p !in chunks && p != last
    requires var open := Turns(cfg, values[..i], titles);
      Output(cfg.tok, chunks, last, open.done, open.last) && sum == open.sum && previousSplitted == open.previousSplitted
    modifies (set p <- parts)`meta, if last == null then {} else {last}
    ensures Shows(cfg.tok, parts, values)
    ensures var next := Turns(cfg, values[..i + 1], titles);
      && Output(cfg.tok, chunks', last', next.done, next.last)
      && sum' == next.sum && previousSplitted' == next.previousSplitted
    ensures chunks' == chunks || (last != null && chunks' == chunks + [last])
    ensures last' == last || fresh(last')
  {
    TurnsStep(cfg, values, i, titles);
    assert parts[i].View() == values[i] && parts[i] in parts;
    chunks', last', sum', previousSplitted' :=
      PackPart(cfg, parts[i], titles, chunks, last, sum, previousSplitted, Turns(cfg, values[..i], titles));
  }

  method SealLast(tok: Tokenizer, chunks: seq<Part>, last: Part?, ghost done: seq<Chunk>, ghost open: Option<Chunk>)
    returns (result: seq<Part>)
    requires Output(tok, chunks, last, done, open)
    ensures HoldsAll(tok, result, done + Sealed(open))
    ensures result == if last == null then chunks else chunks + [last]
  {
    result := chunks;
    if last != null {
      HoldsSnoc(tok, chunks, done, last, open.value);
      result := chunks + [last];
    } else {
      assert done + [] == done;
    }
  }

  /** The packing loop. */
  method RunPacking(cfg: Config, parts: seq<Part>, titles: seq<string>, ghost values: seq<Item>)
    returns (chunks: seq<Part>, last: Part?)
    requires Shows(cfg.tok, parts, values)
    modifies (set p <- parts)`meta
    ensures Shows(cfg.tok, parts, values)
    ensures fresh(chunks) && (last != null ==> fresh(last))
    ensures Output(cfg.tok, chunks, last, Turns(cfg, values, titles).done, Turns(cfg, values, titles).last)
  {
    chunks, last := [], null;
    var sum: nat, previousSplitted := 0, false;
    for i := 0 to |parts|
      invariant Shows(cfg.tok, parts, values)
      invariant fresh(chunks) && (last != null ==> fresh(last))
      invariant var open := Turns(cfg, values[..i], titles);
        && Output(cfg.tok, chunks, last, open.done, open.last)
        && sum == open.sum && previousSplitted == open.previousSplitted
    {
      chunks, last, sum, previousSplitted :=
        PackNext(cfg, parts, i, titles, chunks, last, sum, previousSplitted, values);
    }
    assert values[..|parts|] == values;
  }

  /** Packs the parts of one group into output parts of their own. */
  method PackParts(cfg: Config, parts: seq<Part>, titles: seq<string>, ghost values: seq<Item>)
    returns (chunks: seq<Part>)
    requires Shows(cfg.tok, parts, values)
    modifies (set p <- parts)`meta
    ensures forall p <- parts :: p.View() == old(p.View()) && p.Counted(cfg.tok)
    ensures fresh(chunks) && HoldsAll(cfg.tok, chunks, Pack(cfg, values, titles, None, 0, false))
  {
    var last;
    chunks, last := RunPacking(cfg, parts, titles, values);
    TurnsPack(cfg, values, titles);
    ghost var open := Turns(cfg, values, titles);
    chunks := SealLast(cfg.tok, chunks, last, open.done, open.last);
  }

  // ------------------------------------------------------------------
  // The main loop
  // ------------------------------------------------------------------

  /** The groups from `i` on are still to be counted. */
  ghost predicate Uncounted(groups: seq<Group>, i: nat)
    reads groups
  {
    && (forall j, k | 0 <= j < k < |groups| :: groups[j] != groups[k])
    && (forall k | i <= k < |groups| :: groups[k].tokens.None?)
  }

  /** All items of the groups are among the input parts. */
  ghost predicate Pooled(groups: seq<Group>, pool: set<Part>)
    reads groups
  {
    forall i | 0 <= i < |groups| :: forall p <- groups[i].items :: p in pool
  }

  method CountTokensAt(cfg: Config, groups: seq<Group>, i: nat, ghost sections: seq<Section>, ghost pool: set<Part>)
    returns (tokens: nat)
    requires i < |groups| && ShowsAll(cfg.tok, groups, sections) && Uncounted(groups, i) && Pooled(groups, pool)
    modifies (set g <- groups)`tokens, pool`meta
    ensures tokens == ItemTokens(cfg, sections[i].items)
    ensures ShowsAll(cfg.tok, groups, sections) && Uncounted(groups, i + 1) && Pooled(groups, pool)
  {
    assert groups[i].Is(cfg.tok, sections[i]);
    tokens := CountGroupTokens(cfg, groups[i], sections[i]);
    forall k | 0 <= k < |groups| ensures groups[k].Is(cfg.tok, sections[k]) {
      assert old(groups[k].Is(cfg.tok, sections[k]));
    }
  }

  method EnterHeading(stack: seq<Heading>, level: nat, title: string) returns (entered: seq<Heading>, titles: seq<string>)
    ensures entered == Enter(stack, level, title)
    ensures titles == Names(entered) && TitlesOn(titles, entered)
  {
    entered := stack;
    while |entered| > 0 && entered[|entered| - 1].1 >= level
      invariant PopTo(entered, level) == PopTo(stack, level)
    {
      entered := entered[..|entered| - 1];
    }
    if level > 0 {
      entered := entered + [(title, level)];
    }
    titles := Names(entered);
    NamesAreTitles(entered);
  }

  /** The tokens of the open output part, 0 when there is none. */
  method CountLastTokens(cfg: Config, chunks: seq<Part>, last: Part?, ghost st: State) returns (tokens: nat)
    requires Output(cfg.tok, chunks, last, st.done, st.last)
    modifies if last == null then {} else {last}
    ensures tokens == LastTokens(cfg, st.last)
    ensures Output(cfg.tok, chunks, last, st.done, st.last)
  {
    tokens := 0;
    if last != null {
      tokens := CountPartTokens(cfg.tok, last);
    }
  }

  /** No input part is an output part. */
  ghost predicate Apart(pool: set<Part>, chunks: seq<Part>, last: Part?) {
    (forall p <- chunks :: p !in pool) && last !in pool
  }

  /** Merges a whole group into the open output part. */
  method MergeGroup(cfg: Config, groups: seq<Group>, i: nat, titles: seq<string>, chunks: seq<Part>, last: Part?,
                    ghost sections: seq<Section>, ghost pool: set<Part>, ghost st: State)
    returns (last': Part?)
    requires i < |groups| && ShowsAll(cfg.tok, groups, sections) && Pooled(groups, pool) && Apart(pool, chunks, last)
    requires Output(cfg.tok, chunks, last, st.done, st.last)
    modifies if last == null then {} else {last}
    ensures ShowsAll(cfg.tok, groups, sections)
    ensures Output(cfg.tok, chunks, last', st.done, AppendAll(sections[i].items, st.last, titles))
    ensures last' == last || (last == null && fresh(last'))
  {
    assert groups[i].Is(cfg.tok, sections[i]);
    assert forall p <- groups[i].items :: p in pool;
    last' := AppendGroupToPart(cfg.tok, groups[i].items, last, titles, sections[i].items, st.last);
  }

  lemma {:induction false} HoldsConcat(tok: Tokenizer, x: seq<Part>, y: seq<Part>, xc: seq<Chunk>, yc: seq<Chunk>)
    requires HoldsAll(tok, x, xc) && HoldsAll(tok, y, yc)
    ensures HoldsAll(tok, x + y, xc + yc)
  {
  }

  method SplitAndPackItems(cfg: Config, items: seq<Part>, titles: seq<string>, ghost values: seq<Item>)
    returns (packed: seq<Part>)
    requires Shows(cfg.tok, items, values)
    modifies (set p <- items)`meta
    ensures Shows(cfg.tok, items, values)
    ensures fresh(packed) && HoldsAll(cfg.tok, packed, Pack(cfg, ExpandAll(cfg, values), titles, None, 0, false))
  {
    var parts := SplitLargeParts(cfg, items, values);
    packed := PackParts(cfg, parts, titles, ExpandAll(cfg, values));
  }

  method SplitAndPack(cfg: Config, groups: seq<Group>, i: nat, titles: seq<string>, ghost sections: seq<Section>,
      ghost pool: set<Part>)
    returns (packed: seq<Part>)
    requires i < |groups| && ShowsAll(cfg.tok, groups, sections) && Pooled(groups, pool)
    modifies pool`meta
    ensures ShowsAll(cfg.tok, groups, sections)
    ensures fresh(packed)
    ensures HoldsAll(cfg.tok, packed, Pack(cfg, ExpandAll(cfg, sections[i].items), titles, None, 0, false))
  {
    assert groups[i].Is(cfg.tok, sections[i]);
    assert forall p <- groups[i].items :: p in pool;
    packed := SplitAndPackItems(cfg, groups[i].items, titles, sections[i].items);
    forall k | 0 <= k < |groups| ensures groups[k].Is(cfg.tok, sections[k]) {
      assert old(groups[k].Is(cfg.tok, sections[k]));
    }
  }

  /** Seals the open output part and packs a group into output parts of its own. */
  method PackGroup(cfg: Config, groups: seq<Group>, i: nat, titles: seq<string>, chunks: seq<Part>, last: Part?,
                   ghost sections: seq<Section>, ghost pool: set<Part>, ghost st: State)
    returns (chunks': seq<Part>, packedAny: bool)
    requires i < |groups| && ShowsAll(cfg.tok, groups, sections) && Pooled(groups, pool) && Apart(pool, chunks, last)
    requires Output(cfg.tok, chunks, last, st.done, st.last)
    modifies pool`meta
    ensures ShowsAll(cfg.tok, groups, sections)
    ensures var packed := Pack(cfg, ExpandAll(cfg, sections[i].items), titles, None, 0, false);
      HoldsAll(cfg.tok, chunks', st.done + Sealed(st.last) + packed) && packedAny == (packed != [])
    ensures forall p <- chunks' :: p in chunks || p == last || fresh(p)
  {
    var packed := SplitAndPack(cfg, groups, i, titles, sections, pool);
    var sealed := SealLast(cfg.tok, chunks, last, st.done, st.last);
    HoldsConcat(cfg.tok, sealed, packed, st.done + Sealed(st.last),
                Pack(cfg, ExpandAll(cfg, sections[i].items), titles, None, 0, false));
    chunks', packedAny := sealed + packed, packed != [];
  }

  /** The inputs and outputs of the loop before group `i`, in state `st`. */
  ghost predicate Between(cfg: Config, groups: seq<Group>, i: nat, sections: seq<Section>, pool: set<Part>,
                          chunks: seq<Part>, last: Part?, st: State)
    reads groups, pool, chunks, last
  {
    && Pooled(groups, pool) && ShowsAll(cfg.tok, groups, sections) && Uncounted(groups, i) && Apart(pool, chunks, last)
    && Output(cfg.tok, chunks, last, st.done, st.last)
  }

  /** Merges group `i` into the open output part, or seals that part and packs the group. */
  method PlaceGroup(cfg: Config, groups: seq<Group>, i: nat, titles: seq<string>, canMerge: bool,
                    chunks: seq<Part>, last: Part?, highest: Option<nat>,
                    ghost sections: seq<Section>, ghost pool: set<Part>, ghost st: State)
    returns (chunks': seq<Part>, last': Part?, highest': Option<nat>)
    requires i < |groups| && Between(cfg, groups, i + 1, sections, pool, chunks, last, st)
    requires canMerge == CanMerge(cfg, st, sections[i]) && highest == st.highest
    requires titles == Names(Enter(st.stack, sections[i].level, sections[i].title))
    modifies pool`meta, if last == null then {} else {last}
    ensures var next := Step(cfg, st, sections[i]);
      Between(cfg, groups, i + 1, sections, pool, chunks', last', next) && highest' == next.highest
    ensures forall p <- chunks' :: p in chunks || p == last || fresh(p)
    ensures last' == null || last' == last || fresh(last')
  {
    assert groups[i].Is(cfg.tok, sections[i]);
    chunks', last', highest' := chunks, null, highest;
    if canMerge {
      last' := MergeGroup(cfg, groups, i, titles, chunks, last, sections, pool, st);
      if highest.None? {
        highest' := Some(groups[i].level);
      }
    } else {
      var packedAny;
      chunks', packedAny := PackGroup(cfg, groups, i, titles, chunks, last, sections, pool, st);
      if last != null || packedAny {
        highest' := None;
      }
    }
  }

  /** Counts group `i`; the output parts stay as they are. */
  method CountNext(cfg: Config, groups: seq<Group>, i: nat, chunks: seq<Part>, last: Part?,
                   ghost sections: seq<Section>, ghost pool: set<Part>, ghost st: State)
    returns (tokens: nat)
    requires i < |groups| && Between(cfg, groups, i, sections, pool, chunks, last, st)
    modifies (set g <- groups)`tokens, pool`meta
    ensures Between(cfg, groups, i + 1, sections, pool, chunks, last, st)
    ensures tokens == ItemTokens(cfg, sections[i].items)
  {
    tokens := CountTokensAt(cfg, groups, i, sections, pool);
  }

  /** Whether group `i` can be merged into the open output part; counts the tokens of both. */
  method MayMerge(cfg: Config, groups: seq<Group>, i: nat, chunks: seq<Part>, last: Part?, highest: Option<nat>,
                  ghost sections: seq<Section>, ghost pool: set<Part>, ghost st: State)
    returns (canMerge: bool)
    requires i < |groups| && Between(cfg, groups, i, sections, pool, chunks, last, st) && highest == st.highest
    modifies (set g <- groups)`tokens, pool`meta, if last == null then {} else {last}
    ensures Between(cfg, groups, i + 1, sections, pool, chunks, last, st)
    ensures canMerge == CanMerge(cfg, st, sections[i])
  {
    assert groups[i].Is(cfg.tok, sections[i]);
    var groupTokens := CountNext(cfg, groups, i, chunks, last, sections, pool, st);
    var lastTokens := CountLastTokens(cfg, chunks, last, st);
    canMerge := true;
    if highest.Some? && highest.value > groups[i].level {
      canMerge := false;
    }
    if lastTokens + groupTokens > cfg.size {
      canMerge := false;
    }
  }

  /** One turn of the loop of `_rechunk`. */
  method RechunkGroup(cfg: Config, groups: seq<Group>, i: nat, stack: seq<Heading>, chunks: seq<Part>, last: Part?,
                      highest: Option<nat>, ghost sections: seq<Section>, ghost pool: set<Part>, ghost st: State)
    returns (stack': seq<Heading>, chunks': seq<Part>, last': Part?, highest': Option<nat>)
    requires i < |groups| && Between(cfg, groups, i, sections, pool, chunks, last, st)
    requires stack == st.stack && highest == st.highest
    modifies (set g <- groups)`tokens, pool`meta, if last == null then {} else {last}
    ensures var next := Step(cfg, st, sections[i]);
      Between(cfg, groups, i + 1, sections, pool, chunks', last', next) && stack' == next.stack && highest' == next.highest
    ensures forall p <- chunks' :: p in chunks || p == last || fresh(p)
    ensures last' == null || last' == last || fresh(last')
  {
    assert groups[i].Is(cfg.tok, sections[i]);
    var titles;
    stack', titles := EnterHeading(stack, groups[i].level, groups[i].title);
    var canMerge := MayMerge(cfg, groups, i, chunks, last, highest, sections, pool, st);
    chunks', last', highest' := PlaceGroup(cfg, groups, i, titles, canMerge, chunks, last, highest, sections, pool, st);
  }

  /** The turn for group `i`, after the turns for the groups before it. */
  method RechunkNext(cfg: Config, groups: seq<Group>, i: nat, stack: seq<Heading>, chunks: seq<Part>, last: Part?,
                     highest: Option<nat>, ghost sections: seq<Section>, ghost pool: set<Part>)
    returns (stack': seq<Heading>, chunks': seq<Part>, last': Part?, highest': Option<nat>)
    requires i < |groups| == |sections|
    requires var st := Run(cfg, sections[..i]);
      Between(cfg, groups, i, sections, pool, chunks, last, st) && stack == st.stack && highest == st.highest
    modifies (set g <- groups)`tokens, pool`meta, if last == null then {} else {last}
    ensures var next := Run(cfg, sections[..i + 1]);
      Between(cfg, groups, i + 1, sections, pool, chunks', last', next) && stack' == next.stack && highest' == next.highest
    ensures forall p <- chunks' :: p in chunks || p == last || fresh(p)
    ensures last' == null || last' == last || fresh(last')
  {
    RunStep(cfg, sections, i);
    stack', chunks', last', highest' :=
      RechunkGroup(cfg, groups, i, stack, chunks, last, highest, sections, pool, Run(cfg, sections[..i]));
  }

  /** Seals the last output part after the turns for all groups. */
  method FinishChunks(cfg: Config, chunks: seq<Part>, last: Part?, ghost sections: seq<Section>)
    returns (result: seq<Part>)
    requires Output(cfg.tok, chunks, last, Run(cfg, sections).done, Run(cfg, sections).last)
    ensures HoldsAll(cfg.tok, result, Chunks(cfg, sections))
    ensures forall p <- result :: p in chunks || (last != null && p == last)
  {
    ghost var st := Run(cfg, sections);
    result := SealLast(cfg.tok, chunks, last, st.done, st.last);
  }

  /** The turns for all groups. */
  method RunGroups(cfg: Config, groups: seq<Group>, ghost sections: seq<Section>, ghost pool: set<Part>)
    returns (chunks: seq<Part>, last: Part?)
    requires ShowsAll(cfg.tok, groups, sections) && Uncounted(groups, 0) && Pooled(groups, pool)
    modifies (set g <- groups)`tokens, pool`meta
    ensures (forall p <- chunks :: fresh(p)) && (last != null ==> fresh(last))
    ensures Output(cfg.tok, chunks, last, Run(cfg, sections).done, Run(cfg, sections).last)
  {
    var stack: seq<Heading>, highest: Option<nat> := [], None;
    chunks, last := [], null;
    for i := 0 to |groups|
      invariant Between(cfg, groups, i, sections, pool, chunks, last, Run(cfg, sections[..i]))
      invariant (forall p <- chunks :: fresh(p)) && (last != null ==> fresh(last))
      invariant stack == Run(cfg, sections[..i]).stack && highest == Run(cfg, sections[..i]).highest
    {
      stack, chunks, last, highest := RechunkNext(cfg, groups, i, stack, chunks, last, highest, sections, pool);
    }
    assert sections[..|groups|] == sections;
  }

  /** The output parts of all groups. */
  method RechunkGroups(cfg: Config, groups: seq<Group>, ghost sections: seq<Section>, ghost pool: set<Part>)
    returns (result: seq<Part>)
    requires ShowsAll(cfg.tok, groups, sections) && Uncounted(groups, 0) && Pooled(groups, pool)
    modifies (set g <- groups)`tokens, pool`meta
    ensures fresh(result) && HoldsAll(cfg.tok, result, Chunks(cfg, sections))
  {
    var chunks, last := RunGroups(cfg, groups, sections, pool);
    result := FinishChunks(cfg, chunks, last, sections);
    forall i | 0 <= i < |result|
      ensures fresh(result[i])
    {
      assert result[i] in result;
    }
  }

  /** The output parts by the places of their pieces: each piece of the grouped input is in one part,
      in order, and every part shows its pieces and their heading path. */
  ghost predicate Rechunked(cfg: Config, sections: seq<Section>, result: seq<Part>, chunks: seq<Chunk>, layout: seq<Origin>)
    reads result
  {
    && |result| == |layout| && Tiled(cfg, sections, chunks, layout, |sections|, 0)
    && forall i | 0 <= i < |result| ::
         IsMadeOf(result[i].View(), PiecesOf(cfg, sections, layout[i]), PathOf(sections, layout[i]))
  }

  lemma {:induction false} HoldingIsRechunked(cfg: Config, values: seq<Item>, result: seq<Part>)
    returns (layout: seq<Origin>)
    requires HoldsAll(cfg.tok, result, Rechunk(cfg, values))
    ensures Rechunked(cfg, MergeTitles(ToSections(values)), result, Rechunk(cfg, values), layout)
  {
    var sections, chunks := MergeTitles(ToSections(values)), Rechunk(cfg, values);
    GroupedInput(values);
    layout := ChunkStructure(cfg, sections);
    forall i | 0 <= i < |result|
      ensures IsMadeOf(result[i].View(), PiecesOf(cfg, sections, layout[i]), PathOf(sections, layout[i]))
    {
      assert Holds(cfg.tok, result[i], chunks[i]);
      EveryChunkIsMadeOf(cfg, sections, chunks, layout, i);
    }
  }

  /** `rechunk`: the output parts show exactly the specified chunks of the input values, and so the
      pieces of the grouped input with their heading paths. */
  method RechunkParts(parts: seq<Part>, size: int, overlap: int, tok: Tokenizer, ghost values: seq<Item>)
    returns (result: seq<Part>)
    requires Shows(tok, parts, values)
    modifies (set p <- parts)`meta
    ensures fresh(result)
    ensures HoldsAll(tok, result, Rechunk(Config(tok, size, overlap, Splitter.LEVELED_SEPARATORS), values))
    ensures var cfg := Config(tok, size, overlap, Splitter.LEVELED_SEPARATORS);
      exists layout: seq<Origin> ::
        Rechunked(cfg, MergeTitles(ToSections(values)), result, Rechunk(cfg, values), layout)
  {
    var cfg := Config(tok, size, overlap, Splitter.LEVELED_SEPARATORS);
    var groups := ToGroups(tok, parts, values);
    var merged := MergeConsecutiveTitleGroups(tok, groups, parts, ToSections(values));
    result := RechunkGroups(cfg, merged, MergeTitles(ToSections(values)), set p <- parts);
    ghost var layout := HoldingIsRechunked(cfg, values, result);
  }
}
