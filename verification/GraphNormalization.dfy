/** `_normalize_extracted_graph` of aperag/mirofish_graph/neo4j_graph_backend.py: the extracted
    entities are grouped by type and preferred name, and the relations speak of the groups. */
module GraphNormalization {
  import opened Common
  import opened GraphIdentity
  import opened GraphPersistence
  import opened GraphPersistenceProofs

  /** `hints` are the alias values among the attributes. */
  datatype Extracted = Extracted(entityType: string, name: string, aliases: seq<string>, hints: seq<string>, summary: string)

  datatype Group = Group(name: string, entityType: string, summary: string, hints: seq<string>, aliases: seq<string>)

  type Key = (string, string)

  // ------------------------------------------------------------------
  // What grouping and renaming mean
  // ------------------------------------------------------------------

  /** The values an entity is known by. */
  function ValuesOf(e: Extracted): seq<string> {
    [e.name] + (e.aliases + e.hints)
  }

  /** One group of the entity's type holds every normalized form of its values. */
  ghost predicate Represented(naming: Naming, e: Extracted, groups: seq<Group>) {
    exists g <- groups :: g.entityType == e.entityType && HoldsAllForms(naming, g, ValuesOf(e))
  }

  ghost predicate HoldsAllForms(naming: Naming, g: Group, values: seq<string>) {
    forall n | Among(naming.norm, values, n) && n != "" :: n in Norms(naming.norm, g.aliases)
  }

  /** A group holds nothing that no entity of its type brought in. */
  ghost predicate Grounded(naming: Naming, g: Group, entities: seq<Extracted>) {
    forall n <- Norms(naming.norm, g.aliases) :: Brought(naming, g.entityType, n, entities)
  }

  predicate Brought(naming: Naming, entityType: string, n: string, entities: seq<Extracted>) {
    exists e <- entities :: e.entityType == entityType && Among(naming.norm, ValuesOf(e), n)
  }

  /** The group's name is one of its aliases, up to normalization; a nameless group has none. */
  predicate WellNamed(naming: Naming, g: Group) {
    if g.aliases == [] then g.name == ""
    else Trimmed(g.name) && naming.norm(g.name) in Norms(naming.norm, g.aliases)
  }

  predicate Holds(naming: Naming, g: Group, entityType: string, name: string) {
    g.entityType == entityType && naming.norm(name) in Norms(naming.norm, g.aliases)
  }

  /** A name that some group of the type holds becomes the name of such a group; any other stays. */
  ghost predicate Renamed(naming: Naming, groups: seq<Group>, entityType: string, name: string, result: string) {
    if exists g <- groups :: Holds(naming, g, entityType, name)
    then exists g <- groups :: Holds(naming, g, entityType, name) && result == g.name
    else result == name
  }

  // ------------------------------------------------------------------
  // One entity
  // ------------------------------------------------------------------

  /** The group an entity belongs to, and that group with the entity merged in. */
  function KeyOf(naming: Naming, e: Extracted): Key {
    (e.entityType, naming.norm(PreferredName(naming, e)))
  }

  /** `prefer_entity_name`. */
  function PreferredName(naming: Naming, e: Extracted): string {
    Preferred(naming, Collect(naming.norm, e.name, e.aliases + e.hints))
  }

  /** `collect_entity_aliases` of the entity. */
  function Own(naming: Naming, e: Extracted): seq<string> {
    Collect(naming.norm, e.name, e.aliases + e.hints)
  }

  function Pool(naming: Naming, e: Extracted, existing: Option<Group>): seq<string> {
    if existing.Some? then existing.value.aliases + Own(naming, e) else Own(naming, e)
  }

  function Candidates(naming: Naming, e: Extracted, existing: Option<Group>): seq<string> {
    [PreferredName(naming, e)] + ((if existing.Some? then [existing.value.name] else []) + Pool(naming, e, existing))
  }

  function MergeInto(naming: Naming, e: Extracted, existing: Option<Group>): Group {
    var hints := if existing.Some? then existing.value.hints + e.hints else e.hints;
    var summary := if existing.Some? && existing.value.summary != "" then existing.value.summary else e.summary;
    Group(Preferred(naming, Candidates(naming, e, existing)), e.entityType, summary, hints,
          Collect(naming.norm, PreferredName(naming, e), Pool(naming, e, existing) + hints))
  }

  /** The chosen name is one of the candidates, unless none of them says anything. */
  lemma {:induction false} PreferredIsCandidate(naming: Naming, candidates: seq<string>)
    ensures var name := Preferred(naming, candidates);
            if Unique(naming.norm, candidates, {}) == [] then name == ""
            else Trimmed(name) && naming.norm(name) != "" && Among(naming.norm, candidates, naming.norm(name))
  {
    var values := Unique(naming.norm, candidates, {});
    if values != [] {
      var name := Preferred(naming, candidates);
      FirstCjkIsFirst(naming.cjk, values);
      UniqueIsUnique(naming.norm, candidates, {});
      assert name in values;
      NormsMembers(naming.norm, values, naming.norm(name));
      UniqueIsExact(naming.norm, candidates, {}, naming.norm(name));
    }
  }

  /** The normalized forms of a collected list are the non-empty ones of what was collected. */
  lemma {:induction false} CollectedForms(naming: Naming, name: string, more: seq<string>, n: string)
    ensures n in Norms(naming.norm, Collect(naming.norm, name, more))
       <==> n != "" && (Canonical(naming.norm, name) == n || Among(naming.norm, more, n))
  {
    UniqueIsExact(naming.norm, [name] + more, {}, n);
    AmongConcat(naming.norm, [name], more, n);
  }

  ghost predicate GroupOk(naming: Naming, g: Group) {
    && GoodAliases(naming, g.aliases) && WellNamed(naming, g)
    && forall n | Among(naming.norm, g.hints, n) && n != "" :: n in Norms(naming.norm, g.aliases)
  }

  /** An entity's own aliases hold exactly the forms of its values. */
  lemma {:induction false} OwnForms(naming: Naming, e: Extracted, n: string)
    ensures n in Norms(naming.norm, Own(naming, e)) <==> n != "" && Among(naming.norm, ValuesOf(e), n)
    ensures Among(naming.norm, Own(naming, e), n) <==> n in Norms(naming.norm, Own(naming, e))
  {
    CollectedForms(naming, e.name, e.aliases + e.hints, n);
    AmongConcat(naming.norm, [e.name], e.aliases + e.hints, n);
    UniqueIsUnique(naming.norm, [e.name] + (e.aliases + e.hints), {});
    AmongKept(naming.norm, Own(naming, e), n);
  }

  /** The preferred name brings in no new form. */
  lemma {:induction false} PreferredForm(naming: Naming, e: Extracted, n: string)
    ensures Canonical(naming.norm, PreferredName(naming, e)) == n && n != "" ==> n in Norms(naming.norm, Own(naming, e))
  {
    PreferredIsCandidate(naming, Own(naming, e));
    OwnForms(naming, e, n);
  }

  /** The forms in the pool are those of the old group and of the entity. */
  lemma {:induction false} PoolForms(naming: Naming, e: Extracted, existing: Option<Group>, n: string)
    requires existing.Some? ==> GroupOk(naming, existing.value)
    ensures Among(naming.norm, Pool(naming, e, existing), n)
       <==> (n != "" && Among(naming.norm, ValuesOf(e), n))
            || (existing.Some? && n in Norms(naming.norm, existing.value.aliases))
    ensures Among(naming.norm, Pool(naming, e, existing), n) ==> n != ""
  {
    OwnForms(naming, e, n);
    if existing.Some? {
      AmongConcat(naming.norm, existing.value.aliases, Own(naming, e), n);
      AmongKept(naming.norm, existing.value.aliases, n);
      NoEmptyNorm(naming, existing.value.aliases);
    }
  }

  /** The alias values of the attributes are among the forms already. */
  lemma {:induction false} HintForms(naming: Naming, e: Extracted, existing: Option<Group>, n: string)
    requires existing.Some? ==> GroupOk(naming, existing.value)
    ensures Among(naming.norm, MergeInto(naming, e, existing).hints, n) && n != "" ==>
              Among(naming.norm, Pool(naming, e, existing), n)
  {
    PoolForms(naming, e, existing, n);
    AmongConcat(naming.norm, [e.name], e.aliases + e.hints, n);
    AmongConcat(naming.norm, e.aliases, e.hints, n);
    if existing.Some? {
      AmongConcat(naming.norm, existing.value.hints, e.hints, n);
    }
  }

  /** The merged group holds exactly the forms of the old one and of the entity. */
  lemma {:induction false} MergedForms(naming: Naming, e: Extracted, existing: Option<Group>, n: string)
    requires existing.Some? ==> GroupOk(naming, existing.value)
    ensures n in Norms(naming.norm, MergeInto(naming, e, existing).aliases)
       <==> (n != "" && Among(naming.norm, ValuesOf(e), n))
            || (existing.Some? && n in Norms(naming.norm, existing.value.aliases))
    ensures n in Norms(naming.norm, MergeInto(naming, e, existing).aliases)
       <==> Among(naming.norm, Pool(naming, e, existing), n)
  {
    var g := MergeInto(naming, e, existing);
    CollectedForms(naming, PreferredName(naming, e), Pool(naming, e, existing) + g.hints, n);
    AmongConcat(naming.norm, Pool(naming, e, existing), g.hints, n);
    PoolForms(naming, e, existing, n);
    HintForms(naming, e, existing, n);
    PreferredForm(naming, e, n);
    OwnForms(naming, e, n);
  }

  lemma {:induction false} MergedIsOk(naming: Naming, e: Extracted, existing: Option<Group>)
    requires existing.Some? ==> GroupOk(naming, existing.value)
    ensures GroupOk(naming, MergeInto(naming, e, existing))
  {
    var g := MergeInto(naming, e, existing);
    UniqueIsUnique(naming.norm, [PreferredName(naming, e)] + (Pool(naming, e, existing) + g.hints), {});
    forall n | Among(naming.norm, g.hints, n) && n != ""
      ensures n in Norms(naming.norm, g.aliases)
    {
      HintForms(naming, e, existing, n);
      MergedForms(naming, e, existing, n);
    }
    MergedIsWellNamed(naming, e, existing);
  }

  lemma {:induction false} MergedIsWellNamed(naming: Naming, e: Extracted, existing: Option<Group>)
    requires existing.Some? ==> GroupOk(naming, existing.value)
    ensures WellNamed(naming, MergeInto(naming, e, existing))
  {
    var g := MergeInto(naming, e, existing);
    var candidates := Candidates(naming, e, existing);
    UniqueIsUnique(naming.norm, [PreferredName(naming, e)] + (Pool(naming, e, existing) + g.hints), {});
    PreferredIsCandidate(naming, candidates);
    forall n
      ensures n != "" ==> (Among(naming.norm, candidates, n) <==> n in Norms(naming.norm, g.aliases))
    {
      SameForms(naming, e, existing, n);
    }
    NoForms(naming, candidates, g);
  }

  /** The candidates for the name have the same forms as the aliases. */
  lemma {:induction false} SameForms(naming: Naming, e: Extracted, existing: Option<Group>, n: string)
    requires existing.Some? ==> GroupOk(naming, existing.value)
    ensures n != "" ==> (Among(naming.norm, Candidates(naming, e, existing), n)
                         <==> n in Norms(naming.norm, MergeInto(naming, e, existing).aliases))
  {
    var preferred, pool := PreferredName(naming, e), Pool(naming, e, existing);
    var known := if existing.Some? then [existing.value.name] else [];
    MergedForms(naming, e, existing, n);
    PoolForms(naming, e, existing, n);
    PreferredForm(naming, e, n);
    OwnForms(naming, e, n);
    AmongConcat(naming.norm, [preferred], known + pool, n);
    AmongConcat(naming.norm, known, pool, n);
    if existing.Some? {
      KnownForm(naming, existing.value, n);
    }
  }

  /** The old name of a group is one of its forms, if it is anything. */
  lemma {:induction false} KnownForm(naming: Naming, g: Group, n: string)
    requires GroupOk(naming, g)
    ensures n != "" && Canonical(naming.norm, g.name) == n ==> n in Norms(naming.norm, g.aliases)
  {
    assert g.name == "" ==> Strip(g.name) == "";
  }

  /** No candidates with a form means no aliases. */
  lemma {:induction false} NoForms(naming: Naming, candidates: seq<string>, g: Group)
    requires GoodAliases(naming, g.aliases)
    requires forall n :: n != "" ==> (Among(naming.norm, candidates, n) <==> n in Norms(naming.norm, g.aliases))
    ensures Unique(naming.norm, candidates, {}) == [] <==> g.aliases == []
  {
    var values := Unique(naming.norm, candidates, {});
    if values != [] {
      var n := naming.norm(values[0]);
      UniqueIsUnique(naming.norm, candidates, {});
      NormsMembers(naming.norm, values, n);
      UniqueIsExact(naming.norm, candidates, {}, n);
    }
    if g.aliases != [] {
      var n := naming.norm(g.aliases[0]);
      assert Norms(naming.norm, g.aliases)[0] == n;
      UniqueIsExact(naming.norm, candidates, {}, n);
    }
  }

  // ------------------------------------------------------------------
  // Code
  // ------------------------------------------------------------------

  /** The groups so far: their keys in the order of insertion, and the table of aliases. */
  datatype Table = Table(keys: seq<Key>, grouped: map<Key, Group>, aliasMap: map<Key, Key>)

  ghost predicate KeysOk(table: Table) {
    && (forall k :: k in table.keys <==> k in table.grouped)
    && (forall i, j | 0 <= i < j < |table.keys| :: table.keys[i] != table.keys[j])
  }

  ghost predicate GroupsOk(naming: Naming, table: Table, entities: seq<Extracted>) {
    forall k <- table.grouped :: GroupAt(naming, table.grouped[k], k, entities)
  }

  ghost predicate GroupAt(naming: Naming, g: Group, k: Key, entities: seq<Extracted>) {
    GroupOk(naming, g) && g.entityType == k.0 && Grounded(naming, g, entities) && Describes(naming, g, k, entities)
  }

  /** The group has the summary and the attribute values of the entities of its key. */
  predicate Describes(naming: Naming, g: Group, k: Key, entities: seq<Extracted>) {
    g.entityType == k.0 && g.summary == FirstSummary(naming, k, entities) && g.hints == AllHints(naming, k, entities)
  }

  /** The first summary that says something. */
  function FirstSummary(naming: Naming, k: Key, entities: seq<Extracted>): string {
    if entities == [] then ""
    else
      var last, before := entities[|entities| - 1], FirstSummary(naming, k, entities[..|entities| - 1]);
      if KeyOf(naming, last) == k && before == "" then last.summary else before
  }

  function AllHints(naming: Naming, k: Key, entities: seq<Extracted>): seq<string> {
    if entities == [] then []
    else
      var last := entities[|entities| - 1];
      AllHints(naming, k, entities[..|entities| - 1]) + (if KeyOf(naming, last) == k then last.hints else [])
  }

  /** The keys of the entities in the order in which they first come up. */
  function KeysInOrder(naming: Naming, entities: seq<Extracted>): seq<Key> {
    if entities == [] then []
    else
      var keys, k := KeysInOrder(naming, entities[..|entities| - 1]), KeyOf(naming, entities[|entities| - 1]);
      if k in keys then keys else keys + [k]
  }

  /** Entities belong together exactly if their types and the normalized forms of their preferred names
      are the same; the preferred one is the first of the entity's names that is CJK, or the first. */
  lemma {:induction false} KeyIsPreferred(naming: Naming, e: Extracted)
    ensures KeyOf(naming, e).0 == e.entityType
    ensures exists name ::
      Chosen(naming, Unique(naming.norm, Own(naming, e), {}), name) && KeyOf(naming, e).1 == naming.norm(name)
  {
    PreferredIsChosen(naming, Own(naming, e));
    assert Chosen(naming, Unique(naming.norm, Own(naming, e), {}), PreferredName(naming, e));
  }

  ghost predicate EntitiesIn(naming: Naming, table: Table, entities: seq<Extracted>) {
    forall e <- entities :: EntityIn(naming, table, e)
  }

  ghost predicate EntityIn(naming: Naming, table: Table, e: Extracted) {
    KeyOf(naming, e) in table.grouped && HoldsAllForms(naming, table.grouped[KeyOf(naming, e)], ValuesOf(e))
  }

  predicate AliasesLead(naming: Naming, table: Table) {
    forall a <- table.aliasMap :: LeadsTo(naming, table, a, table.aliasMap[a])
  }

  predicate LeadsTo(naming: Naming, table: Table, alias: Key, k: Key) {
    k in table.grouped && k.0 == alias.0 && alias.1 in Norms(naming.norm, table.grouped[k].aliases)
  }

  predicate AliasesKnown(naming: Naming, table: Table) {
    forall k <- table.grouped :: AllKnown(naming, table, k.0, table.grouped[k])
  }

  predicate AllKnown(naming: Naming, table: Table, entityType: string, g: Group) {
    forall n <- Norms(naming.norm, g.aliases) :: (entityType, n) in table.aliasMap
  }

  /** The table holds the groups of the given entities, and exactly the aliases of all groups lead to them. */
  ghost predicate TableOk(naming: Naming, table: Table, entities: seq<Extracted>) {
    && KeysOk(table) && table.keys == KeysInOrder(naming, entities)
    && GroupsOk(naming, table, entities) && EntitiesIn(naming, table, entities)
    && AliasesLead(naming, table) && AliasesKnown(naming, table)
  }

  /** Points every alias to the key. */
  method MapAliases(naming: Naming, aliasMap0: map<Key, Key>, entityType: string, aliases: seq<string>, key: Key)
    returns (aliasMap: map<Key, Key>)
    ensures Mapped(aliasMap0, aliasMap, entityType, Norms(naming.norm, aliases), key)
  {
    aliasMap := aliasMap0;
    for i := 0 to |aliases|
      invariant Mapped(aliasMap0, aliasMap, entityType, Norms(naming.norm, aliases)[..i], key)
    {
      MappedMore(aliasMap0, aliasMap, entityType, Norms(naming.norm, aliases), i, key);
      aliasMap := aliasMap[(entityType, naming.norm(aliases[i])) := key];
    }
    assert Norms(naming.norm, aliases)[..|aliases|] == Norms(naming.norm, aliases);
  }

  lemma {:induction false} MappedMore(
      before: map<Key, Key>, after: map<Key, Key>, entityType: string, norms: seq<string>, i: nat, key: Key)
    requires i < |norms| && Mapped(before, after, entityType, norms[..i], key)
    ensures Mapped(before, after[(entityType, norms[i]) := key], entityType, norms[..i + 1], key)
  {
    PrefixGrows(norms, i);
  }

  ghost predicate Mapped(before: map<Key, Key>, after: map<Key, Key>, entityType: string, norms: seq<string>, key: Key) {
    && (forall a :: a in after <==> a in before || (a.0 == entityType && a.1 in norms))
    && (forall a <- after :: after[a] == if a.0 == entityType && a.1 in norms then key else before[a])
  }

  /** Merges one entity into the table. */
  method AddEntity(naming: Naming, table: Table, e: Extracted, ghost entities: seq<Extracted>) returns (table': Table)
    requires TableOk(naming, table, entities)
    ensures TableOk(naming, table', entities + [e])
  {
    var key := KeyOf(naming, e);
    var g := MergeInto(naming, e, Lookup(table, key));
    var keys := if key in table.grouped then table.keys else table.keys + [key];
    var aliasMap := MapAliases(naming, table.aliasMap, e.entityType, g.aliases, key);
    table' := Table(keys, table.grouped[key := g], aliasMap);
    AddKeepsTable(naming, table, table', e, entities);
  }

  lemma {:induction false} AddKeepsTable(
      naming: Naming, table: Table, after: Table, e: Extracted, entities: seq<Extracted>)
    requires TableOk(naming, table, entities) && Added(naming, table, after, e)
    requires after.keys == if KeyOf(naming, e) in table.grouped then table.keys else table.keys + [KeyOf(naming, e)]
    ensures TableOk(naming, after, entities + [e])
  {
    assert (entities + [e])[..|entities|] == entities;
    AddKeepsKeys(naming, table, after, e);
    AddKeepsGroups(naming, table, after, e, entities);
    AddKeepsEntities(naming, table, after, e, entities);
    AddKeepsLeads(naming, table, after, e, entities);
    AddKeepsKnown(naming, table, after, e);
  }

  lemma {:induction false} AddKeepsKeys(naming: Naming, table: Table, after: Table, e: Extracted)
    requires KeysOk(table) && Added(naming, table, after, e)
    requires after.keys == if KeyOf(naming, e) in table.grouped then table.keys else table.keys + [KeyOf(naming, e)]
    ensures KeysOk(after)
  {
  }

  /** `after` is the table with the entity merged into its group. */
  ghost predicate Added(naming: Naming, table: Table, after: Table, e: Extracted) {
    var key := KeyOf(naming, e);
    && after.grouped == table.grouped[key := MergeInto(naming, e, Lookup(table, key))]
    && Mapped(table.aliasMap, after.aliasMap, e.entityType, Norms(naming.norm, after.grouped[key].aliases), key)
  }

  function Lookup(table: Table, key: Key): Option<Group> {
    if key in table.grouped then Some(table.grouped[key]) else None
  }

  lemma {:induction false} AddKeepsGroups(
      naming: Naming, table: Table, after: Table, e: Extracted, entities: seq<Extracted>)
    requires GroupsOk(naming, table, entities) && Added(naming, table, after, e)
    requires KeysOk(table) && table.keys == KeysInOrder(naming, entities)
    ensures GroupsOk(naming, after, entities + [e])
  {
    var key, existing := KeyOf(naming, e), Lookup(table, KeyOf(naming, e));
    assert existing.Some? ==> GroupAt(naming, existing.value, key, entities);
    if existing.None? {
      NothingForNewKey(naming, key, entities);
    }
    MergedAt(naming, e, existing, entities);
    forall k <- after.grouped
      ensures GroupAt(naming, after.grouped[k], k, entities + [e])
    {
      if k != key {
        assert GroupAt(naming, table.grouped[k], k, entities);
        OtherStays(naming, table.grouped[k], k, entities, e);
      }
    }
  }

  lemma {:induction false} MergedAt(naming: Naming, e: Extracted, existing: Option<Group>, entities: seq<Extracted>)
    requires match existing
      case Some(g) => GroupAt(naming, g, KeyOf(naming, e), entities)
      case None => FirstSummary(naming, KeyOf(naming, e), entities) == "" && AllHints(naming, KeyOf(naming, e), entities) == []
    ensures GroupAt(naming, MergeInto(naming, e, existing), KeyOf(naming, e), entities + [e])
  {
    MergedIsOk(naming, e, existing);
    MergedIsGrounded(naming, e, existing, entities);
    MergedDescribes(naming, e, existing, entities);
  }

  lemma {:induction false} OtherStays(naming: Naming, g: Group, k: Key, entities: seq<Extracted>, e: Extracted)
    requires GroupAt(naming, g, k, entities) && k != KeyOf(naming, e)
    ensures GroupAt(naming, g, k, entities + [e])
  {
    StillGrounded(naming, g, entities, e);
    assert (entities + [e])[..|entities|] == entities;
    assert AllHints(naming, k, entities) + [] == AllHints(naming, k, entities);
  }

  lemma {:induction false} NothingForNewKey(naming: Naming, k: Key, entities: seq<Extracted>)
    requires k !in KeysInOrder(naming, entities)
    ensures FirstSummary(naming, k, entities) == "" && AllHints(naming, k, entities) == []
    decreases |entities|
  {
    if entities != [] {
      NothingForNewKey(naming, k, entities[..|entities| - 1]);
    }
  }

  lemma {:induction false} MergedDescribes(naming: Naming, e: Extracted, existing: Option<Group>, entities: seq<Extracted>)
    requires match existing
      case Some(g) => Describes(naming, g, KeyOf(naming, e), entities)
      case None => FirstSummary(naming, KeyOf(naming, e), entities) == "" && AllHints(naming, KeyOf(naming, e), entities) == []
    ensures Describes(naming, MergeInto(naming, e, existing), KeyOf(naming, e), entities + [e])
  {
    assert (entities + [e])[..|entities|] == entities;
    assert [] + e.hints == e.hints;
  }

  lemma {:induction false} StillGrounded(naming: Naming, g: Group, entities: seq<Extracted>, e: Extracted)
    requires Grounded(naming, g, entities)
    ensures Grounded(naming, g, entities + [e])
  {
    forall n <- Norms(naming.norm, g.aliases)
      ensures Brought(naming, g.entityType, n, entities + [e])
    {
      assert Brought(naming, g.entityType, n, entities);
      var source :| source in entities && source.entityType == g.entityType && Among(naming.norm, ValuesOf(source), n);
      assert source in entities + [e];
    }
  }

  lemma {:induction false} MergedIsGrounded(naming: Naming, e: Extracted, existing: Option<Group>,
      entities: seq<Extracted>)
    requires existing.Some? ==>
      GroupOk(naming, existing.value) && existing.value.entityType == e.entityType && Grounded(naming, existing.value, entities)
    ensures Grounded(naming, MergeInto(naming, e, existing), entities + [e])
  {
    forall n <- Norms(naming.norm, MergeInto(naming, e, existing).aliases)
      ensures Brought(naming, e.entityType, n, entities + [e])
    {
      MergedForms(naming, e, existing, n);
      if Among(naming.norm, ValuesOf(e), n) {
        assert e in entities + [e];
      } else {
        assert Brought(naming, e.entityType, n, entities);
        var source :| source in entities && source.entityType == e.entityType && Among(naming.norm, ValuesOf(source), n);
        assert source in entities + [e];
      }
    }
  }

  /** No form is lost from any group. */
  lemma {:induction false} FormsStay(naming: Naming, table: Table, after: Table, e: Extracted, k: Key, n: string)
    requires Added(naming, table, after, e) && k in table.grouped && GroupOk(naming, table.grouped[k])
    requires n in Norms(naming.norm, table.grouped[k].aliases)
    ensures k in after.grouped && n in Norms(naming.norm, after.grouped[k].aliases)
  {
    if k == KeyOf(naming, e) {
      MergedForms(naming, e, Lookup(table, k), n);
    }
  }

  lemma {:induction false} AddKeepsEntities(
      naming: Naming, table: Table, after: Table, e: Extracted, entities: seq<Extracted>)
    requires GroupsOk(naming, table, entities) && EntitiesIn(naming, table, entities) && Added(naming, table, after, e)
    ensures EntitiesIn(naming, after, entities + [e])
  {
    forall d <- entities + [e]
      ensures EntityIn(naming, after, d)
    {
      if d in entities {
        assert EntityIn(naming, table, d) && GroupAt(naming, table.grouped[KeyOf(naming, d)], KeyOf(naming, d), entities);
        EntityStays(naming, table, after, e, d);
      } else {
        assert KeyOf(naming, e) in table.grouped ==>
            GroupAt(naming, table.grouped[KeyOf(naming, e)], KeyOf(naming, e), entities);
        EntityEnters(naming, table, after, e);
      }
    }
  }

  lemma {:induction false} EntityStays(naming: Naming, table: Table, after: Table, e: Extracted, d: Extracted)
    requires Added(naming, table, after, e) && EntityIn(naming, table, d)
    requires GroupOk(naming, table.grouped[KeyOf(naming, d)])
    ensures EntityIn(naming, after, d)
  {
    forall n | Among(naming.norm, ValuesOf(d), n) && n != ""
      ensures n in Norms(naming.norm, after.grouped[KeyOf(naming, d)].aliases)
    {
      FormsStay(naming, table, after, e, KeyOf(naming, d), n);
    }
  }

  lemma {:induction false} EntityEnters(naming: Naming, table: Table, after: Table, e: Extracted)
    requires Added(naming, table, after, e)
    requires KeyOf(naming, e) in table.grouped ==> GroupOk(naming, table.grouped[KeyOf(naming, e)])
    ensures EntityIn(naming, after, e)
  {
    forall n | Among(naming.norm, ValuesOf(e), n) && n != ""
      ensures n in Norms(naming.norm, after.grouped[KeyOf(naming, e)].aliases)
    {
      MergedForms(naming, e, Lookup(table, KeyOf(naming, e)), n);
    }
  }

  lemma {:induction false} AddKeepsLeads(
      naming: Naming, table: Table, after: Table, e: Extracted, entities: seq<Extracted>)
    requires GroupsOk(naming, table, entities) && AliasesLead(naming, table) && Added(naming, table, after, e)
    ensures AliasesLead(naming, after)
  {
    var key := KeyOf(naming, e);
    forall a <- after.aliasMap
      ensures LeadsTo(naming, after, a, after.aliasMap[a])
    {
      if !(a.0 == e.entityType && a.1 in Norms(naming.norm, after.grouped[key].aliases)) {
        var k := table.aliasMap[a];
        assert LeadsTo(naming, table, a, k) && GroupAt(naming, table.grouped[k], k, entities);
        FormsStay(naming, table, after, e, k, a.1);
      }
    }
  }

  lemma {:induction false} AddKeepsKnown(naming: Naming, table: Table, after: Table, e: Extracted)
    requires AliasesKnown(naming, table) && Added(naming, table, after, e)
    ensures AliasesKnown(naming, after)
  {
    forall k <- after.grouped
      ensures AllKnown(naming, after, k.0, after.grouped[k])
    {
      if k != KeyOf(naming, e) {
        assert AllKnown(naming, table, k.0, table.grouped[k]);
      }
    }
  }

  /** A name that is some group's alias gives way to the name of the group the table leads to. */
  method Rename(naming: Naming, table: Table, entityType: string, name: string, ghost groups: seq<Group>)
    returns (result: string)
    requires AliasesLead(naming, table) && AliasesKnown(naming, table) && IsOutput(table, groups)
    requires forall k <- table.grouped :: table.grouped[k].entityType == k.0
    ensures Renamed(naming, groups, entityType, name, result)
  {
    var alias := (entityType, naming.norm(name));
    result := name;
    if alias in table.aliasMap {
      var key := table.aliasMap[alias];
      assert LeadsTo(naming, table, alias, key);
      result := table.grouped[key].name;
      assert table.grouped[key] in groups && Holds(naming, table.grouped[key], entityType, name);
    } else {
      forall g <- groups
        ensures !Holds(naming, g, entityType, name)
      {
        var k :| k in table.grouped && table.grouped[k] == g;
        assert AllKnown(naming, table, k.0, g);
      }
    }
  }

  /** The groups handed over are those of the table. */
  ghost predicate IsOutput(table: Table, groups: seq<Group>) {
    && (forall k <- table.grouped :: table.grouped[k] in groups)
    && (forall g <- groups :: exists k <- table.grouped :: table.grouped[k] == g)
  }

  ghost predicate RelationRenamed(naming: Naming, groups: seq<Group>, before: RelationSpec, after: RelationSpec) {
    && after == before.(sourceName := after.sourceName, targetName := after.targetName)
    && Renamed(naming, groups, before.sourceType, before.sourceName, after.sourceName)
    && Renamed(naming, groups, before.targetType, before.targetName, after.targetName)
  }

  /** The groups hold exactly what the entities brought in, each entity in one group, every group is
      named after one of its aliases, and the relations speak of the groups wherever they can. */
  method NormalizeExtractedGraph(naming: Naming, entities: seq<Extracted>, relations: seq<RelationSpec>)
    returns (groups: seq<Group>, renamed: seq<RelationSpec>)
    ensures forall e <- entities :: Represented(naming, e, groups)
    ensures forall g <- groups :: Grounded(naming, g, entities) && WellNamed(naming, g)
    ensures var keys := KeysInOrder(naming, entities);
      |groups| == |keys| && forall i | 0 <= i < |keys| :: Describes(naming, groups[i], keys[i], entities)
    ensures |renamed| == |relations|
    ensures forall i | 0 <= i < |relations| :: RelationRenamed(naming, groups, relations[i], renamed[i])
  {
    var table := BuildTable(naming, entities);
    groups := OutputOf(table);
    OutputIsRight(naming, table, entities, groups);
    renamed := RenameAll(naming, table, relations, groups);
    forall i | 0 <= i < |relations|
      ensures RelationRenamed(naming, groups, relations[i], renamed[i])
    {
      RenamedAt(naming, groups, relations, renamed, i);
    }
  }

  lemma {:induction false} OutputIsRight(naming: Naming, table: Table, entities: seq<Extracted>, groups: seq<Group>)
    requires TableOk(naming, table, entities) && IsOutput(table, groups)
    requires |groups| == |table.keys| && forall i | 0 <= i < |groups| :: groups[i] == table.grouped[table.keys[i]]
    ensures forall e <- entities :: Represented(naming, e, groups)
    ensures forall g <- groups :: Grounded(naming, g, entities) && WellNamed(naming, g)
    ensures forall i | 0 <= i < |groups| :: Describes(naming, groups[i], table.keys[i], entities)
    ensures forall k <- table.grouped :: table.grouped[k].entityType == k.0
  {
    forall e <- entities
      ensures Represented(naming, e, groups)
    {
      assert EntityIn(naming, table, e);
      assert GroupAt(naming, table.grouped[KeyOf(naming, e)], KeyOf(naming, e), entities);
    }
    forall k <- table.grouped
      ensures table.grouped[k].entityType == k.0
    {
      assert GroupAt(naming, table.grouped[k], k, entities);
    }
    forall i | 0 <= i < |groups|
      ensures Describes(naming, groups[i], table.keys[i], entities)
      ensures Grounded(naming, groups[i], entities) && WellNamed(naming, groups[i])
    {
      assert GroupAt(naming, table.grouped[table.keys[i]], table.keys[i], entities);
    }
  }

  method BuildTable(naming: Naming, entities: seq<Extracted>) returns (table: Table)
    ensures TableOk(naming, table, entities)
  {
    table := Table([], map[], map[]);
    for i := 0 to |entities|
      invariant TableOk(naming, table, entities[..i])
    {
      PrefixGrows(entities, i);
      table := AddEntity(naming, table, entities[i], entities[..i]);
    }
    assert entities[..|entities|] == entities;
  }

  /** The groups in the order of their keys. */
  method OutputOf(table: Table) returns (groups: seq<Group>)
    requires KeysOk(table)
    ensures IsOutput(table, groups)
    ensures |groups| == |table.keys| && forall i | 0 <= i < |groups| :: groups[i] == table.grouped[table.keys[i]]
  {
    groups := [];
    for i := 0 to |table.keys|
      invariant |groups| == i && forall j | 0 <= j < i :: groups[j] == table.grouped[table.keys[j]]
    {
      groups := groups + [table.grouped[table.keys[i]]];
    }
    forall k <- table.grouped
      ensures table.grouped[k] in groups
    {
      var i :| 0 <= i < |table.keys| && table.keys[i] == k;
      assert groups[i] == table.grouped[k];
    }
  }

  /** Renaming relation by relation. */
  ghost predicate AllRenamed(
      naming: Naming, groups: seq<Group>, before: seq<RelationSpec>, after: seq<RelationSpec>)
    decreases |before|
  {
    && |before| == |after|
    && (before != [] ==>
          var n := |before| - 1;
          RelationRenamed(naming, groups, before[n], after[n]) && AllRenamed(naming, groups, before[..n], after[..n]))
  }

  lemma {:induction false} RenamedMore(
      naming: Naming, groups: seq<Group>, before: seq<RelationSpec>, after: seq<RelationSpec>, i: nat, next: RelationSpec)
    requires i < |before| && AllRenamed(naming, groups, before[..i], after)
    requires RelationRenamed(naming, groups, before[i], next)
    ensures AllRenamed(naming, groups, before[..i + 1], after + [next])
  {
    PrefixGrows(before, i);
    assert (after + [next])[..i] == after;
  }

  lemma {:induction false} RenamedAt(
      naming: Naming, groups: seq<Group>, before: seq<RelationSpec>, after: seq<RelationSpec>, i: nat)
    requires AllRenamed(naming, groups, before, after) && i < |before|
    ensures RelationRenamed(naming, groups, before[i], after[i])
    decreases |before|
  {
    var n := |before| - 1;
    if i < n {
      RenamedAt(naming, groups, before[..n], after[..n], i);
    }
  }

  method RenameRelation(naming: Naming, table: Table, r: RelationSpec, ghost groups: seq<Group>)
    returns (renamed: RelationSpec)
    requires AliasesLead(naming, table) && AliasesKnown(naming, table) && IsOutput(table, groups)
    requires forall k <- table.grouped :: table.grouped[k].entityType == k.0
    ensures RelationRenamed(naming, groups, r, renamed)
  {
    var sourceName := Rename(naming, table, r.sourceType, r.sourceName, groups);
    var targetName := Rename(naming, table, r.targetType, r.targetName, groups);
    renamed := r.(sourceName := sourceName, targetName := targetName);
  }

  method RenameAll(naming: Naming, table: Table, relations: seq<RelationSpec>, ghost groups: seq<Group>)
    returns (renamed: seq<RelationSpec>)
    requires AliasesLead(naming, table) && AliasesKnown(naming, table) && IsOutput(table, groups)
    requires forall k <- table.grouped :: table.grouped[k].entityType == k.0
    ensures AllRenamed(naming, groups, relations, renamed)
  {
    renamed := [];
    for i := 0 to |relations|
      invariant AllRenamed(naming, groups, relations[..i], renamed)
    {
      var next := RenameRelation(naming, table, relations[i], groups);
      RenamedMore(naming, groups, relations, renamed, i, next);
      renamed := renamed + [next];
    }
    assert relations[..|relations|] == relations;
  }
}
