/** `_persist_chunk` of aperag/mirofish_graph/neo4j_graph_backend.py: chunk workers that share one
    entity store and interleave between their queries. */
module GraphPersistence {
  import opened Common
  import opened GraphIdentity

  // ------------------------------------------------------------------
  // The store and its queries
  // ------------------------------------------------------------------

  /** The digest of `entity_key` within one graph: both parts go through `normalize_text`. */
  datatype Id = Id(foldedType: string, foldedName: string)

  datatype Entity = Entity(
    name: string, entityType: string, normalizedName: string, aliases: seq<string>, normalizedAliases: seq<string>)

  /** The digest of `relation_key`: its type and its fact go through `normalize_text` as well. */
  datatype RelationKey = RelationKey(source: Id, foldedKind: string, target: Id, foldedFact: string)

  /** What a relation shows: its type and its fact as they were last written. */
  datatype Relation = Relation(kind: string, fact: string)

  datatype Store = Store(chunks: set<string>, entities: map<Id, Entity>, relations: map<RelationKey, Relation>)

  function EntityKey(naming: Naming, entityType: string, name: string): Id {
    Id(naming.fold(entityType), naming.fold(naming.norm(name)))
  }

  function KeyOfRelation(naming: Naming, source: Id, target: Id, relation: Relation): RelationKey {
    RelationKey(source, naming.fold(relation.kind), target, naming.fold(relation.fact))
  }

  /** `reduce(acc = old, x IN more | CASE WHEN x IN acc THEN acc ELSE acc + [x] END)`. */
  function Merge(old': seq<string>, more: seq<string>): seq<string>
    decreases |more|
  {
    if more == [] then old'
    else Merge(if more[0] in old' then old' else old' + [more[0]], more[1..])
  }

  /** `UPSERT_ENTITY_QUERY`: matches nothing, and so does nothing, when the chunk is missing. */
  function UpsertEntity(
      naming: Naming, store: Store, chunk: string, id: Id, name: string, entityType: string, aliases: seq<string>): Store
  {
    if chunk !in store.chunks then store
    else
      var normalized := Norms(naming.norm, aliases);
      var entity :=
        if id in store.entities then
          var e := store.entities[id];
          Entity(name, entityType, naming.norm(name), Merge(e.aliases, aliases), Merge(e.normalizedAliases, normalized))
        else Entity(name, entityType, naming.norm(name), aliases, normalized);
      store.(entities := store.entities[id := entity])
  }

  /** `UPSERT_RELATION_QUERY`: silently does nothing when an endpoint is missing; a relation already
      there under the key is overwritten. */
  function UpsertRelation(naming: Naming, store: Store, source: Id, target: Id, relation: Relation): Store {
    if source in store.entities && target in store.entities then
      store.(relations := store.relations[KeyOfRelation(naming, source, target, relation) := relation])
    else store
  }

  predicate FindMatches(entity: Entity, entityType: string, normalized: seq<string>) {
    && entity.entityType == entityType
    && (entity.normalizedName in normalized || exists n <- entity.normalizedAliases :: n in normalized)
  }

  /** `_find_existing_entity` may answer with any entity that matches (`LIMIT 1`), and with none only
      when there is none or there is nothing to look for. */
  predicate FindAnswers(store: Store, entityType: string, normalized: seq<string>, pick: Option<Id>) {
    if normalized == [] then pick == None
    else match pick
      case Some(id) => id in store.entities && FindMatches(store.entities[id], entityType, normalized)
      case None => forall id <- store.entities :: !FindMatches(store.entities[id], entityType, normalized)
  }

  // ------------------------------------------------------------------
  // Workers
  // ------------------------------------------------------------------

  datatype RelationSpec = RelationSpec(
    sourceName: string, sourceType: string, targetName: string, targetType: string, kind: string, fact: string)

  datatype Task = StoreChunk | Mention(entityType: string, name: string, aliases: seq<string>) | Relate(relation: RelationSpec)

  datatype Existing = Existing(id: Id, name: string, aliases: seq<string>)

  /** Between the find and the upsert of an entity a worker remembers what it found. */
  datatype Stage = Idle | Searched(existing: Option<Existing>)

  datatype StoredRelation = StoredRelation(relation: RelationSpec, source: Id, target: Id)

  /** `ends` are the endpoints of the relation at hand resolved so far; `stored` records the
      relation upserts that were sent. */
  datatype Worker = Worker(
    chunk: string, todo: seq<Task>, lookup: map<(string, string), Id>, stage: Stage, ends: seq<Id>,
    stored: seq<StoredRelation>)

  /** The entity a task is about: its type, its name, and further aliases. */
  datatype Wanted = Wanted(entityType: string, name: string, more: seq<string>)

  function WantedBy(task: Task, resolved: nat): Wanted {
    match task
    case StoreChunk => Wanted("", "", [])
    case Mention(entityType, name, aliases) => Wanted(entityType, name, aliases)
    case Relate(r) =>
      if resolved == 0 then Wanted(r.sourceType, r.sourceName, []) else Wanted(r.targetType, r.targetName, [])
  }

  /** What is upserted for a wanted entity, given what the search found. */
  datatype Plan = Plan(id: Id, name: string, aliases: seq<string>)

  function PlanFor(naming: Naming, wanted: Wanted, existing: Option<Existing>): Plan {
    var aliases := Collect(naming.norm, wanted.name, wanted.more);
    var existingAliases := if existing.Some? then existing.value.aliases else [];
    var existingName := if existing.Some? then [existing.value.name] else [];
    var finalName := Preferred(naming, [wanted.name] + existingName + aliases + existingAliases);
    Plan(if existing.Some? then existing.value.id else EntityKey(naming, wanted.entityType, finalName),
         finalName, Collect(naming.norm, finalName, aliases + existingAliases))
  }

  function Register(lookup: map<(string, string), Id>, entityType: string, normalized: seq<string>, id: Id)
    : map<(string, string), Id>
    decreases |normalized|
  {
    if normalized == [] then lookup
    else Register(lookup[(entityType, normalized[0]) := id], entityType, normalized[1..], id)
  }

  /** The first alias the worker already knows. */
  function Hit(lookup: map<(string, string), Id>, entityType: string, normalized: seq<string>): Option<Id> {
    if normalized == [] then None
    else if (entityType, normalized[0]) in lookup then Some(lookup[(entityType, normalized[0])])
    else Hit(lookup, entityType, normalized[1..])
  }

  function WantedNorms(naming: Naming, wanted: Wanted): seq<string> {
    Norms(naming.norm, Collect(naming.norm, wanted.name, wanted.more))
  }

  /** Only the endpoints of relations are looked up among the entities of the same chunk. */
  function Known(naming: Naming, worker: Worker): Option<Id>
    requires worker.todo != []
  {
    var wanted := WantedBy(worker.todo[0], |worker.ends|);
    if worker.todo[0].Relate? then Hit(worker.lookup, wanted.entityType, WantedNorms(naming, wanted)) else None
  }

  /** Whether the next step of the worker is a search. */
  predicate Searches(naming: Naming, worker: Worker)
    requires worker.todo != []
  {
    && worker.stage.Idle? && !worker.todo[0].StoreChunk?
    && !(worker.todo[0].Relate? && |worker.ends| == 2) && Known(naming, worker).None?
  }

  predicate Enabled(naming: Naming, store: Store, worker: Worker, pick: Option<Id>) {
    && worker.todo != []
    && if Searches(naming, worker) then
         var wanted := WantedBy(worker.todo[0], |worker.ends|);
         FindAnswers(store, wanted.entityType, WantedNorms(naming, wanted), pick)
       else pick == None
  }

  /** An endpoint has been resolved, or an entity has been dealt with. */
  function Advance(worker: Worker, id: Id): Worker
    requires worker.todo != []
  {
    if worker.todo[0].Relate? then worker.(stage := Idle, ends := worker.ends + [id])
    else worker.(stage := Idle, todo := worker.todo[1..])
  }

  /** One query, or one look into the worker's own table. */
  function Act(naming: Naming, store: Store, worker: Worker, pick: Option<Id>): (Store, Worker)
    requires Enabled(naming, store, worker, pick)
  {
    var task := worker.todo[0];
    if task.StoreChunk? then (store.(chunks := store.chunks + {worker.chunk}), worker.(todo := worker.todo[1..]))
    else if task.Relate? && |worker.ends| == 2 then
      var r, source, target := task.relation, worker.ends[0], worker.ends[1];
      (UpsertRelation(naming, store, source, target, Relation(r.kind, r.fact)),
       worker.(todo := worker.todo[1..], ends := [], stored := worker.stored + [StoredRelation(r, source, target)]))
    else if worker.stage.Searched? then Save(naming, store, worker)
    else
      var known := Known(naming, worker);
      if known.Some? then (store, Advance(worker, known.value))
      else
        var existing :=
          if pick.Some? && pick.value in store.entities then
            var e := store.entities[pick.value];
            Some(Existing(pick.value, e.name, e.aliases))
          else None;
        (store, worker.(stage := Searched(existing)))
  }

  /** The upsert of an entity and what the worker notes down with it. */
  function Save(naming: Naming, store: Store, worker: Worker): (Store, Worker)
    requires worker.todo != [] && worker.stage.Searched?
  {
    var wanted := WantedBy(worker.todo[0], |worker.ends|);
    var plan := PlanFor(naming, wanted, worker.stage.existing);
    var lookup := Register(worker.lookup, wanted.entityType, Norms(naming.norm, plan.aliases), plan.id);
    (UpsertEntity(naming, store, worker.chunk, plan.id, plan.name, wanted.entityType, plan.aliases),
     Advance(worker.(lookup := lookup), plan.id))
  }

  // ------------------------------------------------------------------
  // Runs of all workers
  // ------------------------------------------------------------------

  datatype Job = Job(chunk: string, mentions: seq<Task>, relations: seq<RelationSpec>)

  datatype System = System(store: Store, workers: seq<Worker>)

  datatype Event = Event(worker: nat, pick: Option<Id>)

  function RelateAll(relations: seq<RelationSpec>): seq<Task> {
    if relations == [] then [] else [Relate(relations[0])] + RelateAll(relations[1..])
  }

  predicate AllMentions(tasks: seq<Task>) {
    forall t <- tasks :: t.Mention?
  }

  function Program(job: Job): seq<Task> {
    [StoreChunk] + job.mentions + RelateAll(job.relations)
  }

  function Workers(jobs: seq<Job>): seq<Worker> {
    if jobs == [] then []
    else [Worker(jobs[0].chunk, Program(jobs[0]), map[], Idle, [], [])] + Workers(jobs[1..])
  }

  predicate CanStep(naming: Naming, sys: System, event: Event) {
    event.worker < |sys.workers| && Enabled(naming, sys.store, sys.workers[event.worker], event.pick)
  }

  function Step(naming: Naming, sys: System, event: Event): System
    requires CanStep(naming, sys, event)
  {
    var (store, worker) := Act(naming, sys.store, sys.workers[event.worker], event.pick);
    System(store, sys.workers[event.worker := worker])
  }

  /** The state after the events in order, or None when one of them cannot happen. */
  function Run(naming: Naming, sys: System, events: seq<Event>): Option<System>
    decreases |events|
  {
    if events == [] then Some(sys)
    else if CanStep(naming, sys, events[0]) then Run(naming, Step(naming, sys, events[0]), events[1..])
    else None
  }
}
