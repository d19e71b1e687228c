/** Under every interleaving of the chunk workers, every relation is stored, and stored between the
    right entities. */
module GraphPersistenceProofs {
  import opened Common
  import opened GraphIdentity
  import opened GraphPersistence

  // ------------------------------------------------------------------
  // Invariants
  // ------------------------------------------------------------------

  /** The key of an entity gives away its folded type, and the normalized aliases are, as a set, the
      normalized forms of the aliases. */
  ghost predicate EntityOk(naming: Naming, id: Id, e: Entity) {
    && id.foldedType == naming.fold(e.entityType)
    && GoodAliases(naming, e.aliases)
    && forall n :: n in e.normalizedAliases <==> n in Norms(naming.norm, e.aliases)
  }

  predicate GoodAliases(naming: Naming, aliases: seq<string>) {
    forall x <- aliases :: Trimmed(x) && naming.norm(x) != ""
  }

  /** The key of a relation gives away its folded type and fact. */
  predicate RelationOk(naming: Naming, key: RelationKey, relation: Relation) {
    key.foldedKind == naming.fold(relation.kind) && key.foldedFact == naming.fold(relation.fact)
  }

  ghost predicate StoreOk(naming: Naming, store: Store) {
    && (forall id <- store.entities :: EntityOk(naming, id, store.entities[id]))
    && forall k <- store.relations :: RelationOk(naming, k, store.relations[k])
  }

  /** The entity is there, has the type up to folding, and holds the normalized name; a name that
      normalizes to nothing is held by no entity. */
  predicate Resolved(naming: Naming, store: Store, id: Id, entityType: string, name: string) {
    && id in store.entities
    && id.foldedType == naming.fold(entityType)
    && (Canonical(naming.norm, name) in store.entities[id].normalizedAliases <==> Canonical(naming.norm, name) != "")
  }

  predicate Registered(naming: Naming, store: Store, id: Id, entityType: string, n: string) {
    && id in store.entities
    && id.foldedType == naming.fold(entityType)
    && n in store.entities[id].normalizedAliases
  }

  predicate LookupOk(naming: Naming, store: Store, lookup: map<(string, string), Id>) {
    forall k <- lookup :: Registered(naming, store, lookup[k], k.0, k.1)
  }

  predicate ExistingOk(naming: Naming, store: Store, existing: Existing, entityType: string) {
    && existing.id in store.entities && existing.id.foldedType == naming.fold(entityType)
    && GoodAliases(naming, existing.aliases)
  }

  /** The type and the fact asked for. */
  function TextOf(r: RelationSpec): Relation {
    Relation(r.kind, r.fact)
  }

  function KeyFor(naming: Naming, s: StoredRelation): RelationKey {
    KeyOfRelation(naming, s.source, s.target, TextOf(s.relation))
  }

  /** A relation with the folded type and fact is stored between the endpoints that were asked for. */
  predicate Correct(naming: Naming, store: Store, s: StoredRelation) {
    && KeyFor(naming, s) in store.relations
    && Resolved(naming, store, s.source, s.relation.sourceType, s.relation.sourceName)
    && Resolved(naming, store, s.target, s.relation.targetType, s.relation.targetName)
  }

  predicate EndsOk(naming: Naming, store: Store, worker: Worker) {
    if worker.todo != [] && worker.todo[0].Relate? then
      var r, ends := worker.todo[0].relation, worker.ends;
      && |ends| <= 2
      && (|ends| >= 1 ==> Resolved(naming, store, ends[0], r.sourceType, r.sourceName))
      && (|ends| == 2 ==> Resolved(naming, store, ends[1], r.targetType, r.targetName))
    else worker.ends == []
  }

  predicate StageOk(naming: Naming, store: Store, worker: Worker) {
    worker.stage.Searched? ==>
      && worker.todo != [] && !worker.todo[0].StoreChunk? && !(worker.todo[0].Relate? && |worker.ends| == 2)
      && (worker.stage.existing.Some? ==>
            ExistingOk(naming, store, worker.stage.existing.value, WantedBy(worker.todo[0], |worker.ends|).entityType))
  }

  predicate WorkerOk(naming: Naming, store: Store, worker: Worker) {
    && (worker.chunk in store.chunks || (worker.todo != [] && worker.todo[0].StoreChunk?))
    && LookupOk(naming, store, worker.lookup)
    && StageOk(naming, store, worker) && EndsOk(naming, store, worker)
    && forall s <- worker.stored :: Correct(naming, store, s)
  }

  ghost predicate SystemOk(naming: Naming, sys: System) {
    StoreOk(naming, sys.store) && forall w <- sys.workers :: WorkerOk(naming, sys.store, w)
  }

  // ------------------------------------------------------------------
  // Nothing is taken away
  // ------------------------------------------------------------------

  /** Chunks, entities, their aliases and the keys of relations only grow. */
  predicate Grows(before: Store, after: Store) {
    && before.chunks <= after.chunks && before.relations.Keys <= after.relations.Keys
    && forall id <- before.entities :: id in after.entities && EntityGrows(before.entities[id], after.entities[id])
  }

  predicate EntityGrows(before: Entity, after: Entity) {
    before.aliases <= after.aliases && before.normalizedAliases <= after.normalizedAliases
  }

  lemma {:induction false} GrowsFurther(a: Store, b: Store, c: Store)
    requires Grows(a, b) && Grows(b, c)
    ensures Grows(a, c)
  {
    forall id <- a.entities
      ensures id in c.entities && EntityGrows(a.entities[id], c.entities[id])
    {
      assert EntityGrows(a.entities[id], b.entities[id]) && EntityGrows(b.entities[id], c.entities[id]);
    }
  }

  lemma {:induction false} NoEmptyNorm(naming: Naming, aliases: seq<string>)
    requires GoodAliases(naming, aliases)
    ensures "" !in Norms(naming.norm, aliases)
  {
  }

  lemma {:induction false} ResolvedStays(naming: Naming, a: Store, b: Store, id: Id, entityType: string, name: string)
    requires Resolved(naming, a, id, entityType, name) && Grows(a, b) && StoreOk(naming, b)
    ensures Resolved(naming, b, id, entityType, name)
  {
    assert EntityGrows(a.entities[id], b.entities[id]) && EntityOk(naming, id, b.entities[id]);
    NoEmptyNorm(naming, b.entities[id].aliases);
  }

  lemma {:induction false} LookupStays(naming: Naming, a: Store, b: Store, lookup: map<(string, string), Id>)
    requires LookupOk(naming, a, lookup) && Grows(a, b)
    ensures LookupOk(naming, b, lookup)
  {
    forall k <- lookup
      ensures Registered(naming, b, lookup[k], k.0, k.1)
    {
      assert Registered(naming, a, lookup[k], k.0, k.1);
      assert EntityGrows(a.entities[lookup[k]], b.entities[lookup[k]]);
    }
  }

  lemma {:induction false} CorrectStays(naming: Naming, a: Store, b: Store, s: StoredRelation)
    requires Correct(naming, a, s) && Grows(a, b) && StoreOk(naming, b)
    ensures Correct(naming, b, s)
  {
    ResolvedStays(naming, a, b, s.source, s.relation.sourceType, s.relation.sourceName);
    ResolvedStays(naming, a, b, s.target, s.relation.targetType, s.relation.targetName);
  }

  lemma {:induction false} EndsStay(naming: Naming, a: Store, b: Store, worker: Worker)
    requires EndsOk(naming, a, worker) && Grows(a, b) && StoreOk(naming, b)
    ensures EndsOk(naming, b, worker)
  {
    if worker.todo != [] && worker.todo[0].Relate? {
      var r, ends := worker.todo[0].relation, worker.ends;
      if |ends| >= 1 {
        ResolvedStays(naming, a, b, ends[0], r.sourceType, r.sourceName);
      }
      if |ends| == 2 {
        ResolvedStays(naming, a, b, ends[1], r.targetType, r.targetName);
      }
    }
  }

  /** A worker is not disturbed by the steps of the others. */
  lemma {:induction false} WorkerStays(naming: Naming, a: Store, b: Store, worker: Worker)
    requires WorkerOk(naming, a, worker) && Grows(a, b) && StoreOk(naming, b)
    ensures WorkerOk(naming, b, worker)
  {
    LookupStays(naming, a, b, worker.lookup);
    EndsStay(naming, a, b, worker);
    forall s <- worker.stored
      ensures Correct(naming, b, s)
    {
      CorrectStays(naming, a, b, s);
    }
  }

  // ------------------------------------------------------------------
  // The entity upsert
  // ------------------------------------------------------------------

  lemma {:induction false} MergeIsUnion(acc: seq<string>, more: seq<string>)
    ensures acc <= Merge(acc, more)
    ensures forall x :: x in Merge(acc, more) <==> x in acc || x in more
    decreases |more|
  {
    if more != [] {
      var next := if more[0] in acc then acc else acc + [more[0]];
      MergeIsUnion(next, more[1..]);
      assert forall x :: x in more <==> x == more[0] || x in more[1..];
    }
  }

  lemma {:induction false} NormsMembers(norm: string -> string, names: seq<string>, n: string)
    ensures n in Norms(norm, names) <==> exists x <- names :: norm(x) == n
  {
  }

  lemma {:induction false} NormsOfMerge(norm: string -> string, old': seq<string>, more: seq<string>, n: string)
    ensures n in Norms(norm, Merge(old', more)) <==> n in Norms(norm, old') || n in Norms(norm, more)
  {
    MergeIsUnion(old', more);
    NormsMembers(norm, Merge(old', more), n);
    NormsMembers(norm, old', n);
    NormsMembers(norm, more, n);
  }

  /** An upsert in a stored chunk keeps the store in order, takes nothing away, and leaves the entity
      with all the normalized forms of the aliases given. */
  lemma {:induction false} UpsertKeepsStore(
      naming: Naming, store: Store, chunk: string, id: Id, name: string, entityType: string, aliases: seq<string>)
    requires StoreOk(naming, store) && chunk in store.chunks
    requires id.foldedType == naming.fold(entityType) && GoodAliases(naming, aliases)
    ensures var after := UpsertEntity(naming, store, chunk, id, name, entityType, aliases);
            && StoreOk(naming, after) && Grows(store, after) && id in after.entities
            && (forall n <- Norms(naming.norm, aliases) :: n in after.entities[id].normalizedAliases)
            && after.entities[id].name == name && after.entities[id].entityType == entityType
            && after.entities[id].normalizedName == naming.norm(name)
            && after.relations == store.relations && after.chunks == store.chunks
            && forall other <- store.entities :: other == id || after.entities[other] == store.entities[other]
  {
    var after := UpsertEntity(naming, store, chunk, id, name, entityType, aliases);
    if id in store.entities {
      var e := store.entities[id];
      assert EntityOk(naming, id, e);
      MergeIsUnion(e.aliases, aliases);
      MergeIsUnion(e.normalizedAliases, Norms(naming.norm, aliases));
      forall n
        ensures n in after.entities[id].normalizedAliases <==> n in Norms(naming.norm, after.entities[id].aliases)
      {
        NormsOfMerge(naming.norm, e.aliases, aliases, n);
      }
    }
    forall other <- after.entities
      ensures EntityOk(naming, other, after.entities[other])
    {
      if other != id {
        assert EntityOk(naming, other, store.entities[other]);
      }
    }
  }

  /** The aliases of a plan are in order, and hold the wanted name unless it normalizes to nothing. */
  lemma {:induction false} PlanHoldsName(naming: Naming, wanted: Wanted, existing: Option<Existing>)
    ensures var plan := PlanFor(naming, wanted, existing);
            && GoodAliases(naming, plan.aliases)
            && (Canonical(naming.norm, wanted.name) in Norms(naming.norm, plan.aliases)
                <==> Canonical(naming.norm, wanted.name) != "")
  {
    var n := Canonical(naming.norm, wanted.name);
    var plan := PlanFor(naming, wanted, existing);
    var aliases := Collect(naming.norm, wanted.name, wanted.more);
    var existingAliases := if existing.Some? then existing.value.aliases else [];
    UniqueIsUnique(naming.norm, [wanted.name] + wanted.more, {});
    UniqueIsUnique(naming.norm, [plan.name] + (aliases + existingAliases), {});
    UniqueIsExact(naming.norm, [wanted.name] + wanted.more, {}, n);
    AmongKept(naming.norm, aliases, n);
    AmongConcat(naming.norm, aliases, existingAliases, n);
    AmongConcat(naming.norm, [plan.name], aliases + existingAliases, n);
    UniqueIsExact(naming.norm, [plan.name] + (aliases + existingAliases), {}, n);
  }

  lemma {:induction false} RegisterKeepsLookup(
      naming: Naming, store: Store, lookup: map<(string, string), Id>, entityType: string, normalized: seq<string>, id: Id)
    requires LookupOk(naming, store, lookup)
    requires forall n <- normalized :: Registered(naming, store, id, entityType, n)
    ensures LookupOk(naming, store, Register(lookup, entityType, normalized, id))
    decreases |normalized|
  {
    if normalized != [] {
      assert Registered(naming, store, id, entityType, normalized[0]);
      RegisterKeepsLookup(naming, store, lookup[(entityType, normalized[0]) := id], entityType, normalized[1..], id);
    }
  }

  /** A hit in the worker's own table is the entity wanted. */
  lemma {:induction false} HitIsRegistered(
      naming: Naming, store: Store, lookup: map<(string, string), Id>, entityType: string, normalized: seq<string>)
    requires LookupOk(naming, store, lookup) && Hit(lookup, entityType, normalized).Some?
    ensures exists n <- normalized :: Registered(naming, store, Hit(lookup, entityType, normalized).value, entityType, n)
  {
    if (entityType, normalized[0]) !in lookup {
      HitIsRegistered(naming, store, lookup, entityType, normalized[1..]);
    }
  }

  /** The name of an endpoint has at most one normalized form to look up. */
  lemma {:induction false} EndpointNorms(naming: Naming, name: string, n: string)
    requires n in Norms(naming.norm, Collect(naming.norm, name, []))
    ensures n == Canonical(naming.norm, name) && n != ""
  {
    UniqueIsExact(naming.norm, [name], {}, n);
    assert [name] + [] == [name];
  }

  // ------------------------------------------------------------------
  // One step
  // ------------------------------------------------------------------

  /** A resolved endpoint, or an entity dealt with, leaves the worker in order. */
  lemma {:induction false} AdvanceKeepsWorker(naming: Naming, store: Store, worker: Worker, id: Id)
    requires WorkerOk(naming, store, worker.(stage := Idle)) && worker.chunk in store.chunks
    requires worker.todo != [] && !worker.todo[0].StoreChunk? && !(worker.todo[0].Relate? && |worker.ends| == 2)
    requires var wanted := WantedBy(worker.todo[0], |worker.ends|);
             worker.todo[0].Relate? ==> Resolved(naming, store, id, wanted.entityType, wanted.name)
    ensures WorkerOk(naming, store, Advance(worker, id))
  {
  }

  lemma {:induction false} KnownIsResolved(naming: Naming, store: Store, worker: Worker)
    requires StoreOk(naming, store) && WorkerOk(naming, store, worker)
    requires worker.todo != [] && Known(naming, worker).Some?
    ensures var wanted := WantedBy(worker.todo[0], |worker.ends|);
            Resolved(naming, store, Known(naming, worker).value, wanted.entityType, wanted.name)
  {
    var wanted := WantedBy(worker.todo[0], |worker.ends|);
    var normalized := WantedNorms(naming, wanted);
    HitIsRegistered(naming, store, worker.lookup, wanted.entityType, normalized);
    var n :| n in normalized && Registered(naming, store, Known(naming, worker).value, wanted.entityType, n);
    EndpointNorms(naming, wanted.name, n);
  }

  /** What a search answers has the type that was asked for. */
  lemma {:induction false} SearchKeepsWorker(naming: Naming, store: Store, worker: Worker, pick: Option<Id>)
    requires StoreOk(naming, store) && WorkerOk(naming, store, worker)
    requires Enabled(naming, store, worker, pick) && Searches(naming, worker)
    ensures WorkerOk(naming, store, Act(naming, store, worker, pick).1)
  {
    if pick.Some? && pick.value in store.entities {
      assert EntityOk(naming, pick.value, store.entities[pick.value]);
    }
  }

  lemma {:induction false} SaveKeeps(naming: Naming, store: Store, worker: Worker)
    requires StoreOk(naming, store) && WorkerOk(naming, store, worker)
    requires worker.todo != [] && worker.stage.Searched?
    ensures var (after, worker') := Save(naming, store, worker);
            StoreOk(naming, after) && Grows(store, after) && WorkerOk(naming, after, worker')
  {
    var wanted := WantedBy(worker.todo[0], |worker.ends|);
    var plan := PlanFor(naming, wanted, worker.stage.existing);
    var normalized := Norms(naming.norm, plan.aliases);
    PlanHoldsName(naming, wanted, worker.stage.existing);
    assert plan.id.foldedType == naming.fold(wanted.entityType);
    UpsertKeepsStore(naming, store, worker.chunk, plan.id, plan.name, wanted.entityType, plan.aliases);
    var after := UpsertEntity(naming, store, worker.chunk, plan.id, plan.name, wanted.entityType, plan.aliases);
    WorkerStays(naming, store, after, worker.(stage := Idle));
    RegisterKeepsLookup(naming, after, worker.lookup, wanted.entityType, normalized, plan.id);
    assert EntityOk(naming, plan.id, after.entities[plan.id]);
    NoEmptyNorm(naming, after.entities[plan.id].aliases);
    var registered := worker.(lookup := Register(worker.lookup, wanted.entityType, normalized, plan.id));
    AdvanceKeepsWorker(naming, after, registered, plan.id);
  }

  lemma {:induction false} RelateKeeps(naming: Naming, store: Store, worker: Worker)
    requires StoreOk(naming, store) && WorkerOk(naming, store, worker)
    requires worker.todo != [] && worker.todo[0].Relate? && |worker.ends| == 2 && worker.stage.Idle?
    requires Enabled(naming, store, worker, None)
    ensures var (after, worker') := Act(naming, store, worker, None);
            StoreOk(naming, after) && Grows(store, after) && WorkerOk(naming, after, worker')
  {
    var r := worker.todo[0].relation;
    var (after, worker') := Act(naming, store, worker, None);
    assert after == UpsertRelation(naming, store, worker.ends[0], worker.ends[1], TextOf(r));
    assert Grows(store, after);
    WorkerStays(naming, store, after, worker);
    assert Correct(naming, after, StoredRelation(r, worker.ends[0], worker.ends[1]));
  }

  /** A step keeps the store and the worker in order and takes nothing away. */
  lemma {:induction false} ActKeeps(naming: Naming, store: Store, worker: Worker, pick: Option<Id>)
    requires StoreOk(naming, store) && WorkerOk(naming, store, worker) && Enabled(naming, store, worker, pick)
    ensures var (after, worker') := Act(naming, store, worker, pick);
            StoreOk(naming, after) && Grows(store, after) && WorkerOk(naming, after, worker')
  {
    var task := worker.todo[0];
    if task.StoreChunk? {
      var after := store.(chunks := store.chunks + {worker.chunk});
      assert Grows(store, after) && StoreOk(naming, after);
      WorkerStays(naming, store, after, worker);
    } else if task.Relate? && |worker.ends| == 2 {
      RelateKeeps(naming, store, worker);
    } else if worker.stage.Searched? {
      SaveKeeps(naming, store, worker);
    } else if Known(naming, worker).Some? {
      KnownIsResolved(naming, store, worker);
      AdvanceKeepsWorker(naming, store, worker, Known(naming, worker).value);
    } else {
      SearchKeepsWorker(naming, store, worker, pick);
    }
  }

  // ------------------------------------------------------------------
  // Bookkeeping and progress
  // ------------------------------------------------------------------

  function Asked(todo: seq<Task>): seq<RelationSpec> {
    if todo == [] then []
    else (if todo[0].Relate? then [todo[0].relation] else []) + Asked(todo[1..])
  }

  function Done(stored: seq<StoredRelation>): seq<RelationSpec> {
    if stored == [] then [] else Done(stored[..|stored| - 1]) + [stored[|stored| - 1].relation]
  }

  /** The relations a worker has stored and those it has yet to store. */
  function Books(worker: Worker): seq<RelationSpec> {
    Done(worker.stored) + Asked(worker.todo)
  }

  lemma {:induction false} ActKeepsBooks(naming: Naming, store: Store, worker: Worker, pick: Option<Id>)
    requires Enabled(naming, store, worker, pick)
    ensures Books(Act(naming, store, worker, pick).1) == Books(worker)
  {
    var worker' := Act(naming, store, worker, pick).1;
    if worker.todo[0].Relate? && |worker.ends| == 2 {
      var r := worker.todo[0].relation;
      assert worker'.stored[..|worker'.stored| - 1] == worker.stored;
      assert Done(worker.stored) + [r] + Asked(worker.todo[1..]) == Done(worker.stored) + ([r] + Asked(worker.todo[1..]));
    }
  }

  function Cost(todo: seq<Task>): nat {
    if todo == [] then 0
    else (match todo[0] case StoreChunk => 1 case Mention(_, _, _) => 2 case Relate(_) => 5) + Cost(todo[1..])
  }

  /** A bound on the steps a worker still takes. */
  function StepsLeft(worker: Worker): int {
    Cost(worker.todo) - 2 * |worker.ends| - (if worker.stage.Searched? then 1 else 0)
  }

  lemma {:induction false} EveryStepCounts(naming: Naming, store: Store, worker: Worker, pick: Option<Id>)
    requires WorkerOk(naming, store, worker) && Enabled(naming, store, worker, pick)
    ensures 0 < StepsLeft(worker) && StepsLeft(Act(naming, store, worker, pick).1) < StepsLeft(worker)
  {
  }

  /** A worker with something left to do can always take a step. */
  lemma {:induction false} NeverStuck(naming: Naming, store: Store, worker: Worker) returns (pick: Option<Id>)
    requires worker.todo != []
    ensures Enabled(naming, store, worker, pick)
  {
    pick := None;
    if Searches(naming, worker) {
      var wanted := WantedBy(worker.todo[0], |worker.ends|);
      var normalized := WantedNorms(naming, wanted);
      if normalized != [] && exists id <- store.entities :: FindMatches(store.entities[id], wanted.entityType, normalized) {
        var id :| id in store.entities && FindMatches(store.entities[id], wanted.entityType, normalized);
        pick := Some(id);
      }
    }
  }

  // ------------------------------------------------------------------
  // Whole runs
  // ------------------------------------------------------------------

  function StepsLeftOf(workers: seq<Worker>): int {
    if workers == [] then 0 else StepsLeft(workers[0]) + StepsLeftOf(workers[1..])
  }

  lemma {:induction false} StepsLeftUpdate(workers: seq<Worker>, i: nat, worker: Worker)
    requires i < |workers|
    ensures StepsLeftOf(workers[i := worker]) == StepsLeftOf(workers) - StepsLeft(workers[i]) + StepsLeft(worker)
  {
    if i > 0 {
      assert workers[i := worker][1..] == workers[1..][i - 1 := worker];
      StepsLeftUpdate(workers[1..], i - 1, worker);
    }
  }

  /** The workers stand for the same relations as before. */
  predicate SameBooks(a: seq<Worker>, b: seq<Worker>) {
    |a| == |b| && forall i | 0 <= i < |a| :: Books(a[i]) == Books(b[i])
  }

  lemma {:induction false} StepKeepsSystem(naming: Naming, sys: System, event: Event)
    requires SystemOk(naming, sys) && CanStep(naming, sys, event)
    ensures var after := Step(naming, sys, event);
            && SystemOk(naming, after) && Grows(sys.store, after.store) && SameBooks(sys.workers, after.workers)
            && StepsLeftOf(after.workers) < StepsLeftOf(sys.workers)
  {
    var i := event.worker;
    var worker := sys.workers[i];
    var (store, worker') := Act(naming, sys.store, worker, event.pick);
    ActKeeps(naming, sys.store, worker, event.pick);
    ActKeepsBooks(naming, sys.store, worker, event.pick);
    EveryStepCounts(naming, sys.store, worker, event.pick);
    StepsLeftUpdate(sys.workers, i, worker');
    forall w <- sys.workers[i := worker']
      ensures WorkerOk(naming, store, w)
    {
      if w != worker' {
        WorkerStays(naming, sys.store, store, w);
      }
    }
  }

  lemma {:induction false} RunKeepsSystem(naming: Naming, sys: System, events: seq<Event>)
    requires SystemOk(naming, sys) && Run(naming, sys, events).Some?
    ensures var after := Run(naming, sys, events).value;
            && SystemOk(naming, after) && Grows(sys.store, after.store) && SameBooks(sys.workers, after.workers)
            && |events| + StepsLeftOf(after.workers) <= StepsLeftOf(sys.workers)
    decreases |events|
  {
    if events != [] {
      var next := Step(naming, sys, events[0]);
      StepKeepsSystem(naming, sys, events[0]);
      RunKeepsSystem(naming, next, events[1..]);
      GrowsFurther(sys.store, next.store, Run(naming, sys, events).value.store);
    } else {
      forall id <- sys.store.entities
        ensures EntityGrows(sys.store.entities[id], sys.store.entities[id])
      {
      }
    }
  }

  predicate Jobs(jobs: seq<Job>) {
    jobs == [] || (AllMentions(jobs[0].mentions) && Jobs(jobs[1..]))
  }

  lemma {:induction false} AskedOfRelations(relations: seq<RelationSpec>)
    ensures Asked(RelateAll(relations)) == relations
  {
    if relations != [] {
      AskedOfRelations(relations[1..]);
      assert RelateAll(relations)[1..] == RelateAll(relations[1..]);
    }
  }

  lemma {:induction false} AskedAfterMentions(mentions: seq<Task>, todo: seq<Task>)
    requires AllMentions(mentions)
    ensures Asked(mentions + todo) == Asked(todo)
  {
    if mentions == [] {
      assert mentions + todo == todo;
    } else {
      assert mentions[0].Mention?;
      assert (mentions + todo)[1..] == mentions[1..] + todo;
      AskedAfterMentions(mentions[1..], todo);
    }
  }

  lemma {:induction false} AskedByProgram(job: Job)
    requires AllMentions(job.mentions)
    ensures Asked(Program(job)) == job.relations
  {
    assert Program(job)[1..] == job.mentions + RelateAll(job.relations);
    AskedAfterMentions(job.mentions, RelateAll(job.relations));
    AskedOfRelations(job.relations);
  }

  lemma {:induction false} WorkersStartOk(naming: Naming, store: Store, jobs: seq<Job>)
    requires Jobs(jobs)
    ensures |Workers(jobs)| == |jobs|
    ensures forall w <- Workers(jobs) :: WorkerOk(naming, store, w)
    ensures forall i | 0 <= i < |jobs| :: Books(Workers(jobs)[i]) == jobs[i].relations
    decreases |jobs|
  {
    if jobs != [] {
      var job := jobs[0];
      AskedByProgram(job);
      WorkersStartOk(naming, store, jobs[1..]);
      assert forall i | 0 < i < |jobs| :: Workers(jobs)[i] == Workers(jobs[1..])[i - 1];
    }
  }

  /** However the workers interleave, and whichever matching entity each search answers with: every
      relation upsert found both endpoints, the upserts sent and still to send are those of the job,
      each once and in order, and for each one sent a relation of its folded type and fact still
      joins entities of the folded types and normalized names that were asked for. No entity, alias
      or relation key stored before is lost, and the run is no longer than the work there is. */
  lemma {:induction false} RelationsAreStored(naming: Naming, store: Store, jobs: seq<Job>, events: seq<Event>)
    requires StoreOk(naming, store) && Jobs(jobs)
    requires Run(naming, System(store, Workers(jobs)), events).Some?
    ensures var after := Run(naming, System(store, Workers(jobs)), events).value;
            && StoreOk(naming, after.store) && Grows(store, after.store)
            && |after.workers| == |jobs|
            && (forall i | 0 <= i < |jobs| ::
                  && (forall s <- after.workers[i].stored :: Correct(naming, after.store, s))
                  && Done(after.workers[i].stored) + Asked(after.workers[i].todo) == jobs[i].relations)
            && |events| + StepsLeftOf(after.workers) <= StepsLeftOf(Workers(jobs))
  {
    var sys := System(store, Workers(jobs));
    WorkersStartOk(naming, store, jobs);
    RunKeepsSystem(naming, sys, events);
    var after := Run(naming, sys, events).value;
    forall i | 0 <= i < |jobs|
      ensures (forall s <- after.workers[i].stored :: Correct(naming, after.store, s))
           && Done(after.workers[i].stored) + Asked(after.workers[i].todo) == jobs[i].relations
    {
      assert WorkerOk(naming, after.store, after.workers[i]);
      assert Books(sys.workers[i]) == Books(after.workers[i]);
    }
  }

  // ------------------------------------------------------------------
  // Types
  // ------------------------------------------------------------------

  /** No two of the types fold to the same text. */
  predicate Distinct(naming: Naming, types: set<string>) {
    forall t <- types, u <- types :: naming.fold(t) == naming.fold(u) ==> t == u
  }

  predicate TypedStore(store: Store, types: set<string>) {
    forall id <- store.entities :: store.entities[id].entityType in types
  }

  predicate TypedTask(task: Task, types: set<string>) {
    match task
    case StoreChunk => true
    case Mention(t, _, _) => t in types
    case Relate(r) => r.sourceType in types && r.targetType in types
  }

  predicate TypedWorker(worker: Worker, types: set<string>) {
    && (forall t <- worker.todo :: TypedTask(t, types))
    && forall s <- worker.stored :: TypedTask(Relate(s.relation), types)
  }

  predicate TypedSystem(sys: System, types: set<string>) {
    TypedStore(sys.store, types) && forall w <- sys.workers :: TypedWorker(w, types)
  }

  lemma {:induction false} ActKeepsTypes(naming: Naming, store: Store, worker: Worker, pick: Option<Id>,
      types: set<string>)
    requires Enabled(naming, store, worker, pick) && TypedStore(store, types) && TypedWorker(worker, types)
    ensures TypedStore(Act(naming, store, worker, pick).0, types) && TypedWorker(Act(naming, store, worker, pick).1, types)
  {
    assert TypedTask(worker.todo[0], types);
  }

  lemma {:induction false} RunKeepsTypes(naming: Naming, sys: System, events: seq<Event>, types: set<string>)
    requires TypedSystem(sys, types) && Run(naming, sys, events).Some?
    ensures TypedSystem(Run(naming, sys, events).value, types)
    decreases |events|
  {
    if events != [] {
      ActKeepsTypes(naming, sys.store, sys.workers[events[0].worker], events[0].pick, types);
      RunKeepsTypes(naming, Step(naming, sys, events[0]), events[1..], types);
    }
  }

  /** When no two types in use fold to the same text, the endpoints have the very types asked for. */
  lemma {:induction false} EndpointsHaveTheirTypes(
      naming: Naming, store: Store, jobs: seq<Job>, events: seq<Event>, types: set<string>, i: nat, s: StoredRelation)
    requires StoreOk(naming, store) && Jobs(jobs) && Distinct(naming, types)
    requires TypedSystem(System(store, Workers(jobs)), types)
    requires Run(naming, System(store, Workers(jobs)), events).Some?
    requires var after := Run(naming, System(store, Workers(jobs)), events).value;
             i < |after.workers| && s in after.workers[i].stored
    ensures var entities := Run(naming, System(store, Workers(jobs)), events).value.store.entities;
            && s.source in entities && entities[s.source].entityType == s.relation.sourceType
            && s.target in entities && entities[s.target].entityType == s.relation.targetType
  {
    var sys := System(store, Workers(jobs));
    var after := Run(naming, sys, events).value;
    RelationsAreStored(naming, store, jobs, events);
    RunKeepsTypes(naming, sys, events, types);
    assert Correct(naming, after.store, s);
    assert EntityOk(naming, s.source, after.store.entities[s.source]);
    assert EntityOk(naming, s.target, after.store.entities[s.target]);
    assert TypedWorker(after.workers[i], types) && TypedTask(Relate(s.relation), types);
  }

  /** An entity of its own: what is stored for a name that no search finds. */
  function Fresh(naming: Naming, entityType: string, name: string): Entity {
    Entity(Strip(name), entityType, naming.norm(Strip(name)), [Strip(name)], [naming.norm(Strip(name))])
  }

  lemma {:induction false} UniqueOfOne(norm: string -> string, name: string)
    requires Canonical(norm, name) != ""
    ensures Unique(norm, [name], {}) == [Strip(name)]
    ensures Unique(norm, [name, Strip(name)], {}) == [Strip(name)]
    ensures Unique(norm, [Strip(name), Strip(name)], {}) == [Strip(name)]
  {
    StripIdempotent(name);
    var n := Canonical(norm, name);
    assert [name, Strip(name)][1..] == [Strip(name)] && [Strip(name), Strip(name)][1..] == [Strip(name)];
    assert [Strip(name)][1..] == [] && [name][1..] == [];
    assert Unique(norm, [Strip(name)], {} + {n}) == [];
  }

  lemma {:induction false} PlanOfOne(naming: Naming, entityType: string, name: string)
    requires Canonical(naming.norm, name) != ""
    ensures PlanFor(naming, Wanted(entityType, name, []), None)
         == Plan(EntityKey(naming, entityType, Strip(name)), Strip(name), [Strip(name)])
  {
    UniqueOfOne(naming.norm, name);
    var aliases := Collect(naming.norm, name, []);
    assert [name] + [] == [name] && [name] + [] + aliases + [] == [name, Strip(name)];
    assert [Strip(name)] + (aliases + []) == [Strip(name), Strip(name)];
    var values := Unique(naming.norm, [name, Strip(name)], {});
    assert values == [Strip(name)] && values[1..] == [];
    assert FirstCjk(naming.cjk, values[1..]) == None;
  }

  /** One more step of the only worker. */
  lemma {:induction false} SoloStep(naming: Naming, start: System, events: seq<Event>, store: Store, worker: Worker)
    requires Run(naming, start, events) == Some(System(store, [worker])) && Enabled(naming, store, worker, None)
    ensures var (store', worker') := Act(naming, store, worker, None);
            Run(naming, start, events + [Event(0, None)]) == Some(System(store', [worker']))
    decreases |events|
  {
    if events == [] {
      assert [worker][0 := Act(naming, store, worker, None).1] == [Act(naming, store, worker, None).1];
      assert (events + [Event(0, None)])[1..] == [];
    } else {
      assert (events + [Event(0, None)])[1..] == events[1..] + [Event(0, None)];
      SoloStep(naming, Step(naming, start, events[0]), events[1..], store, worker);
    }
  }

  /** An entity that no search finds is stored under its key, or takes over what is stored there
      under the same single name. */
  lemma {:induction false} MentionStored(
      naming: Naming, start: System, events: seq<Event>, store: Store, worker: Worker, entityType: string, name: string)
    requires Run(naming, start, events) == Some(System(store, [worker])) && Canonical(naming.norm, name) != ""
    requires worker.todo != [] && worker.todo[0] == Mention(entityType, name, [])
    requires worker.stage.Idle? && worker.ends == [] && worker.chunk in store.chunks
    requires forall id <- store.entities :: store.entities[id].entityType != entityType
    requires var id := EntityKey(naming, entityType, Strip(name));
             id in store.entities ==>
               store.entities[id] == Fresh(naming, store.entities[id].entityType, name)
    ensures var id := EntityKey(naming, entityType, Strip(name));
            Run(naming, start, events + [Event(0, None), Event(0, None)])
            == Some(System(store.(entities := store.entities[id := Fresh(naming, entityType, name)]),
                           [worker.(todo := worker.todo[1..],
                                    lookup := worker.lookup[(entityType, naming.norm(Strip(name))) := id])]))
  {
    PlanOfOne(naming, entityType, name);
    SoloStep(naming, start, events, store, worker);
    var searched := worker.(stage := Searched(None));
    assert Act(naming, store, worker, None) == (store, searched);
    SoloStep(naming, start, events + [Event(0, None)], store, searched);
    assert events + [Event(0, None)] + [Event(0, None)] == events + [Event(0, None), Event(0, None)];
    RegisterOne(worker.lookup, entityType, naming.norm(Strip(name)), EntityKey(naming, entityType, Strip(name)));
    MergeSame(Strip(name));
    MergeSame(naming.norm(Strip(name)));
    NormsOfOne(naming.norm, Strip(name));
  }

  lemma {:induction false} RegisterOne(lookup: map<(string, string), Id>, entityType: string, n: string, id: Id)
    ensures Register(lookup, entityType, [n], id) == lookup[(entityType, n) := id]
  {
    assert [n][1..] == [];
  }

  lemma {:induction false} MergeSame(x: string)
    ensures Merge([x], [x]) == [x]
  {
    assert [x][1..] == [];
  }

  lemma {:induction false} NormsOfOne(norm: string -> string, x: string)
    ensures Norms(norm, [x]) == [norm(x)]
  {
  }

  /** Otherwise they need not: of any two types that fold to the same text, the entity of the one
      takes the type of the other when both are mentioned under one name, and a relation stored for
      the first then ends at an entity of the second. */
  lemma {:induction false} FoldedTypesMixUp(naming: Naming, t: string, u: string, name: string, kind: string)
    returns (job: Job, events: seq<Event>, s: StoredRelation)
    requires t != u && naming.fold(t) == naming.fold(u) && Canonical(naming.norm, name) != ""
    ensures AllMentions(job.mentions) && s.relation.sourceType == t
    ensures var start := System(Store({}, map[], map[]), Workers([job]));
            && Run(naming, start, events).Some?
            && var after := Run(naming, start, events).value;
               && |after.workers| == 1 && after.workers[0].todo == [] && s in after.workers[0].stored
               && s.source in after.store.entities && after.store.entities[s.source].entityType == u
  {
    var r := RelationSpec(name, t, name, t, kind, "");
    var id := EntityKey(naming, t, Strip(name));
    job := Job("chunk", [Mention(t, name, []), Mention(u, name, [])], [r]);
    s := StoredRelation(r, id, id);
    var before, worker := BothMentioned(naming, job, t, u, name);
    events := RelateKnown(naming, System(Store({}, map[], map[]), Workers([job])), before,
                          Store({"chunk"}, map[id := Fresh(naming, u, name)], map[]), worker, id);
  }

  /** The entities of both types end up under one key, with the type mentioned last. */
  lemma {:induction false} BothMentioned(naming: Naming, job: Job, t: string, u: string, name: string)
    returns (events: seq<Event>, worker: Worker)
    requires t != u && naming.fold(t) == naming.fold(u) && Canonical(naming.norm, name) != ""
    requires job.chunk == "chunk" && job.mentions == [Mention(t, name, []), Mention(u, name, [])] && |job.relations| == 1
    ensures var id, n := EntityKey(naming, t, Strip(name)), naming.norm(Strip(name));
            && worker == Worker("chunk", [Relate(job.relations[0])], map[(t, n) := id, (u, n) := id], Idle, [], [])
            && Run(naming, System(Store({}, map[], map[]), Workers([job])), events)
               == Some(System(Store({"chunk"}, map[id := Fresh(naming, u, name)], map[]), [worker]))
  {
    var start, step := System(Store({}, map[], map[]), Workers([job])), Event(0, None);
    var id, n := EntityKey(naming, t, Strip(name)), naming.norm(Strip(name));
    var todo := [Mention(t, name, []), Mention(u, name, []), Relate(job.relations[0])];
    var worker0 := Worker("chunk", [StoreChunk] + todo, map[], Idle, [], []);
    StartsWith(job);
    assert RelateAll(job.relations[1..]) == [] && Program(job) == worker0.todo;
    ChunkStored(naming, start, worker0, todo);

    var store1, worker1 := Store({"chunk"}, map[], map[]), worker0.(todo := todo);
    MentionStored(naming, start, [step], store1, worker1, t, name);
    assert worker1.todo[1..] == todo[1..] && [step] + [step, step] == [step, step, step];

    var store2 := store1.(entities := map[id := Fresh(naming, t, name)]);
    var worker2 := worker1.(todo := todo[1..], lookup := map[(t, n) := id]);
    MentionStored(naming, start, [step, step, step], store2, worker2, u, name);
    events := [step, step, step] + [step, step];
    worker := worker2.(todo := [Relate(job.relations[0])], lookup := map[(t, n) := id, (u, n) := id]);
    assert store2.entities[id := Fresh(naming, u, name)] == map[id := Fresh(naming, u, name)];
    assert worker2.lookup[(u, n) := id] == worker.lookup && worker2.todo[1..] == worker.todo;
  }

  lemma {:induction false} StartsWith(job: Job)
    ensures Workers([job]) == [Worker(job.chunk, Program(job), map[], Idle, [], [])]
  {
    assert [job][1..] == [];
  }

  /** A relation whose endpoints are both in the worker's table is stored in three steps. */
  lemma {:induction false} RelateKnown(
      naming: Naming, start: System, before: seq<Event>, store: Store, worker: Worker, id: Id)
    returns (events: seq<Event>)
    requires Run(naming, start, before) == Some(System(store, [worker]))
    requires worker.todo != [] && worker.todo[0].Relate? && worker.stage.Idle? && worker.ends == []
    requires var r := worker.todo[0].relation;
             && r.sourceName == r.targetName && r.sourceType == r.targetType
             && Canonical(naming.norm, r.sourceName) != ""
             && (r.sourceType, Canonical(naming.norm, r.sourceName)) in worker.lookup
             && worker.lookup[(r.sourceType, Canonical(naming.norm, r.sourceName))] == id
    requires id in store.entities
    ensures var r := worker.todo[0].relation;
            Run(naming, start, events)
            == Some(System(UpsertRelation(naming, store, id, id, TextOf(r)),
                           [worker.(todo := worker.todo[1..], stored := worker.stored + [StoredRelation(r, id, id)])]))
  {
    var r, step := worker.todo[0].relation, Event(0, None);
    var worker1, worker2 := worker.(ends := [id]), worker.(ends := [id, id]);
    EndpointKnown(naming, store, worker, id);
    assert worker.ends + [id] == worker1.ends;
    SoloStep(naming, start, before, store, worker);
    EndpointKnown(naming, store, worker1, id);
    assert worker1.ends + [id] == worker2.ends;
    SoloStep(naming, start, before + [step], store, worker1);
    SoloStep(naming, start, before + [step] + [step], store, worker2);
    assert worker2.(ends := []) == worker;
    events := before + [step] + [step] + [step];
  }

  lemma {:induction false} EndpointKnown(naming: Naming, store: Store, worker: Worker, id: Id)
    requires worker.todo != [] && worker.todo[0].Relate? && worker.stage.Idle? && |worker.ends| < 2
    requires var wanted := WantedBy(worker.todo[0], |worker.ends|);
             && Canonical(naming.norm, wanted.name) != ""
             && (wanted.entityType, Canonical(naming.norm, wanted.name)) in worker.lookup
             && worker.lookup[(wanted.entityType, Canonical(naming.norm, wanted.name))] == id
    ensures Enabled(naming, store, worker, None)
    ensures Act(naming, store, worker, None) == (store, worker.(ends := worker.ends + [id]))
  {
    var wanted := WantedBy(worker.todo[0], |worker.ends|);
    UniqueOfOne(naming.norm, wanted.name);
    assert [wanted.name] + [] == [wanted.name];
    NormsOfOne(naming.norm, Strip(wanted.name));
    assert WantedNorms(naming, wanted) == [Canonical(naming.norm, wanted.name)];
    assert Known(naming, worker) == Some(id);
  }

  lemma {:induction false} ChunkStored(naming: Naming, start: System, worker: Worker, todo: seq<Task>)
    requires worker.todo == [StoreChunk] + todo && start == System(Store({}, map[], map[]), [worker])
    ensures Run(naming, start, [Event(0, None)])
         == Some(System(Store({worker.chunk}, map[], map[]), [worker.(todo := todo)]))
  {
    SoloStep(naming, start, [], start.store, worker);
    assert worker.todo[1..] == todo;
    assert [] + [Event(0, None)] == [Event(0, None)];
    assert {} + {worker.chunk} == {worker.chunk};
  }
}
