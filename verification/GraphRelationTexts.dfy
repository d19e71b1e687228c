/** What a stored relation shows. Its key folds its type and its fact, so relations that differ only in
    what folding removes are one relation, which shows the text written last. */
module GraphRelationTexts {
  import opened Common
  import opened GraphIdentity
  import opened GraphPersistence
  import opened GraphPersistenceProofs

  predicate SameFold(naming: Naming, a: Relation, b: Relation) {
    naming.fold(a.kind) == naming.fold(b.kind) && naming.fold(a.fact) == naming.fold(b.fact)
  }

  /** No two of the texts fold to the same type and fact. */
  predicate Unambiguous(naming: Naming, texts: set<Relation>) {
    forall a <- texts, b <- texts :: SameFold(naming, a, b) ==> a == b
  }

  predicate StoreUses(store: Store, texts: set<Relation>) {
    forall k <- store.relations :: store.relations[k] in texts
  }

  predicate WorkerUses(worker: Worker, texts: set<Relation>) {
    && (forall t <- worker.todo :: t.Relate? ==> TextOf(t.relation) in texts)
    && forall s <- worker.stored :: TextOf(s.relation) in texts
  }

  /** All relation texts, stored and asked for, are among the given ones. */
  predicate Uses(sys: System, texts: set<Relation>) {
    StoreUses(sys.store, texts) && forall w <- sys.workers :: WorkerUses(w, texts)
  }

  lemma {:induction false} ActKeepsUses(
      naming: Naming, store: Store, worker: Worker, pick: Option<Id>, texts: set<Relation>)
    requires Enabled(naming, store, worker, pick) && StoreUses(store, texts) && WorkerUses(worker, texts)
    ensures StoreUses(Act(naming, store, worker, pick).0, texts) && WorkerUses(Act(naming, store, worker, pick).1, texts)
  {
    assert worker.todo[0] in worker.todo;
  }

  lemma {:induction false} RunKeepsUses(naming: Naming, sys: System, events: seq<Event>, texts: set<Relation>)
    requires Uses(sys, texts) && Run(naming, sys, events).Some?
    ensures Uses(Run(naming, sys, events).value, texts)
    decreases |events|
  {
    if events != [] {
      ActKeepsUses(naming, sys.store, sys.workers[events[0].worker], events[0].pick, texts);
      RunKeepsUses(naming, Step(naming, sys, events[0]), events[1..], texts);
    }
  }

  /** When no two relation texts in use fold together, every relation upserted shows, after any
      run, the very type and fact that were asked for. */
  lemma {:induction false} RelationsShowTheirTexts(
      naming: Naming, store: Store, jobs: seq<Job>, events: seq<Event>, texts: set<Relation>, i: nat, s: StoredRelation)
    requires StoreOk(naming, store) && Jobs(jobs) && Unambiguous(naming, texts)
    requires Uses(System(store, Workers(jobs)), texts)
    requires Run(naming, System(store, Workers(jobs)), events).Some?
    requires var after := Run(naming, System(store, Workers(jobs)), events).value;
             i < |after.workers| && s in after.workers[i].stored
    ensures var relations := Run(naming, System(store, Workers(jobs)), events).value.store.relations;
            KeyFor(naming, s) in relations && relations[KeyFor(naming, s)] == TextOf(s.relation)
  {
    var sys := System(store, Workers(jobs));
    var after := Run(naming, sys, events).value;
    RelationsAreStored(naming, store, jobs, events);
    RunKeepsUses(naming, sys, events, texts);
    var key := KeyFor(naming, s);
    assert Correct(naming, after.store, s);
    assert RelationOk(naming, key, after.store.relations[key]);
    assert WorkerUses(after.workers[i], texts);
    assert SameFold(naming, after.store.relations[key], TextOf(s.relation));
  }

  /** Otherwise they need not: of any two texts that do fold together, the one upserted first is
      overwritten when the other is upserted between the same entities, and one relation is left
      for both. */
  lemma {:induction false} FoldedTextsMixUp(naming: Naming, p: Relation, q: Relation, t: string, name: string)
    returns (job: Job, events: seq<Event>, first: StoredRelation, second: StoredRelation)
    requires p != q && SameFold(naming, p, q) && Canonical(naming.norm, name) != ""
    ensures AllMentions(job.mentions) && TextOf(first.relation) == p && TextOf(second.relation) == q
    ensures var start := System(Store({}, map[], map[]), Workers([job]));
            && Run(naming, start, events).Some?
            && var after := Run(naming, start, events).value;
               && |after.workers| == 1 && after.workers[0].todo == []
               && after.workers[0].stored == [first, second]
               && KeyFor(naming, first) == KeyFor(naming, second)
               && after.store.relations == map[KeyFor(naming, first) := q]
  {
    var r1 := RelationSpec(name, t, name, t, p.kind, p.fact);
    var r2 := RelationSpec(name, t, name, t, q.kind, q.fact);
    var id, n := EntityKey(naming, t, Strip(name)), naming.norm(Strip(name));
    job := Job("chunk", [Mention(t, name, [])], [r1, r2]);
    first, second := StoredRelation(r1, id, id), StoredRelation(r2, id, id);
    var start := System(Store({}, map[], map[]), Workers([job]));
    var before := MentionedOnce(naming, job, t, name);
    RelateTwo(r1, r2);
    var store := Store({"chunk"}, map[id := Fresh(naming, t, name)], map[]);
    var worker := Worker("chunk", [Relate(r1), Relate(r2)], map[(t, n) := id], Idle, [], []);
    events := BothRelated(naming, start, before, store, worker, r1, r2, id);
    assert map[KeyFor(naming, first) := p][KeyFor(naming, first) := q] == map[KeyFor(naming, first) := q];
  }

  lemma {:induction false} RelateTwo(r1: RelationSpec, r2: RelationSpec)
    ensures RelateAll([r1, r2]) == [Relate(r1), Relate(r2)]
  {
    assert [r1, r2][1..] == [r2] && [r2][1..] == [];
    assert RelateAll([r2]) == [Relate(r2)];
  }

  /** Two relations between one known entity and itself are upserted one after the other. */
  lemma {:induction false} BothRelated(
      naming: Naming, start: System, before: seq<Event>, store: Store, worker: Worker,
      r1: RelationSpec, r2: RelationSpec, id: Id)
    returns (events: seq<Event>)
    requires Run(naming, start, before) == Some(System(store, [worker])) && store.relations == map[]
    requires worker.todo == [Relate(r1), Relate(r2)] && worker.stage.Idle? && worker.ends == [] && worker.stored == []
    requires r1.sourceName == r1.targetName == r2.sourceName == r2.targetName
    requires r1.sourceType == r1.targetType == r2.sourceType == r2.targetType
    requires var n := Canonical(naming.norm, r1.sourceName);
             n != "" && (r1.sourceType, n) in worker.lookup && worker.lookup[(r1.sourceType, n)] == id
    requires id in store.entities
    ensures var first, second := StoredRelation(r1, id, id), StoredRelation(r2, id, id);
            Run(naming, start, events)
            == Some(System(store.(relations := map[KeyFor(naming, first) := TextOf(r1)][KeyFor(naming, second) := TextOf(r2)]),
                           [worker.(todo := [], stored := [first, second])]))
  {
    var first, second := StoredRelation(r1, id, id), StoredRelation(r2, id, id);
    var middle := RelateKnown(naming, start, before, store, worker, id);
    var worker1 := worker.(todo := [Relate(r2)], stored := [first]);
    assert worker.todo[1..] == worker1.todo && worker.stored + [first] == worker1.stored;
    events := RelateKnown(naming, start, middle, UpsertRelation(naming, store, id, id, TextOf(r1)), worker1, id);
    assert worker1.todo[1..] == [] && worker1.stored + [second] == [first, second];
  }

  /** The state before the relations of a chunk that mentions one new entity. */
  lemma {:induction false} MentionedOnce(naming: Naming, job: Job, t: string, name: string) returns (events: seq<Event>)
    requires Canonical(naming.norm, name) != ""
    requires job.chunk == "chunk" && job.mentions == [Mention(t, name, [])]
    ensures var id, n := EntityKey(naming, t, Strip(name)), naming.norm(Strip(name));
            Run(naming, System(Store({}, map[], map[]), Workers([job])), events)
            == Some(System(Store({"chunk"}, map[id := Fresh(naming, t, name)], map[]),
                           [Worker("chunk", RelateAll(job.relations), map[(t, n) := id], Idle, [], [])]))
  {
    var start, step := System(Store({}, map[], map[]), Workers([job])), Event(0, None);
    var todo := [Mention(t, name, [])] + RelateAll(job.relations);
    var worker0 := Worker("chunk", [StoreChunk] + todo, map[], Idle, [], []);
    StartsWith(job);
    assert Program(job) == worker0.todo;
    ChunkStored(naming, start, worker0, todo);
    var worker1 := worker0.(todo := todo);
    MentionStored(naming, start, [step], Store({"chunk"}, map[], map[]), worker1, t, name);
    assert worker1.todo[1..] == RelateAll(job.relations);
    events := [step] + [step, step];
  }
}
