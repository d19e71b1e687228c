/** Whether an alias belongs to one entity of its type: exactly when a search and the upsert after it
    keep that so, and a run of two workers that does not. */
module GraphAliases {
  import opened Common
  import opened GraphIdentity
  import opened GraphPersistence
  import opened GraphPersistenceProofs
  import opened GraphNormalization

  // ------------------------------------------------------------------
  // Names are aliases
  // ------------------------------------------------------------------

  /** The name an entity carries is one of its aliases, unless it has none. */
  predicate NameHeld(naming: Naming, e: Entity) {
    && e.normalizedName == naming.norm(e.name)
    && (e.name == "" || (Trimmed(e.name) && e.normalizedName in e.normalizedAliases))
  }

  predicate NamesHeld(naming: Naming, store: Store) {
    forall id <- store.entities :: NameHeld(naming, store.entities[id])
  }

  /** The name chosen for an upsert is among its aliases, unless there is none. */
  lemma {:induction false} PlanIsNamed(naming: Naming, wanted: Wanted, existing: Option<Existing>)
    ensures var plan := PlanFor(naming, wanted, existing);
            plan.name == "" || (Trimmed(plan.name) && naming.norm(plan.name) in Norms(naming.norm, plan.aliases))
  {
    var plan := PlanFor(naming, wanted, existing);
    var aliases := Collect(naming.norm, wanted.name, wanted.more);
    var existingAliases := if existing.Some? then existing.value.aliases else [];
    var existingName := if existing.Some? then [existing.value.name] else [];
    PreferredIsCandidate(naming, [wanted.name] + existingName + aliases + existingAliases);
    CollectedForms(naming, plan.name, aliases + existingAliases, naming.norm(plan.name));
  }

  /** Every step of a worker keeps names among the aliases. */
  lemma {:induction false} ActKeepsNames(naming: Naming, store: Store, worker: Worker, pick: Option<Id>)
    requires NamesHeld(naming, store) && Enabled(naming, store, worker, pick)
    ensures NamesHeld(naming, Act(naming, store, worker, pick).0)
  {
    var after := Act(naming, store, worker, pick).0;
    if !worker.todo[0].StoreChunk? && !(worker.todo[0].Relate? && |worker.ends| == 2) && worker.stage.Searched? {
      var wanted := WantedBy(worker.todo[0], |worker.ends|);
      var plan := PlanFor(naming, wanted, worker.stage.existing);
      PlanIsNamed(naming, wanted, worker.stage.existing);
      UpsertKeepsNames(naming, store, worker.chunk, plan, wanted.entityType);
      assert after == UpsertEntity(naming, store, worker.chunk, plan.id, plan.name, wanted.entityType, plan.aliases);
    } else {
      assert after.entities == store.entities;
    }
  }

  lemma {:induction false} UpsertKeepsNames(naming: Naming, store: Store, chunk: string, plan: Plan, entityType: string)
    requires NamesHeld(naming, store)
    requires plan.name == "" || (Trimmed(plan.name) && naming.norm(plan.name) in Norms(naming.norm, plan.aliases))
    ensures NamesHeld(naming, UpsertEntity(naming, store, chunk, plan.id, plan.name, entityType, plan.aliases))
  {
    if plan.id in store.entities {
      MergeIsUnion(store.entities[plan.id].normalizedAliases, Norms(naming.norm, plan.aliases));
    }
  }

  lemma {:induction false} RunKeepsNames(naming: Naming, sys: System, events: seq<Event>)
    requires NamesHeld(naming, sys.store) && Run(naming, sys, events).Some?
    ensures NamesHeld(naming, Run(naming, sys, events).value.store)
    decreases |events|
  {
    if events != [] {
      ActKeepsNames(naming, sys.store, sys.workers[events[0].worker], events[0].pick);
      RunKeepsNames(naming, Step(naming, sys, events[0]), events[1..]);
    }
  }

  // ------------------------------------------------------------------
  // One mention without interference
  // ------------------------------------------------------------------

  predicate Share(a: Entity, b: Entity) {
    a.entityType == b.entityType && exists n <- a.normalizedAliases :: n in b.normalizedAliases
  }

  /** No two entities of a type have an alias in common. */
  predicate Unshared(store: Store) {
    forall a <- store.entities, b <- store.entities :: a != b ==> !Share(store.entities[a], store.entities[b])
  }

  /** The entity is of the type and has one of the forms. */
  predicate HasForm(store: Store, id: Id, entityType: string, forms: seq<string>) {
    && id in store.entities && store.entities[id].entityType == entityType
    && exists n <- store.entities[id].normalizedAliases :: n in forms
  }

  predicate AtMostOneHas(store: Store, entityType: string, forms: seq<string>) {
    forall a <- store.entities, b <- store.entities ::
      HasForm(store, a, entityType, forms) && HasForm(store, b, entityType, forms) ==> a == b
  }

  /** The aliases of a plan have exactly the wanted forms and those of the entity found. */
  lemma {:induction false} PlanForms(naming: Naming, wanted: Wanted, existing: Option<Existing>, n: string)
    requires existing.Some? ==>
      && GoodAliases(naming, existing.value.aliases)
      && (existing.value.name == ""
          || (Trimmed(existing.value.name) && naming.norm(existing.value.name) in Norms(naming.norm, existing.value.aliases)))
    ensures n in Norms(naming.norm, PlanFor(naming, wanted, existing).aliases)
       <==> n in WantedNorms(naming, wanted) || (existing.Some? && n in Norms(naming.norm, existing.value.aliases))
  {
    var plan := PlanFor(naming, wanted, existing);
    var aliases := Collect(naming.norm, wanted.name, wanted.more);
    var existingAliases := if existing.Some? then existing.value.aliases else [];
    var existingName := if existing.Some? then [existing.value.name] else [];
    var candidates := [wanted.name] + existingName + aliases + existingAliases;
    UniqueIsUnique(naming.norm, [wanted.name] + wanted.more, {});
    AmongKept(naming.norm, aliases, n);
    AmongKept(naming.norm, existingAliases, n);
    AmongConcat(naming.norm, aliases, existingAliases, n);
    CollectedForms(naming, plan.name, aliases + existingAliases, n);
    CollectedForms(naming, wanted.name, wanted.more, n);
    PreferredIsCandidate(naming, candidates);
    AmongConcat(naming.norm, [wanted.name] + existingName + aliases, existingAliases, n);
    AmongConcat(naming.norm, [wanted.name] + existingName, aliases, n);
    AmongConcat(naming.norm, [wanted.name], existingName, n);
    NoEmptyNorm(naming, aliases);
    NoEmptyNorm(naming, existingAliases);
    assert existing.Some? && existing.value.name == "" ==> Strip(existing.value.name) == "";
  }

  /** `after` differs from `store` in one entity, which has gained the forms. */
  ghost predicate Gained(store: Store, after: Store, id: Id, entityType: string, forms: seq<string>) {
    && after.entities.Keys == store.entities.Keys + {id}
    && (forall o <- store.entities :: o != id ==> after.entities[o] == store.entities[o])
    && after.entities[id].entityType == entityType
    && forall n :: n in after.entities[id].normalizedAliases
                   <==> n in forms || (id in store.entities && n in store.entities[id].normalizedAliases)
  }

  lemma {:induction false} SaveGains(
      naming: Naming, store: Store, chunk: string, wanted: Wanted, existing: Option<Existing>)
    requires StoreOk(naming, store) && NamesHeld(naming, store) && chunk in store.chunks
    requires match existing
      case None => PlanFor(naming, wanted, None).id !in store.entities
      case Some(x) => x.id in store.entities
                      && x.name == store.entities[x.id].name && x.aliases == store.entities[x.id].aliases
    ensures var plan := PlanFor(naming, wanted, existing);
            Gained(store, UpsertEntity(naming, store, chunk, plan.id, plan.name, wanted.entityType, plan.aliases),
                   plan.id, wanted.entityType, WantedNorms(naming, wanted))
  {
    var plan := PlanFor(naming, wanted, existing);
    var after := UpsertEntity(naming, store, chunk, plan.id, plan.name, wanted.entityType, plan.aliases);
    if existing.Some? {
      var e := store.entities[plan.id];
      assert EntityOk(naming, plan.id, e) && NameHeld(naming, e);
      MergeIsUnion(e.normalizedAliases, Norms(naming.norm, plan.aliases));
    }
    forall n
      ensures n in after.entities[plan.id].normalizedAliases
         <==> n in WantedNorms(naming, wanted)
              || (plan.id in store.entities && n in store.entities[plan.id].normalizedAliases)
    {
      PlanForms(naming, wanted, existing, n);
    }
  }

  /** Gaining forms keeps aliases unshared exactly when no other entity of the type has one of them. */
  lemma {:induction false} GainKeepsUnshared(store: Store, after: Store, id: Id, entityType: string, forms: seq<string>)
    requires Unshared(store) && Gained(store, after, id, entityType, forms)
    requires id in store.entities ==> store.entities[id].entityType == entityType
    ensures Unshared(after) <==> forall o <- store.entities :: o != id ==> !HasForm(store, o, entityType, forms)
  {
    forall o <- store.entities | o != id
      ensures Share(after.entities[id], after.entities[o]) <==> HasForm(store, o, entityType, forms)
      ensures Share(after.entities[o], after.entities[id]) <==> HasForm(store, o, entityType, forms)
    {
      ShareGained(store, after, id, entityType, forms, o);
    }
    if forall o <- store.entities :: o != id ==> !HasForm(store, o, entityType, forms) {
      forall a <- after.entities, b <- after.entities | a != b
        ensures !Share(after.entities[a], after.entities[b])
      {
        if a != id && b != id {
          assert !Share(store.entities[a], store.entities[b]);
        }
      }
    } else {
      var o :| o in store.entities && o != id && HasForm(store, o, entityType, forms);
      assert Share(after.entities[id], after.entities[o]);
    }
  }

  lemma {:induction false} ShareGained(
      store: Store, after: Store, id: Id, entityType: string, forms: seq<string>, o: Id)
    requires Unshared(store) && Gained(store, after, id, entityType, forms)
    requires id in store.entities ==> store.entities[id].entityType == entityType
    requires o in store.entities && o != id
    ensures Share(after.entities[id], after.entities[o]) <==> HasForm(store, o, entityType, forms)
    ensures Share(after.entities[o], after.entities[id]) <==> HasForm(store, o, entityType, forms)
  {
    var mine, other := after.entities[id], store.entities[o];
    assert id in store.entities ==> !Share(store.entities[id], other) && !Share(other, store.entities[id]);
    if HasForm(store, o, entityType, forms) {
      var n :| n in other.normalizedAliases && n in forms;
      assert n in mine.normalizedAliases;
    }
  }

  /** A search answers with an entity that has one of the forms looked for. */
  lemma {:induction false} AnswerHasForm(naming: Naming, store: Store, wanted: Wanted, pick: Id)
    requires NamesHeld(naming, store) && naming.norm("") == ""
    requires FindAnswers(store, wanted.entityType, WantedNorms(naming, wanted), Some(pick))
    ensures HasForm(store, pick, wanted.entityType, WantedNorms(naming, wanted))
  {
    var forms, e := WantedNorms(naming, wanted), store.entities[pick];
    assert NameHeld(naming, e) && FindMatches(e, wanted.entityType, forms);
    UniqueIsUnique(naming.norm, [wanted.name] + wanted.more, {});
    NoEmptyNorm(naming, Collect(naming.norm, wanted.name, wanted.more));
    if e.normalizedName in forms {
      assert e.normalizedName in e.normalizedAliases;
    }
  }

  /** When nothing comes between a search and the upsert after it, and the key of a new entity is
      not taken, no alias comes to be shared if and only if at most one stored entity of the type
      has one of the forms looked for: a mention that names two entities merges into one of them. */
  lemma {:induction false} MentionKeepsUnshared(naming: Naming, store: Store, worker: Worker, pick: Option<Id>)
    requires StoreOk(naming, store) && NamesHeld(naming, store) && Unshared(store) && naming.norm("") == ""
    requires Enabled(naming, store, worker, pick) && Searches(naming, worker) && worker.chunk in store.chunks
    requires var wanted := WantedBy(worker.todo[0], |worker.ends|);
             pick.None? ==> PlanFor(naming, wanted, None).id !in store.entities
    ensures var wanted := WantedBy(worker.todo[0], |worker.ends|);
            var (same, searched) := Act(naming, store, worker, pick);
            && Enabled(naming, same, searched, None)
            && (Unshared(Act(naming, same, searched, None).0)
                <==> AtMostOneHas(store, wanted.entityType, WantedNorms(naming, wanted)))
  {
    var wanted := WantedBy(worker.todo[0], |worker.ends|);
    var forms := WantedNorms(naming, wanted);
    var searched := Act(naming, store, worker, pick).1;
    var existing := searched.stage.existing;
    var plan := PlanFor(naming, wanted, existing);
    var after := UpsertEntity(naming, store, worker.chunk, plan.id, plan.name, wanted.entityType, plan.aliases);
    assert Act(naming, store, searched, None).0 == after;
    SaveGains(naming, store, worker.chunk, wanted, existing);
    GainKeepsUnshared(store, after, plan.id, wanted.entityType, forms);
    if pick.Some? {
      AnswerHasForm(naming, store, wanted, pick.value);
    } else {
      NoAnswerNoForm(store, wanted.entityType, forms);
    }
  }

  lemma {:induction false} NoAnswerNoForm(store: Store, entityType: string, forms: seq<string>)
    requires FindAnswers(store, entityType, forms, None)
    ensures forall id <- store.entities :: !HasForm(store, id, entityType, forms)
  {
    forall id <- store.entities
      ensures !HasForm(store, id, entityType, forms)
    {
      assert forms != [] ==> !FindMatches(store.entities[id], entityType, forms);
    }
  }

  // ------------------------------------------------------------------
  // Two workers
  // ------------------------------------------------------------------

  lemma {:induction false} RunMore(naming: Naming, start: System, events: seq<Event>, event: Event)
    requires Run(naming, start, events).Some? && CanStep(naming, Run(naming, start, events).value, event)
    ensures Run(naming, start, events + [event]) == Some(Step(naming, Run(naming, start, events).value, event))
    decreases |events|
  {
    if events == [] {
      assert (events + [event])[1..] == [];
    } else {
      assert (events + [event])[1..] == events[1..] + [event];
      RunMore(naming, Step(naming, start, events[0]), events[1..], event);
    }
  }

  /** A worker that has searched in vain for the entity of its first task. */
  function Missed(chunk: string, task: Task): Worker {
    Worker(chunk, [task], map[], Searched(None), [], [])
  }

  /** Two workers store their chunks and search before either upserts; neither finds anything. */
  lemma {:induction false} BothSearch(naming: Naming, first: Task, second: Task) returns (events: seq<Event>)
    requires first.Mention? && second.Mention?
    ensures var jobs := [Job("one", [first], []), Job("two", [second], [])];
            Run(naming, System(Store({}, map[], map[]), Workers(jobs)), events)
            == Some(System(Store({"one", "two"}, map[], map[]), [Missed("one", first), Missed("two", second)]))
  {
    var jobs := [Job("one", [first], []), Job("two", [second], [])];
    var start := System(Store({}, map[], map[]), Workers(jobs));
    var one, two := Worker("one", [first], map[], Idle, [], []), Worker("two", [second], map[], Idle, [], []);
    assert jobs[1..] == [jobs[1]] && jobs[1..][1..] == [];
    assert Workers(jobs[1..]) == [Worker("two", Program(jobs[1]), map[], Idle, [], [])];
    assert Program(jobs[0]) == [StoreChunk, first] && Program(jobs[1]) == [StoreChunk, second];
    assert Program(jobs[0])[1..] == [first] && Program(jobs[1])[1..] == [second];

    events := [];
    RunMore(naming, start, events, Event(0, None));
    events := events + [Event(0, None)];
    assert {} + {"one"} == {"one"} && {"one"} + {"two"} == {"one", "two"};
    var sys1 := System(Store({"one"}, map[], map[]), [one, start.workers[1]]);
    assert start.workers[0 := one] == sys1.workers && Run(naming, start, events) == Some(sys1);
    RunMore(naming, start, events, Event(1, None));
    events := events + [Event(1, None)];
    var sys2 := System(Store({"one", "two"}, map[], map[]), [one, two]);
    assert sys1.workers[1 := two] == sys2.workers && Run(naming, start, events) == Some(sys2);
    RunMore(naming, start, events, Event(0, None));
    events := events + [Event(0, None)];
    var sys3 := System(sys2.store, [Missed("one", first), two]);
    assert sys2.workers[0 := Missed("one", first)] == sys3.workers && Run(naming, start, events) == Some(sys3);
    RunMore(naming, start, events, Event(1, None));
    events := events + [Event(1, None)];
    assert sys3.workers[1 := Missed("two", second)] == [Missed("one", first), Missed("two", second)];
  }

  /** A name whose own form is preferred to that of its alias. */
  predicate Preferable(naming: Naming, name: string, alias: string) {
    && Canonical(naming.norm, name) != "" && Canonical(naming.norm, alias) != ""
    && Canonical(naming.norm, name) != Canonical(naming.norm, alias)
    && (naming.cjk(Strip(name)) || !naming.cjk(Strip(alias)))
  }

  lemma {:induction false} UniqueOfTwo(norm: string -> string, name: string, alias: string, values: seq<string>)
    requires Canonical(norm, name) != "" && Canonical(norm, alias) != "" && Canonical(norm, name) != Canonical(norm, alias)
    requires values == [name, alias] || values == [name, Strip(name), Strip(alias)]
             || values == [Strip(name), Strip(name), Strip(alias)]
    ensures Unique(norm, values, {}) == [Strip(name), Strip(alias)]
  {
    StripIdempotent(name);
    StripIdempotent(alias);
    var n, m := Canonical(norm, name), Canonical(norm, alias);
    var last := values[|values| - 1];
    assert [last][1..] == [] && {} + {n} == {n};
    assert Unique(norm, [last], {n}) == [Strip(alias)];
    if |values| == 3 {
      assert values[1..][1..] == [last] && values[1..][0] == Strip(name);
      assert Unique(norm, values[1..], {n}) == Unique(norm, [last], {n});
    } else {
      assert values[1..] == [last];
    }
  }

  lemma {:induction false} PlanOfTwo(naming: Naming, entityType: string, name: string, alias: string)
    requires Preferable(naming, name, alias)
    ensures PlanFor(naming, Wanted(entityType, name, [alias]), None)
         == Plan(EntityKey(naming, entityType, Strip(name)), Strip(name), [Strip(name), Strip(alias)])
  {
    var x, y := Strip(name), Strip(alias);
    assert [name] + [alias] == [name, alias];
    UniqueOfTwo(naming.norm, name, alias, [name, alias]);
    assert [name] + [] + [x, y] + [] == [name, x, y];
    UniqueOfTwo(naming.norm, name, alias, [name, x, y]);
    assert [x] + ([x, y] + []) == [x, x, y];
    UniqueOfTwo(naming.norm, name, alias, [x, x, y]);
    assert [x, y][1..] == [y] && [y][1..] == [];
    assert FirstCjk(naming.cjk, [y]) == if naming.cjk(y) then Some(y) else None;
    assert FirstCjk(naming.cjk, [x, y]) == if naming.cjk(x) then Some(x) else FirstCjk(naming.cjk, [y]);
  }

  /** Aliases do come to be shared when two workers search before either upserts: one mentions a name
      with an alias, the other the alias as a name, and both entities then have the alias. */
  lemma {:induction false} RaceSharesAlias(naming: Naming, t: string, name: string, alias: string)
    returns (jobs: seq<Job>, events: seq<Event>)
    requires Preferable(naming, name, alias)
    requires EntityKey(naming, t, Strip(name)) != EntityKey(naming, t, Strip(alias))
    ensures Jobs(jobs) && Run(naming, System(Store({}, map[], map[]), Workers(jobs)), events).Some?
    ensures var after := Run(naming, System(Store({}, map[], map[]), Workers(jobs)), events).value;
            && (forall w <- after.workers :: w.todo == [])
            && !Unshared(after.store)
  {
    var first, second := Mention(t, name, [alias]), Mention(t, alias, []);
    jobs := [Job("one", [first], []), Job("two", [second], [])];
    var start := System(Store({}, map[], map[]), Workers(jobs));
    events := BothSearch(naming, first, second);
    PlanOfTwo(naming, t, name, alias);
    PlanOfOne(naming, t, alias);

    var store, workers := Store({"one", "two"}, map[], map[]), [Missed("one", first), Missed("two", second)];
    var x, y := Strip(name), Strip(alias);
    var a, b := EntityKey(naming, t, x), EntityKey(naming, t, y);
    var store1 := store.(entities := map[a := NewEntity(naming, t, x, [x, y])]);
    var done1 := SaveNew(naming, start, events, store, workers, 0, first, Plan(a, x, [x, y]));
    events := events + [Event(0, None)];
    assert store.entities[a := NewEntity(naming, t, x, [x, y])] == store1.entities;
    var done2 := SaveNew(naming, start, events, store1, workers[0 := done1], 1, second, Plan(b, y, [y]));
    events := events + [Event(1, None)];
    var after := Run(naming, start, events).value;
    assert after.workers == [done1, done2];
    BothHold(naming, t, x, y);
    assert Share(after.store.entities[a], after.store.entities[b]);
    MentionJobs(first, second);
  }

  lemma {:induction false} MentionJobs(first: Task, second: Task)
    requires first.Mention? && second.Mention?
    ensures Jobs([Job("one", [first], []), Job("two", [second], [])])
  {
    var jobs := [Job("one", [first], []), Job("two", [second], [])];
    assert jobs[1..] == [jobs[1]] && jobs[1..][1..] == [];
    assert Jobs(jobs[1..]);
  }

  /** What is stored under a new key. */
  function NewEntity(naming: Naming, entityType: string, name: string, aliases: seq<string>): Entity {
    Entity(name, entityType, naming.norm(name), aliases, Norms(naming.norm, aliases))
  }

  /** A worker that found nothing stores a new entity and is done. */
  lemma {:induction false} SaveNew(
      naming: Naming, start: System, events: seq<Event>, store: Store, workers: seq<Worker>, i: nat, task: Task, plan: Plan)
    returns (done: Worker)
    requires Run(naming, start, events) == Some(System(store, workers))
    requires i < |workers| && workers[i].chunk in store.chunks && workers[i] == Missed(workers[i].chunk, task)
    requires task.Mention? && plan == PlanFor(naming, Wanted(task.entityType, task.name, task.aliases), None)
    requires plan.id !in store.entities
    ensures var entity := NewEntity(naming, task.entityType, plan.name, plan.aliases);
            Run(naming, start, events + [Event(i, None)])
            == Some(System(store.(entities := store.entities[plan.id := entity]), workers[i := done]))
    ensures done.todo == []
  {
    done := Act(naming, store, workers[i], None).1;
    RunMore(naming, start, events, Event(i, None));
  }

  lemma {:induction false} BothHold(naming: Naming, t: string, x: string, y: string)
    ensures Share(NewEntity(naming, t, x, [x, y]), NewEntity(naming, t, y, [y]))
  {
    var first, second := NewEntity(naming, t, x, [x, y]), NewEntity(naming, t, y, [y]);
    var n := naming.norm(y);
    assert first.normalizedAliases[1] == n && second.normalizedAliases[0] == n;
    assert n in first.normalizedAliases && n in second.normalizedAliases;
  }
}
