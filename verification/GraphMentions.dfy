/** Under every interleaving of the chunk workers, every mentioned entity is stored with all its names. */
module GraphMentions {
  import opened Common
  import opened GraphIdentity
  import opened GraphPersistence
  import opened GraphPersistenceProofs

  /** An entity of the folded type holds every form of the values of the mention. */
  predicate MentionHeld(naming: Naming, store: Store, task: Task) {
    task.Mention? ==> exists id <- store.entities :: HoldsMention(naming, store, id, task)
  }

  predicate HoldsMention(naming: Naming, store: Store, id: Id, task: Task)
    requires task.Mention? && id in store.entities
  {
    && id.foldedType == naming.fold(task.entityType)
    && forall v <- [task.name] + task.aliases ::
         Canonical(naming.norm, v) != "" ==> Canonical(naming.norm, v) in store.entities[id].normalizedAliases
  }

  /** What a worker has left is the rest of its program, and every mention before that is held. */
  predicate Caught(naming: Naming, store: Store, program: seq<Task>, worker: Worker) {
    var k := |program| - |worker.todo|;
    && 0 <= k && worker.todo == program[k..]
    && forall task <- program[..k] :: MentionHeld(naming, store, task)
  }

  lemma {:induction false} MentionStaysHeld(naming: Naming, a: Store, b: Store, task: Task)
    requires MentionHeld(naming, a, task) && Grows(a, b)
    ensures MentionHeld(naming, b, task)
  {
    if task.Mention? {
      var id :| id in a.entities && HoldsMention(naming, a, id, task);
      assert EntityGrows(a.entities[id], b.entities[id]);
      assert id in b.entities && HoldsMention(naming, b, id, task);
    }
  }

  lemma {:induction false} StaysCaught(naming: Naming, a: Store, b: Store, program: seq<Task>, worker: Worker)
    requires Caught(naming, a, program, worker) && Grows(a, b)
    ensures Caught(naming, b, program, worker)
  {
    forall task <- program[..|program| - |worker.todo|] ensures MentionHeld(naming, b, task) {
      MentionStaysHeld(naming, a, b, task);
    }
  }

  lemma {:induction false} AmongMember(norm: string -> string, values: seq<string>, v: string)
    requires v in values
    ensures Among(norm, values, Canonical(norm, v))
  {
    if values[0] != v {
      AmongMember(norm, values[1..], v);
    }
  }

  /** The aliases upserted hold every form of what is wanted, whatever the search found. */
  lemma {:induction false} PlanHoldsValues(naming: Naming, wanted: Wanted, existing: Option<Existing>, v: string)
    requires v in [wanted.name] + wanted.more && Canonical(naming.norm, v) != ""
    ensures Canonical(naming.norm, v) in Norms(naming.norm, PlanFor(naming, wanted, existing).aliases)
  {
    var n, plan := Canonical(naming.norm, v), PlanFor(naming, wanted, existing);
    var aliases := Collect(naming.norm, wanted.name, wanted.more);
    var existingAliases := if existing.Some? then existing.value.aliases else [];
    AmongMember(naming.norm, [wanted.name] + wanted.more, v);
    UniqueIsUnique(naming.norm, [wanted.name] + wanted.more, {});
    UniqueIsExact(naming.norm, [wanted.name] + wanted.more, {}, n);
    AmongKept(naming.norm, aliases, n);
    AmongConcat(naming.norm, aliases, existingAliases, n);
    AmongConcat(naming.norm, [plan.name], aliases + existingAliases, n);
    UniqueIsExact(naming.norm, [plan.name] + (aliases + existingAliases), {}, n);
  }

  /** Once its mention has been dealt with, the entity is held. */
  lemma {:induction false} SaveHoldsMention(naming: Naming, store: Store, worker: Worker)
    requires StoreOk(naming, store) && WorkerOk(naming, store, worker)
    requires worker.todo != [] && worker.todo[0].Mention? && worker.stage.Searched?
    ensures MentionHeld(naming, Save(naming, store, worker).0, worker.todo[0])
  {
    var task := worker.todo[0];
    var wanted := WantedBy(task, |worker.ends|);
    var plan := PlanFor(naming, wanted, worker.stage.existing);
    PlanHoldsName(naming, wanted, worker.stage.existing);
    UpsertKeepsStore(naming, store, worker.chunk, plan.id, plan.name, wanted.entityType, plan.aliases);
    var after := Save(naming, store, worker).0;
    forall v <- [task.name] + task.aliases | Canonical(naming.norm, v) != ""
      ensures Canonical(naming.norm, v) in after.entities[plan.id].normalizedAliases
    {
      PlanHoldsValues(naming, wanted, worker.stage.existing, v);
    }
    assert HoldsMention(naming, after, plan.id, task);
  }

  lemma {:induction false} DropsFirst(program: seq<Task>, todo: seq<Task>)
    requires todo != [] && |todo| <= |program| && todo == program[|program| - |todo|..]
    ensures var k := |program| - |todo|;
      todo[0] == program[k] && todo[1..] == program[k + 1..] && program[..k + 1] == program[..k] + [program[k]]
  {
  }

  lemma {:induction false} ActKeepsCaught(naming: Naming, store: Store, worker: Worker, pick: Option<Id>, program: seq<Task>)
    requires StoreOk(naming, store) && WorkerOk(naming, store, worker) && Enabled(naming, store, worker, pick)
    requires Caught(naming, store, program, worker)
    ensures var (after, worker') := Act(naming, store, worker, pick); Caught(naming, after, program, worker')
  {
    var task := worker.todo[0];
    var (after, worker') := Act(naming, store, worker, pick);
    ActKeeps(naming, store, worker, pick);
    StaysCaught(naming, store, after, program, worker);
    if worker'.todo != worker.todo {
      if task.Mention? {
        SaveHoldsMention(naming, store, worker);
      }
      CaughtUp(naming, after, program, worker, worker');
    }
  }

  lemma {:induction false} CaughtUp(naming: Naming, store: Store, program: seq<Task>, worker: Worker, worker': Worker)
    requires Caught(naming, store, program, worker) && worker.todo != [] && worker'.todo == worker.todo[1..]
    requires MentionHeld(naming, store, worker.todo[0])
    ensures Caught(naming, store, program, worker')
  {
    DropsFirst(program, worker.todo);
  }

  ghost predicate AllCaught(naming: Naming, sys: System, jobs: seq<Job>) {
    && |sys.workers| == |jobs|
    && forall i | 0 <= i < |jobs| :: Caught(naming, sys.store, Program(jobs[i]), sys.workers[i])
  }

  lemma {:induction false} StepKeepsCaught(naming: Naming, sys: System, event: Event, jobs: seq<Job>)
    requires SystemOk(naming, sys) && CanStep(naming, sys, event) && AllCaught(naming, sys, jobs)
    ensures AllCaught(naming, Step(naming, sys, event), jobs)
  {
    var after := Step(naming, sys, event);
    StepKeepsSystem(naming, sys, event);
    ActKeepsCaught(naming, sys.store, sys.workers[event.worker], event.pick, Program(jobs[event.worker]));
    forall i | 0 <= i < |jobs| ensures Caught(naming, after.store, Program(jobs[i]), after.workers[i]) {
      if i != event.worker {
        StaysCaught(naming, sys.store, after.store, Program(jobs[i]), sys.workers[i]);
      }
    }
  }

  lemma {:induction false} RunKeepsCaught(naming: Naming, sys: System, events: seq<Event>, jobs: seq<Job>)
    requires SystemOk(naming, sys) && Run(naming, sys, events).Some? && AllCaught(naming, sys, jobs)
    ensures AllCaught(naming, Run(naming, sys, events).value, jobs)
    decreases |events|
  {
    if events != [] {
      StepKeepsSystem(naming, sys, events[0]);
      StepKeepsCaught(naming, sys, events[0], jobs);
      RunKeepsCaught(naming, Step(naming, sys, events[0]), events[1..], jobs);
    }
  }

  lemma {:induction false} StartsCaught(naming: Naming, store: Store, jobs: seq<Job>)
    ensures AllCaught(naming, System(store, Workers(jobs)), jobs)
    decreases |jobs|
  {
    if jobs != [] {
      StartsCaught(naming, store, jobs[1..]);
      assert Program(jobs[0])[0..] == Program(jobs[0]);
      assert forall i | 0 < i < |jobs| :: Workers(jobs)[i] == Workers(jobs[1..])[i - 1];
    }
  }

  /** However the workers interleave: when a worker is done, its chunk is stored, every entity its chunk
      mentions is held by an entity of the folded type under all its names, and the relations it
      upserted are those of its chunk, in order. */
  lemma {:induction false} FinishedChunkIsStored(
      naming: Naming, store: Store, jobs: seq<Job>, events: seq<Event>, i: nat)
    requires StoreOk(naming, store) && Jobs(jobs) && i < |jobs|
    requires Run(naming, System(store, Workers(jobs)), events).Some?
    ensures var after := Run(naming, System(store, Workers(jobs)), events).value;
      && |after.workers| == |jobs|
      && (after.workers[i].todo == [] ==>
            && jobs[i].chunk in after.store.chunks
            && (forall task <- jobs[i].mentions :: MentionHeld(naming, after.store, task))
            && Done(after.workers[i].stored) == jobs[i].relations)
  {
    var sys := System(store, Workers(jobs));
    var after := Run(naming, sys, events).value;
    WorkersStartOk(naming, store, jobs);
    StartsCaught(naming, store, jobs);
    RunKeepsCaught(naming, sys, events, jobs);
    RunKeepsSystem(naming, sys, events);
    RelationsAreStored(naming, store, jobs, events);
    ChunksStay(naming, sys, events, i);
    WorkerChunk(jobs, i);
    assert WorkerOk(naming, after.store, after.workers[i]);
    assert Caught(naming, after.store, Program(jobs[i]), after.workers[i]);
    if after.workers[i].todo == [] {
      ProgramHeld(naming, after.store, jobs[i], after.workers[i]);
      assert Done(after.workers[i].stored) + [] == Done(after.workers[i].stored);
    }
  }

  lemma {:induction false} ProgramHeld(naming: Naming, store: Store, job: Job, worker: Worker)
    requires Caught(naming, store, Program(job), worker) && worker.todo == []
    ensures forall task <- job.mentions :: MentionHeld(naming, store, task)
  {
    var program := Program(job);
    assert program[..|program|] == program;
    forall task <- job.mentions ensures MentionHeld(naming, store, task) {
      assert task in program;
    }
  }

  lemma {:induction false} WorkerChunk(jobs: seq<Job>, i: nat)
    requires i < |jobs|
    ensures |Workers(jobs)| == |jobs| && Workers(jobs)[i].chunk == jobs[i].chunk
  {
    if |jobs| > 1 {
      WorkerChunk(jobs[1..], if i > 0 then i - 1 else 0);
    }
  }

  /** A worker stays with its chunk. */
  lemma {:induction false} ChunksStay(naming: Naming, sys: System, events: seq<Event>, i: nat)
    requires Run(naming, sys, events).Some? && i < |sys.workers|
    ensures var after := Run(naming, sys, events).value;
      |after.workers| == |sys.workers| && after.workers[i].chunk == sys.workers[i].chunk
    decreases |events|
  {
    if events != [] {
      ChunksStay(naming, Step(naming, sys, events[0]), events[1..], i);
    }
  }
}
