/** The worker process (api/worker.py): poll loop, dispatch and shutdown over the shared job queue. */
module WorkerLoop {
  import opened JobQueue
  import opened Options

  /** What a handler tells the queue about its job. */
  datatype Mark = SaysDone | SaysFailed(error: string)

  /**
   * One turn of the loop as the outside decides it: the rows other claims hold, whether the claim itself
   * fails, the marks the handler makes, and whether it raises in the end.
   */
  datatype Round = Round(skipped: set<JobId>, claimFails: bool, marks: seq<Mark>, raises: bool)

  /** A run in which this worker claims nothing. */
  ghost predicate ReachesWithoutClaims(from: Db, to: Db, worker: WorkerId) {
    exists steps: seq<Step> ::
      && ValidRun(from, steps) && Exec(from, steps) == to
      && forall step, id :: step in steps ==> !ClaimsFor(step, id, worker)
  }

  lemma {:induction false} NoClaimNoOwnership(db: Db, steps: seq<Step>, id: JobId, worker: WorkerId)
    requires Inv(db) && ValidRun(db, steps) && id < db.nextId && !Owns(db, id, worker)
    requires forall step :: step in steps ==> !ClaimsFor(step, id, worker)
    ensures !Owns(Exec(db, steps), id, worker) && id < Exec(db, steps).nextId
    decreases |steps|
  {
    if steps != [] {
      StepGivesNoOwnership(db, steps[0], id, worker);
      StepKeepsInv(db, steps[0]);
      NoClaimNoOwnership(Apply(db, steps[0]), steps[1..], id, worker);
    }
  }

  lemma IdsOnlyGrow(db: Db, steps: seq<Step>)
    requires ValidRun(db, steps)
    ensures db.nextId <= Exec(db, steps).nextId
    decreases |steps|
  {
    if steps != [] {
      IdsOnlyGrow(Apply(db, steps[0]), steps[1..]);
    }
  }

  lemma OthersGiveNothing(from: Db, to: Db, id: JobId, worker: WorkerId)
    requires Inv(from) && ReachesWithoutClaims(from, to, worker) && id < from.nextId
    ensures id < to.nextId
    ensures !Owns(from, id, worker) ==> !Owns(to, id, worker)
  {
    var steps: seq<Step> :|
      && ValidRun(from, steps) && Exec(from, steps) == to
      && forall step, other :: step in steps ==> !ClaimsFor(step, other, worker);
    IdsOnlyGrow(from, steps);
    if !Owns(from, id, worker) {
      NoClaimNoOwnership(from, steps, id, worker);
    }
  }

  lemma ReachesByStep(db: Db, step: Step)
    requires Enabled(db, step)
    ensures Reaches(db, Apply(db, step))
  {
    var steps := [step];
    assert steps[1..] == [];
    assert ValidRun(Apply(db, step), []);
    assert ValidRun(db, steps) && Exec(db, steps) == Apply(db, step);
  }

  /** A mark leaves its author without the job, whether it took effect or not. */
  lemma MarkGivesUp(db: Db, mark: Step, id: JobId, worker: WorkerId)
    requires MarksBy(mark, id, worker)
    ensures Enabled(db, mark) && !Owns(Apply(db, mark), id, worker) && Apply(db, mark).nextId == db.nextId
    ensures Apply(db, mark) != db <==> Owns(db, id, worker)
  {
  }

  class Worker {
    const id: WorkerId
    const store: JobStore
    var current: Option<JobId>

    constructor (id: WorkerId, store: JobStore)
      ensures this.id == id && this.store == store && current == None
    {
      this.id, this.store, current := id, store, None;
    }

    /** Whatever the rest of the world does meanwhile. */
    method Meanwhile()
      requires Inv(store.Now())
      modifies store
      ensures Inv(store.Now())
      ensures Reaches(old(store.Now()), store.Now())
      ensures ReachesWithoutClaims(old(store.Now()), store.Now(), id)
    {
      ReachesSelf(store.Now());
      assert ValidRun(store.Now(), []) && Exec(store.Now(), []) == store.Now();
    }

    method SendMark(job: JobId, mark: Mark) returns (ghost effective: bool)
      requires Inv(store.Now())
      modifies store
      ensures Inv(store.Now())
      ensures store.Now() == Apply(old(store.Now()), if mark.SaysDone? then MarkDone(job, id)
                                                     else MarkFailed(job, id, mark.error))
      ensures effective == Owns(old(store.Now()), job, id)
    {
      effective := Owns(store.Now(), job, id);
      match mark {
        case SaysDone => store.Done(job, id);
        case SaysFailed(error) => store.Failed(job, id, error);
      }
    }

    /**
     * Unknown queues go to the default handler, which fails the job. A handler may mark its job as often
     * as it likes: the ownership guard lets at most one mark through.
     */
    method Dispatch(job: JobId, known: bool, marks: seq<Mark>) returns (ghost finals: nat)
      requires Inv(store.Now()) && job < store.nextId
      modifies store
      ensures Inv(store.Now())
      ensures Reaches(old(store.Now()), store.Now())
      ensures finals <= 1
      ensures !known || marks != [] ==> !Owns(store.Now(), job, id)
    {
      ghost var start := store.Now();
      ReachesSelf(start);
      var all := if known then marks else [SaysFailed("no handler wired")];
      finals := 0;
      for i := 0 to |all|
        invariant Inv(store.Now()) && Reaches(start, store.Now()) && job < store.nextId
        invariant finals <= 1
        invariant i > 0 ==> !Owns(store.Now(), job, id)
        invariant i == 0 ==> finals == 0
      {
        ghost var before := store.Now();
        Meanwhile();
        ghost var seen := store.Now();
        OthersGiveNothing(before, seen, job, id);
        ghost var effective := SendMark(job, all[i]);
        ghost var step := if all[i].SaysDone? then MarkDone(job, id) else MarkFailed(job, id, all[i].error);
        MarkGivesUp(seen, step, job, id);
        ReachesByStep(seen, step);
        hide Reaches;
        hide Inv;
        hide Apply;
        ReachesTrans(start, before, seen);
        ReachesTrans(start, seen, store.Now());
        if effective {
          finals := finals + 1;
        }
      }
    }

    /** Marks the job in flight as failed, if there is one. */
    method HandleShutdown() returns (marked: bool)
      requires Inv(store.Now())
      modifies store
      ensures Inv(store.Now())
      ensures marked <==> current.Some?
      ensures store.Now() == if current.None? then old(store.Now())
                             else Apply(old(store.Now()), MarkFailed(current.value, id, "SIGTERM during in-flight job"))
    {
      if current.None? {
        return false;
      }
      store.Failed(current.value, id, "SIGTERM during in-flight job");
      marked := true;
    }

    /** Claim, dispatch, and clear the job in flight again, also when the handler raises. */
    method Turn(queue: string, vis: int, registry: set<string>, round: Round, ghost start: Db)
      returns (raised: bool, ghost claimed: nat, ghost finals: nat)
      requires Inv(store.Now()) && Reaches(start, store.Now()) && current.None?
      modifies this, store
      ensures Inv(store.Now()) && Reaches(start, store.Now())
      ensures current.None?
      ensures finals <= claimed <= 1
      ensures raised ==> claimed == 1 && round.raises
    {
      ghost var before := store.Now();
      var job := store.ClaimOne(queue, id, vis, round.skipped);
      if job.None? {
        return false, 0, 0;
      }
      claimed := 1;
      ClaimReaches(before, store.Now(), start, job.value.id, id, vis, round.skipped);
      hide Reaches;
      current := Some(job.value.id);
      ghost var dispatched := store.Now();
      finals := Dispatch(job.value.id, job.value.job.queue in registry, round.marks);
      ReachesTrans(start, dispatched, store.Now());
      raised := job.value.job.queue in registry && round.raises;
      current := None;
    }

    /**
     * The loop ends when the shutdown flag is seen, after all `rounds`, or when a round raises. It holds
     * at most one job at a time, finalises no dispatch twice, and its shutdown never finds a job in flight.
     */
    method PollLoop(queue: string, vis: int, registry: set<string>, rounds: seq<Round>)
      returns (raised: bool, shutdownMarked: bool, ghost dispatches: nat, ghost finals: nat)
      requires Inv(store.Now()) && current.None?
      modifies this, store
      ensures Inv(store.Now())
      ensures Reaches(old(store.Now()), store.Now())
      ensures current.None? && !shutdownMarked
      ensures finals <= dispatches <= |rounds|
      ensures raised ==> exists i :: 0 <= i < |rounds| && (rounds[i].claimFails || rounds[i].raises)
    {
      ghost var start := store.Now();
      ReachesSelf(start);
      hide Reaches;
      hide Inv;
      raised, shutdownMarked, dispatches, finals := false, false, 0, 0;
      for i := 0 to |rounds|
        invariant Inv(store.Now()) && Reaches(start, store.Now())
        invariant current.None? && !raised && !shutdownMarked && finals <= dispatches <= i
      {
        ghost var before := store.Now();
        Meanwhile();
        ReachesTrans(start, before, store.Now());
        if rounds[i].claimFails {
          raised := true;
          return;
        }
        ghost var claimed: nat, marked: nat;
        raised, claimed, marked := Turn(queue, vis, registry, rounds[i], start);
        dispatches, finals := dispatches + claimed, finals + marked;
        if raised {
          return;
        }
      }
      shutdownMarked := HandleShutdown();
    }
  }

  lemma ClaimReaches(before: Db, after: Db, start: Db, id: JobId, worker: WorkerId, vis: int, skipped: set<JobId>)
    requires Inv(before) && Reaches(start, before)
    requires Enabled(before, Claim(id, worker, vis, skipped)) && after == Apply(before, Claim(id, worker, vis, skipped))
    ensures Reaches(start, after) && id < after.nextId
  {
    ReachesByStep(before, Claim(id, worker, vis, skipped));
    assert before.nextId <= id ==> UnusedId(before, id);
    hide Reaches;
    ReachesTrans(start, before, after);
  }
}
