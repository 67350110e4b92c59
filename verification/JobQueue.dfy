/** The leased, at-least-once job queue (api/jobs.py, the producer half in lib/jobs.ts). */
module JobQueue {
  import opened Options
  import PayloadScan

  type JobId = nat
  type WorkerId = string

  /** The database enum; nothing ever stores Failed. */
  datatype JobState = Queued | InProgress | Done | Failed | Dead

  datatype Job = Job(
    queue: string,
    key: string,
    state: JobState,
    attempts: nat,
    maxAttempts: int,
    runAfter: int,
    lockedUntil: Option<int>,
    lockedBy: Option<WorkerId>,
    lastError: Option<string>,
    updatedAt: int)

  datatype AuditKind = Enqueued | Dispatched | JobDone | JobFailed | JobDead

  datatype AuditRow = AuditRow(kind: AuditKind, job: JobId)

  /** Tables, clock, and the source of never-repeating ids (`gen_random_uuid`). */
  datatype Db = Db(jobs: map<JobId, Job>, audit: seq<AuditRow>, now: int, nextId: JobId)

  const DEFAULT_MAX_ATTEMPTS := 5
  const MAX_KEY_LENGTH := 200
  const PRUNE_AFTER_S := 7 * 86400

  const EMPTY_DB := Db(map[], [], 0, 0)

  // ----- Transactions as steps -----

  datatype Step =
    | Insert(queue: string, key: string, maxAttempts: int, runAfter: int)
    | Claim(id: JobId, worker: WorkerId, vis: int, skipped: set<JobId>)
    | MarkDone(id: JobId, worker: WorkerId)
    | MarkFailed(id: JobId, worker: WorkerId, error: string)
    | Prune(id: JobId)
    | Tick(now: int)

  predicate KeyTaken(db: Db, key: string) {
    exists id :: id in db.jobs && db.jobs[id].key == key
  }

  /** The WHERE clause of the claim statement. */
  predicate Claimable(db: Db, id: JobId, queue: string) {
    && id in db.jobs
    && db.jobs[id].queue == queue
    && db.jobs[id].runAfter <= db.now
    && (db.jobs[id].state == Queued
        || (db.jobs[id].state == InProgress && db.jobs[id].lockedUntil.Some? && db.jobs[id].lockedUntil.value < db.now))
  }

  /** Rows the claim may take: claimable and not row-locked by another transaction. */
  function Candidates(db: Db, queue: string, skipped: set<JobId>): set<JobId> {
    set id | id in db.jobs && id !in skipped && Claimable(db, id, queue)
  }

  /** ORDER BY run_after ... FOR UPDATE SKIP LOCKED LIMIT 1 */
  predicate ClaimPicks(db: Db, id: JobId, queue: string, skipped: set<JobId>) {
    && id in Candidates(db, queue, skipped)
    && forall other :: other in Candidates(db, queue, skipped) ==> db.jobs[id].runAfter <= db.jobs[other].runAfter
  }

  predicate Owns(db: Db, id: JobId, worker: WorkerId) {
    id in db.jobs && db.jobs[id].lockedBy == Some(worker)
  }

  predicate Enabled(db: Db, step: Step) {
    match step
    case Insert(_, key, _, _) => 1 <= |key| <= MAX_KEY_LENGTH && !KeyTaken(db, key)
    case Claim(id, _, _, skipped) => id in db.jobs && ClaimPicks(db, id, db.jobs[id].queue, skipped)
    case MarkDone(_, _) => true
    case MarkFailed(_, _, _) => true
    case Prune(id) => id in db.jobs && db.jobs[id].state == Done && db.jobs[id].updatedAt < db.now - PRUNE_AFTER_S
    case Tick(now) => db.now <= now
  }

  function Apply(db: Db, step: Step): Db
    requires Enabled(db, step)
  {
    match step
    case Insert(queue, key, maxAttempts, runAfter) =>
      var row := Job(queue, key, Queued, 0, maxAttempts, runAfter, None, None, None, db.now);
      Db(db.jobs[db.nextId := row], db.audit + [AuditRow(Enqueued, db.nextId)], db.now, db.nextId + 1)
    case Claim(id, worker, vis, _) =>
      var row := db.jobs[id].(state := InProgress, lockedUntil := Some(db.now + vis), lockedBy := Some(worker),
                              updatedAt := db.now);
      db.(jobs := db.jobs[id := row], audit := db.audit + [AuditRow(Dispatched, id)])
    case MarkDone(id, worker) =>
      if !Owns(db, id, worker) then db
      else
        var row := db.jobs[id].(state := Done, lockedUntil := None, lockedBy := None, updatedAt := db.now);
        db.(jobs := db.jobs[id := row], audit := db.audit + [AuditRow(JobDone, id)])
    case MarkFailed(id, worker, error) =>
      if !Owns(db, id, worker) then db
      else
        var attempts := db.jobs[id].attempts + 1;
        var dead := attempts >= db.jobs[id].maxAttempts;
        var row := db.jobs[id].(attempts := attempts, lastError := Some(error), lockedUntil := None, lockedBy := None,
                                state := if dead then Dead else Queued, updatedAt := db.now);
        db.(jobs := db.jobs[id := row], audit := db.audit + [AuditRow(if dead then JobDead else JobFailed, id)])
    case Prune(id) => db.(jobs := db.jobs - {id})
    case Tick(now) => db.(now := now)
  }

  // ----- Runs -----

  /** Every interleaving of the workers' and producers' transactions is a sequence of steps. */
  ghost predicate ValidRun(db: Db, steps: seq<Step>)
    decreases |steps|
  {
    steps == [] || (Enabled(db, steps[0]) && ValidRun(Apply(db, steps[0]), steps[1..]))
  }

  ghost function Exec(db: Db, steps: seq<Step>): Db
    requires ValidRun(db, steps)
    decreases |steps|
  {
    if steps == [] then db else Exec(Apply(db, steps[0]), steps[1..])
  }

  ghost predicate IsReclaim(db: Db, step: Step, id: JobId) {
    step.Claim? && step.id == id && id in db.jobs && db.jobs[id].state == InProgress
  }

  /** How often a run takes `id` over from a worker whose lock had expired. */
  ghost function Reclaims(db: Db, steps: seq<Step>, id: JobId): nat
    requires ValidRun(db, steps)
    decreases |steps|
  {
    if steps == [] then 0
    else AsNat(IsReclaim(db, steps[0], id)) + Reclaims(Apply(db, steps[0]), steps[1..], id)
  }

  function Count(audit: seq<AuditRow>, kind: AuditKind, id: JobId): nat {
    if audit == [] then 0
    else Count(audit[..|audit| - 1], kind, id) + if audit[|audit| - 1] == AuditRow(kind, id) then 1 else 0
  }

  lemma CountAppend(audit: seq<AuditRow>, row: AuditRow, kind: AuditKind, id: JobId)
    ensures Count(audit + [row], kind, id) == Count(audit, kind, id) + if row == AuditRow(kind, id) then 1 else 0
  {
    assert (audit + [row])[..|audit|] == audit;
  }

  /** Failures a row may collect; a limit below one still allows the first. */
  function Budget(job: Job): int {
    if job.maxAttempts < 1 then 1 else job.maxAttempts
  }

  function AsNat(b: bool): nat {
    if b then 1 else 0
  }

  // ----- The invariant -----

  ghost predicate RowOk(job: Job) {
    && (job.lockedBy.Some? <==> job.state == InProgress)
    && (job.lockedUntil.Some? <==> job.state == InProgress)
    && job.state != Failed
    && (if job.state == Dead then job.attempts == Budget(job) else job.attempts < Budget(job))
  }

  /** The audit log tells each row's story. */
  ghost predicate AuditOk(db: Db, id: JobId) {
    id in db.jobs ==>
      && Count(db.audit, Enqueued, id) == 1
      && Count(db.audit, JobFailed, id) + Count(db.audit, JobDead, id) == db.jobs[id].attempts
      && Count(db.audit, JobDead, id) == AsNat(db.jobs[id].state == Dead)
      && Count(db.audit, JobDone, id) == AsNat(db.jobs[id].state == Done)
  }

  ghost predicate UnusedId(db: Db, id: JobId) {
    id >= db.nextId ==> id !in db.jobs && forall kind :: Count(db.audit, kind, id) == 0
  }

  ghost predicate Inv(db: Db) {
    && (forall id :: id in db.jobs ==> RowOk(db.jobs[id]))
    && (forall id :: AuditOk(db, id))
    && (forall id :: UnusedId(db, id))
    && (forall i, j :: i in db.jobs && j in db.jobs && i != j ==> db.jobs[i].key != db.jobs[j].key)
  }

  /** What one step adds to the audit log, if anything. */
  function Logged(db: Db, step: Step): Option<AuditRow>
    requires Enabled(db, step)
  {
    match step
    case Insert(_, _, _, _) => Some(AuditRow(Enqueued, db.nextId))
    case Claim(id, _, _, _) => Some(AuditRow(Dispatched, id))
    case MarkDone(id, worker) => if Owns(db, id, worker) then Some(AuditRow(JobDone, id)) else None
    case MarkFailed(id, worker, _) =>
      if !Owns(db, id, worker) then None
      else if db.jobs[id].attempts + 1 >= db.jobs[id].maxAttempts then Some(AuditRow(JobDead, id))
      else Some(AuditRow(JobFailed, id))
    case Prune(_) => None
    case Tick(_) => None
  }

  lemma StepCounts(db: Db, step: Step, kind: AuditKind, id: JobId)
    requires Enabled(db, step)
    ensures Count(Apply(db, step).audit, kind, id)
            == Count(db.audit, kind, id) + AsNat(Logged(db, step) == Some(AuditRow(kind, id)))
  {
    if Logged(db, step).Some? {
      CountAppend(db.audit, Logged(db, step).value, kind, id);
    }
  }

  lemma StepKeepsRows(db: Db, step: Step)
    requires Inv(db) && Enabled(db, step)
    ensures forall id :: id in Apply(db, step).jobs ==> RowOk(Apply(db, step).jobs[id])
  {
    hide Count;
  }

  lemma StepKeepsAudit(db: Db, step: Step, id: JobId)
    requires Inv(db) && Enabled(db, step)
    ensures AuditOk(Apply(db, step), id)
  {
    StepCounts(db, step, Enqueued, id);
    StepCounts(db, step, JobFailed, id);
    StepCounts(db, step, JobDead, id);
    StepCounts(db, step, JobDone, id);
    hide Count;
    assert AuditOk(db, id) && UnusedId(db, id) && UnusedId(db, db.nextId);
    if id in db.jobs {
      assert RowOk(db.jobs[id]);
    }
  }

  lemma StepKeepsInv(db: Db, step: Step)
    requires Inv(db) && Enabled(db, step)
    ensures Inv(Apply(db, step))
  {
    StepKeepsRows(db, step);
    forall id: JobId
      ensures AuditOk(Apply(db, step), id) && UnusedId(Apply(db, step), id)
    {
      StepKeepsAudit(db, step, id);
      assert UnusedId(db, id);
      forall kind | id >= Apply(db, step).nextId
        ensures Count(Apply(db, step).audit, kind, id) == 0
      {
        StepCounts(db, step, kind, id);
      }
    }
  }

  lemma {:induction false} RunKeepsInv(db: Db, steps: seq<Step>)
    requires Inv(db) && ValidRun(db, steps)
    ensures Inv(Exec(db, steps))
    decreases |steps|
  {
    if steps != [] {
      StepKeepsInv(db, steps[0]);
      RunKeepsInv(Apply(db, steps[0]), steps[1..]);
    }
  }

  ghost predicate Reaches(from: Db, to: Db) {
    exists steps :: ValidRun(from, steps) && Exec(from, steps) == to
  }

  lemma ReachesSelf(db: Db)
    ensures Reaches(db, db)
  {
    assert ValidRun(db, []) && Exec(db, []) == db;
  }

  lemma {:induction false} RunsCompose(db: Db, first: seq<Step>, second: seq<Step>)
    requires ValidRun(db, first) && ValidRun(Exec(db, first), second)
    ensures ValidRun(db, first + second) && Exec(db, first + second) == Exec(Exec(db, first), second)
    decreases |first|
  {
    if first == [] {
      assert first + second == second;
    } else {
      RunsCompose(Apply(db, first[0]), first[1..], second);
      assert (first + second)[1..] == first[1..] + second;
    }
  }

  lemma ReachesTrans(a: Db, b: Db, c: Db)
    requires Reaches(a, b) && Reaches(b, c)
    ensures Reaches(a, c)
  {
    var first :| ValidRun(a, first) && Exec(a, first) == b;
    var second :| ValidRun(b, second) && Exec(b, second) == c;
    RunsCompose(a, first, second);
  }

  // ----- Dispatches, finalisations, reclaims -----

  ghost predicate Running(db: Db, id: JobId) {
    id in db.jobs && db.jobs[id].state == InProgress
  }

  function Finalised(db: Db, id: JobId): nat {
    Count(db.audit, JobFailed, id) + Count(db.audit, JobDead, id) + Count(db.audit, JobDone, id)
  }

  /** Dispatches of `id` that no audit row has finalised and no running worker holds. */
  ghost function Abandoned(db: Db, id: JobId): int {
    Count(db.audit, Dispatched, id) - Finalised(db, id) - AsNat(Running(db, id))
  }

  /** The step's own effect on the account, once its effect on the counts is known. */
  lemma AbandonedByCounts(db: Db, step: Step, id: JobId)
    requires Inv(db) && Enabled(db, step)
    requires forall kind: AuditKind ::
      Count(Apply(db, step).audit, kind, id)
      == Count(db.audit, kind, id) + AsNat(Logged(db, step) == Some(AuditRow(kind, id)))
    ensures Abandoned(Apply(db, step), id) == Abandoned(db, id) + AsNat(IsReclaim(db, step, id))
  {
    hide Count;
    assert UnusedId(db, db.nextId);
    if id in db.jobs {
      assert RowOk(db.jobs[id]);
    }
  }

  /** A dispatch goes unaccounted for exactly when another claim takes the job over. */
  lemma {:induction false} DispatchesAreConserved(db: Db, steps: seq<Step>, id: JobId)
    requires Inv(db) && ValidRun(db, steps)
    ensures Abandoned(Exec(db, steps), id) == Abandoned(db, id) + Reclaims(db, steps, id)
    decreases |steps|
  {
    if steps != [] {
      forall kind: AuditKind
        ensures Count(Apply(db, steps[0]).audit, kind, id)
                == Count(db.audit, kind, id) + AsNat(Logged(db, steps[0]) == Some(AuditRow(kind, id)))
      {
        StepCounts(db, steps[0], kind, id);
      }
      AbandonedByCounts(db, steps[0], id);
      StepKeepsInv(db, steps[0]);
      DispatchesAreConserved(Apply(db, steps[0]), steps[1..], id);
    }
  }

  /** The whole account of a run from the empty queue, for every id, pruned ones included. */
  lemma RunAccount(steps: seq<Step>, id: JobId)
    requires ValidRun(EMPTY_DB, steps)
    ensures var db := Exec(EMPTY_DB, steps);
            && Inv(db)
            && Count(db.audit, Dispatched, id)
               == Finalised(db, id) + Reclaims(EMPTY_DB, steps, id) + AsNat(Running(db, id))
            && (id in db.jobs ==>
                  Count(db.audit, Dispatched, id) <= Budget(db.jobs[id]) + Reclaims(EMPTY_DB, steps, id))
  {
    RunKeepsInv(EMPTY_DB, steps);
    DispatchesAreConserved(EMPTY_DB, steps, id);
    var db := Exec(EMPTY_DB, steps);
    if id in db.jobs {
      assert RowOk(db.jobs[id]) && AuditOk(db, id);
    }
  }

  predicate ClaimsJob(step: Step, id: JobId) {
    step.Claim? && step.id == id
  }

  lemma {:induction false} NoClaimNoDispatch(db: Db, steps: seq<Step>, id: JobId)
    requires ValidRun(db, steps) && forall step :: step in steps ==> !ClaimsJob(step, id)
    ensures Count(Exec(db, steps).audit, Dispatched, id) == Count(db.audit, Dispatched, id)
    ensures Reclaims(db, steps, id) == 0
    decreases |steps|
  {
    if steps != [] {
      StepCounts(db, steps[0], Dispatched, id);
      assert !ClaimsJob(steps[0], id);
      hide Count;
      NoClaimNoDispatch(Apply(db, steps[0]), steps[1..], id);
    }
  }

  /**
   * Each dispatch is finalised at most once: from a claim until the next one of the same job, whoever sends
   * marks in between, one row of the audit log ends it once it no longer runs, and none while it does.
   */
  lemma DispatchEndsOnce(db: Db, claim: Step, steps: seq<Step>, id: JobId)
    requires Inv(db) && Enabled(db, claim) && ClaimsJob(claim, id)
    requires ValidRun(Apply(db, claim), steps) && forall step :: step in steps ==> !ClaimsJob(step, id)
    ensures var after := Exec(Apply(db, claim), steps);
            Finalised(after, id) == Finalised(db, id) + AsNat(!Running(after, id))
  {
    StepKeepsInv(db, claim);
    forall kind: AuditKind
      ensures Count(Apply(db, claim).audit, kind, id)
              == Count(db.audit, kind, id) + AsNat(Logged(db, claim) == Some(AuditRow(kind, id)))
    {
      StepCounts(db, claim, kind, id);
    }
    NoClaimNoDispatch(Apply(db, claim), steps, id);
    DispatchesAreConserved(Apply(db, claim), steps, id);
    hide Count;
    hide Inv;
  }

  // ----- Leases -----

  predicate Marks(step: Step, id: JobId) {
    (step.MarkDone? || step.MarkFailed?) && step.id == id
  }

  predicate MarksBy(step: Step, id: JobId, worker: WorkerId) {
    Marks(step, id) && step.worker == worker
  }

  lemma StepKeepsLease(db: Db, step: Step, id: JobId, worker: WorkerId)
    requires Inv(db) && Enabled(db, step)
    requires Owns(db, id, worker) && !MarksBy(step, id, worker)
    requires db.jobs[id].lockedUntil.Some? && db.now <= db.jobs[id].lockedUntil.value
    ensures id in Apply(db, step).jobs && Apply(db, step).jobs[id] == db.jobs[id]
  {
    assert UnusedId(db, db.nextId) && RowOk(db.jobs[id]);
    hide Count;
  }

  /** Until its lock expires, a worker that has not marked the job yet keeps it. */
  lemma {:induction false} LeaseHolds(db: Db, steps: seq<Step>, id: JobId, worker: WorkerId)
    requires Inv(db) && ValidRun(db, steps)
    requires Owns(db, id, worker)
    requires forall step :: step in steps ==> !MarksBy(step, id, worker)
    requires db.jobs[id].lockedUntil.Some? && Exec(db, steps).now <= db.jobs[id].lockedUntil.value
    ensures id in Exec(db, steps).jobs && Exec(db, steps).jobs[id] == db.jobs[id]
    decreases |steps|
  {
    if steps != [] {
      ClockOnlyAdvances(Apply(db, steps[0]), steps[1..]);
      StepKeepsLease(db, steps[0], id, worker);
      StepKeepsInv(db, steps[0]);
      LeaseHolds(Apply(db, steps[0]), steps[1..], id, worker);
    }
  }

  lemma {:induction false} ClockOnlyAdvances(db: Db, steps: seq<Step>)
    requires ValidRun(db, steps)
    ensures db.now <= Exec(db, steps).now
    decreases |steps|
  {
    if steps != [] {
      ClockOnlyAdvances(Apply(db, steps[0]), steps[1..]);
    }
  }

  predicate ClaimsFor(step: Step, id: JobId, worker: WorkerId) {
    step.Claim? && step.id == id && step.worker == worker
  }

  lemma StepGivesNoOwnership(db: Db, step: Step, id: JobId, worker: WorkerId)
    requires Inv(db) && Enabled(db, step) && id < db.nextId
    requires !Owns(db, id, worker) && !ClaimsFor(step, id, worker)
    ensures !Owns(Apply(db, step), id, worker) && id < Apply(db, step).nextId
  {
    hide Count;
  }

  /**
   * Once a job has gone to someone else, nothing its old owner does to it has any effect, on jobs
   * or audit log, however long it waits, unless it claims the job again.
   */
  lemma {:induction false} StaleMarksDoNothing(db: Db, steps: seq<Step>, id: JobId, worker: WorkerId, mark: Step)
    requires Inv(db) && ValidRun(db, steps) && id < db.nextId
    requires !Owns(db, id, worker)
    requires forall step :: step in steps ==> !ClaimsFor(step, id, worker)
    requires MarksBy(mark, id, worker)
    ensures Enabled(Exec(db, steps), mark) && Apply(Exec(db, steps), mark) == Exec(db, steps)
    decreases |steps|
  {
    if steps != [] {
      StepGivesNoOwnership(db, steps[0], id, worker);
      StepKeepsInv(db, steps[0]);
      StaleMarksDoNothing(Apply(db, steps[0]), steps[1..], id, worker, mark);
    }
  }

  predicate Terminal(state: JobState) {
    state == Done || state == Dead
  }

  lemma StepKeepsTerminalRow(db: Db, step: Step, id: JobId)
    requires Inv(db) && Enabled(db, step)
    requires id in db.jobs && Terminal(db.jobs[id].state)
    ensures id in Apply(db, step).jobs ==> Apply(db, step).jobs[id] == db.jobs[id]
    ensures id !in Apply(db, step).jobs ==> step == Prune(id) && db.jobs[id].state == Done
  {
    hide Count;
    assert RowOk(db.jobs[id]) && UnusedId(db, db.nextId);
  }

  lemma {:induction false} PrunedStaysGone(db: Db, steps: seq<Step>, id: JobId)
    requires Inv(db) && ValidRun(db, steps) && id < db.nextId && id !in db.jobs
    ensures id !in Exec(db, steps).jobs
    decreases |steps|
  {
    if steps != [] {
      StepKeepsInv(db, steps[0]);
      hide Count;
      PrunedStaysGone(Apply(db, steps[0]), steps[1..], id);
    }
  }

  /** Done and dead rows never change again; only done rows ever go away, and never come back. */
  lemma {:induction false} TerminalRowsAreFinal(db: Db, steps: seq<Step>, id: JobId)
    requires Inv(db) && ValidRun(db, steps)
    requires id in db.jobs && Terminal(db.jobs[id].state)
    ensures var later := Exec(db, steps);
            if id in later.jobs then later.jobs[id] == db.jobs[id] else db.jobs[id].state == Done
    decreases |steps|
  {
    if steps != [] {
      var next := Apply(db, steps[0]);
      StepKeepsTerminalRow(db, steps[0], id);
      StepKeepsInv(db, steps[0]);
      if id in next.jobs {
        TerminalRowsAreFinal(next, steps[1..], id);
      } else {
        assert UnusedId(db, id);
        PrunedStaysGone(next, steps[1..], id);
      }
    }
  }

  /** A row can be claimed at exactly the moments its lock and its schedule allow, unless it is final. */
  lemma ClaimableIff(db: Db, id: JobId)
    requires Inv(db) && id in db.jobs
    ensures var job := db.jobs[id];
            Claimable(db, id, job.queue) <==>
            !Terminal(job.state) && job.runAfter <= db.now
            && (job.lockedUntil.Some? ==> job.lockedUntil.value < db.now)
  {
    assert RowOk(db.jobs[id]);
  }

  /** No job is ever stuck: letting the clock pass its lock and its schedule is enough. */
  lemma NothingGetsStuck(db: Db, id: JobId, now: int)
    requires Inv(db) && id in db.jobs && !Terminal(db.jobs[id].state)
    requires now >= db.now && now >= db.jobs[id].runAfter
    requires db.jobs[id].lockedUntil.Some? ==> now > db.jobs[id].lockedUntil.value
    ensures Enabled(db, Tick(now)) && Claimable(Apply(db, Tick(now)), id, db.jobs[id].queue)
  {
    assert RowOk(db.jobs[id]);
  }

  lemma {:induction false} EarliestExists(db: Db, ids: set<JobId>) returns (first: JobId)
    requires ids != {} && ids <= db.jobs.Keys
    ensures first in ids && forall other :: other in ids ==> db.jobs[first].runAfter <= db.jobs[other].runAfter
  {
    first :| first in ids;
    if ids != {first} {
      var rest := EarliestExists(db, ids - {first});
      if db.jobs[rest].runAfter < db.jobs[first].runAfter {
        first := rest;
      }
    }
  }

  // ----- The queue as the program sees it -----

  datatype EnqueueResult =
    | Created(id: JobId)
    | Existing(id: JobId, state: JobState)
    | InvalidPayload(path: PayloadScan.Path)
    | KeyLengthViolation
    | ContentionExceeded

  datatype Claimed = Claimed(id: JobId, job: Job)

  class JobStore {
    var jobs: map<JobId, Job>
    var audit: seq<AuditRow>
    var now: int
    var nextId: JobId

    constructor ()
      ensures Now() == EMPTY_DB && Inv(Now())
    {
      jobs, audit, now, nextId := map[], [], 0, 0;
    }

    function Now(): Db
      reads this
    {
      Db(jobs, audit, now, nextId)
    }

    method ClaimOne(queue: string, worker: WorkerId, vis: int, skipped: set<JobId>) returns (claimed: Option<Claimed>)
      requires Inv(Now())
      modifies this
      ensures Inv(Now())
      ensures claimed.None? <==> Candidates(old(Now()), queue, skipped) == {}
      ensures claimed.None? ==> Now() == old(Now())
      ensures claimed.Some? ==>
        var id := claimed.value.id;
        && ClaimPicks(old(Now()), id, queue, skipped)
        && Now() == Apply(old(Now()), Claim(id, worker, vis, skipped))
        && claimed.value.job == jobs[id]
    {
      var candidates := Candidates(Now(), queue, skipped);
      if candidates == {} {
        return None;
      }
      ghost var first := EarliestExists(Now(), candidates);
      var id :| id in candidates && forall other :: other in candidates ==> jobs[id].runAfter <= jobs[other].runAfter;
      StepKeepsInv(Now(), Claim(id, worker, vis, skipped));
      hide Inv;
      jobs := jobs[id := jobs[id].(state := InProgress, lockedUntil := Some(now + vis), lockedBy := Some(worker),
                                   updatedAt := now)];
      audit := audit + [AuditRow(Dispatched, id)];
      claimed := Some(Claimed(id, jobs[id]));
      assert ClaimPicks(old(Now()), id, queue, skipped);
    }

    method Done(id: JobId, worker: WorkerId)
      requires Inv(Now())
      modifies this
      ensures Inv(Now())
      ensures Now() == Apply(old(Now()), MarkDone(id, worker))
    {
      StepKeepsInv(Now(), MarkDone(id, worker));
      if !(id in jobs && jobs[id].lockedBy == Some(worker)) {
        return;
      }
      jobs := jobs[id := jobs[id].(state := JobState.Done, lockedUntil := None, lockedBy := None, updatedAt := now)];
      audit := audit + [AuditRow(JobDone, id)];
    }

    /** Two UPDATE statements and one INSERT in one transaction. */
    method Failed(id: JobId, worker: WorkerId, error: string)
      requires Inv(Now())
      modifies this
      ensures Inv(Now())
      ensures Now() == Apply(old(Now()), MarkFailed(id, worker, error))
    {
      StepKeepsInv(Now(), MarkFailed(id, worker, error));
      hide Inv;
      ghost var goal := Apply(Now(), MarkFailed(id, worker, error));
      if !(id in jobs && jobs[id].lockedBy == Some(worker)) {
        return;
      }
      jobs := jobs[id := jobs[id].(attempts := jobs[id].attempts + 1, lastError := Some(error), lockedUntil := None,
                                   lockedBy := None, updatedAt := now)];
      if jobs[id].attempts >= jobs[id].maxAttempts {
        jobs := jobs[id := jobs[id].(state := Dead, updatedAt := now)];
        audit := audit + [AuditRow(JobDead, id)];
      } else {
        jobs := jobs[id := jobs[id].(state := Queued, updatedAt := now)];
        audit := audit + [AuditRow(JobFailed, id)];
      }
      assert jobs == goal.jobs;
    }

    /** What other connections commit between two statements of this one: any valid run. */
    method OtherTransactions()
      requires Inv(Now())
      modifies this
      ensures Reaches(old(Now()), Now())
      ensures Inv(Now())
    {
      ReachesSelf(Now());
    }

    method FindKey(key: string) returns (id: Option<JobId>)
      ensures id.None? <==> !KeyTaken(Now(), key)
      ensures id.Some? ==> id.value in jobs && jobs[id.value].key == key
    {
      if KeyTaken(Now(), key) {
        var found :| found in jobs && jobs[found].key == key;
        return Some(found);
      }
      return None;
    }

    /** INSERT ... ON CONFLICT DO NOTHING, with the audit row of the same transaction. */
    method TryInsert(queue: string, key: string) returns (id: Option<JobId>)
      requires Inv(Now()) && 1 <= |key| <= MAX_KEY_LENGTH
      modifies this
      ensures Inv(Now())
      ensures id.None? <==> old(KeyTaken(Now(), key))
      ensures id.None? ==> Now() == old(Now())
      ensures id.Some? ==>
        && id.value == old(nextId)
        && Now() == Apply(old(Now()), Insert(queue, key, DEFAULT_MAX_ATTEMPTS, old(now)))
    {
      if KeyTaken(Now(), key) {
        return None;
      }
      StepKeepsInv(Now(), Insert(queue, key, DEFAULT_MAX_ATTEMPTS, now));
      id := Some(nextId);
      jobs := jobs[nextId := Job(queue, key, Queued, 0, DEFAULT_MAX_ATTEMPTS, now, None, None, None, now)];
      audit := audit + [AuditRow(Enqueued, nextId)];
      nextId := nextId + 1;
    }

    /**
     * `seen` is the database right before the statement that decided the answer: the call has
     * changed nothing up to there, and after it exactly the one insert, if there is one.
     */
    method Enqueue(heap: PayloadScan.Heap, payload: PayloadScan.Value, queue: string, key: string)
      returns (r: EnqueueResult, ghost seen: Db)
      requires Inv(Now()) && PayloadScan.WellFormed(heap) && PayloadScan.ValueIn(heap, payload)
      modifies this
      ensures Inv(Now()) && Inv(seen)
      ensures Reaches(old(Now()), seen)
      ensures r.InvalidPayload? <==> exists p :: PayloadScan.Offends(heap, payload, p)
      ensures r.InvalidPayload? ==> PayloadScan.Offends(heap, payload, r.path)
      ensures r.KeyLengthViolation? <==> !r.InvalidPayload? && !(1 <= |key| <= MAX_KEY_LENGTH)
      ensures r.Created? ==>
        && Enabled(seen, Insert(queue, key, DEFAULT_MAX_ATTEMPTS, seen.now))
        && Now() == Apply(seen, Insert(queue, key, DEFAULT_MAX_ATTEMPTS, seen.now))
        && r.id == seen.nextId
      ensures r.Existing? ==> r.id in seen.jobs && seen.jobs[r.id].key == key && seen.jobs[r.id].state == r.state
      ensures r.ContentionExceeded? ==> !KeyTaken(seen, key)
      ensures !r.Created? ==> Now() == seen
    {
      hide Inv;
      hide Reaches;
      ghost var start := Now();
      seen := Now();
      ReachesSelf(start);
      var path := PayloadScan.FindSensitivityKey(heap, payload);
      if path.Some? {
        r := InvalidPayload(path.value);
        return;
      }
      if !(1 <= |key| <= MAX_KEY_LENGTH) {
        r := KeyLengthViolation;
        return;
      }
      OtherTransactions();
      ReachesTrans(start, seen, Now());
      seen := Now();
      var inserted := TryInsert(queue, key);
      if inserted.Some? {
        r := Created(inserted.value);
        return;
      }
      OtherTransactions();
      ReachesTrans(start, seen, Now());
      seen := Now();
      var existing := FindKey(key);
      if existing.Some? {
        r := Existing(existing.value, jobs[existing.value].state);
        return;
      }
      // The conflicting row is gone again: one retry.
      OtherTransactions();
      ReachesTrans(start, seen, Now());
      seen := Now();
      inserted := TryInsert(queue, key);
      if inserted.Some? {
        r := Created(inserted.value);
        return;
      }
      OtherTransactions();
      ReachesTrans(start, seen, Now());
      seen := Now();
      existing := FindKey(key);
      if existing.Some? {
        r := Existing(existing.value, jobs[existing.value].state);
        return;
      }
      r := ContentionExceeded;
    }
  }
}
