/** The rewrite of legacy job rows and the seed of the fencing counter, before the triggers exist. */
module JobMigration {
  import opened Wrappers
  import opened JobTables
  import opened JobService
  import opened JobInvariant
  import opened JobFencing
  import opened JobGuards
  import opened JobPointers

  /** A job row before the upgrade. attempt_count was already checked to be non-negative. */
  datatype LegacyJob = LegacyJob(
    task: Option<Id>, jobType: string, key: string, input: string, scope: Id,
    status: Status, attemptCount: nat, completedAt: Option<int>, createdAt: int, updatedAt: int)

  function MaxAttempts(row: LegacyJob): int {
    if 100 <= row.attemptCount then 100
    else if Terminal(row.status) || row.task.None? then if 5 < row.attemptCount then row.attemptCount else 5
    else if 5 <= row.attemptCount then row.attemptCount + 1
    else 5
  }

  function NewStatus(row: LegacyJob): Status {
    if !Terminal(row.status) && row.task.None? then Failed
    else if !Terminal(row.status) && 100 <= row.attemptCount then Failed
    else if row.status.Running? then Queued
    else row.status
  }

  function NewCompletedAt(row: LegacyJob): Option<int> {
    if Terminal(row.status) || row.task.None? || 100 <= row.attemptCount then
      if row.completedAt.Some? then row.completedAt else Some(row.updatedAt)
    else None
  }

  function NewError(row: LegacyJob): Option<string> {
    if !Terminal(row.status) && row.task.None? then Some("LEGACY_TASK_BINDING_MISSING")
    else if !Terminal(row.status) && 100 <= row.attemptCount then Some("LEGACY_ATTEMPT_BUDGET_EXCEEDED")
    else None
  }

  function Upgraded(row: LegacyJob): Job {
    Job(JobSpec(row.task, row.jobType, row.key, row.input, MaxAttempts(row), 1, 300, row.scope),
        NewStatus(row), if 100 < row.attemptCount then 100 else row.attemptCount, row.createdAt, 0,
        None, None, None, None, None, NewError(row), NewCompletedAt(row), None)
  }

  /** Every legacy row becomes one the job guard accepts; a row left runnable has a task and attempts
      left; a finished row keeps its status, and a row is failed by the rewrite exactly when it was
      unfinished and had no task or had used up a hundred attempts. */
  lemma UpgradedShape(row: LegacyJob)
    ensures JobShape(Upgraded(row)) && !Upgraded(row).status.Running?
    ensures Upgraded(row).status.Queued? ==>
              row.task.Some? && Upgraded(row).attemptCount == row.attemptCount < Upgraded(row).spec.maxAttempts
    ensures Terminal(row.status) ==> Upgraded(row).status == row.status && Upgraded(row).lastError.None?
    ensures !Terminal(row.status) ==>
              (Upgraded(row).status.Failed? <==> row.task.None? || 100 <= row.attemptCount)
              && (Upgraded(row).status.Queued? <==> row.task.Some? && row.attemptCount < 100)
  {
  }

  /** A budget that holds the attempts made, and one more for a row that may run again. */
  predicate Suffices(job: Job, budget: int) {
    5 <= budget <= 100 && job.attemptCount + (if job.status.Queued? then 1 else 0) <= budget
  }

  /** The other columns: attempts are cut at a hundred, the budget is the least that suffices, an unfinished row runs
      at once and a finished one keeps or gets its time of completion; only failed bindings and budgets leave an error. */
  lemma UpgradedColumns(row: LegacyJob)
    ensures var job := Upgraded(row);
            && (if row.attemptCount <= 100 then job.attemptCount == row.attemptCount else job.attemptCount == 100)
            && Suffices(job, job.spec.maxAttempts)
            && (forall budget :: Suffices(job, budget) ==> job.spec.maxAttempts <= budget)
            && job.spec.task == row.task && job.spec.jobType == row.jobType && job.spec.key == row.key
            && job.spec.input == row.input && job.spec.scope == row.scope
            && job.availableAt == row.createdAt && job.checkpointVersion == 0 && job.currentLease.None?
            && job.lastToken.None? && job.cancelRequestedAt.None? && job.spec.retryBase == 1 && job.spec.retryMax == 300
            && (Terminal(job.status) ==>
                  job.completedAt == Some(if row.completedAt.Some? then row.completedAt.value else row.updatedAt))
            && (job.lastError.Some? <==> !Terminal(row.status) && Terminal(job.status))
            && (job.lastError.Some? ==>
                  job.lastError.value == if row.task.None? then "LEGACY_TASK_BINDING_MISSING" else "LEGACY_ATTEMPT_BUDGET_EXCEEDED")
  {
    var job := Upgraded(row);
    assert Suffices(job, job.spec.maxAttempts);
  }

  /** Rewrite the whole table. */
  method UpgradeJobs(legacy: map<Id, LegacyJob>) returns (jobs: map<Id, Job>)
    ensures jobs.Keys == legacy.Keys
    ensures forall id <- legacy :: jobs[id] == Upgraded(legacy[id])
  {
    jobs := map[];
    var rest := legacy.Keys;
    while rest != {}
      invariant rest <= legacy.Keys && jobs.Keys == legacy.Keys - rest
      invariant forall id <- jobs :: jobs[id] == Upgraded(legacy[id])
      decreases |rest|
    {
      var id :| id in rest;
      jobs := jobs[id := Upgraded(legacy[id])];
      rest := rest - {id};
    }
  }

  /** COALESCE(MAX(fencing_token), 0) + 1. */
  method SeedCounter(leases: map<Id, Lease>) returns (next: int)
    ensures forall l <- leases :: leases[l].token < next
    ensures leases != map[] ==> exists l <- leases :: next == leases[l].token + 1
    ensures leases == map[] ==> next == 1
  {
    if leases == map[] { return 1; }
    var rest := leases.Keys;
    var first :| first in rest;
    var top := leases[first].token;
    rest := rest - {first};
    while rest != {}
      invariant rest <= leases.Keys
      invariant forall l <- leases :: l !in rest ==> leases[l].token <= top
      invariant exists l <- leases :: top == leases[l].token
      decreases |rest|
    {
      var l :| l in rest;
      if top < leases[l].token { top := leases[l].token; }
      rest := rest - {l};
    }
    next := top + 1;
  }

  /** A migrated job waits for work: no lease of its own is projected and its tokens are old. */
  ghost predicate Waiting(db: Db, id: Id) {
    && id in db.jobs && 0 < db.nextToken
    && JobShape(db.jobs[id]) && db.jobs[id].status.Queued? && db.jobs[id].spec.task.Some?
    && db.jobs[id].attemptCount < db.jobs[id].spec.maxAttempts
    && db.jobs[id].cancelRequestedAt.None? && db.jobs[id].availableAt <= db.now
    && (forall l <- db.leases :: db.leases[l].token < db.nextToken)
  }

  /** Such a job can be claimed exactly when its recorded leases end at its attempt count: the service
      numbers the new lease after the last lease, the guard after the attempt count. */
  lemma MigratedClaim(db: Db, id: Id, lease: Id, worker: string, duration: int)
    requires Waiting(db, id) && lease !in db.leases && ValidDuration(duration)
    ensures DoClaim(db, id, lease, worker, duration).Done? <==> LastAttempt(db, id) == db.jobs[id].attemptCount
    ensures DoClaim(db, id, lease, worker, duration).Refused? <==> LastAttempt(db, id) != db.jobs[id].attemptCount
  {
    assert forall l <- db.leases :: db.leases[l].token != db.nextToken;
  }

  /** A migrated queued job that had attempts but no lease rows can never be claimed. */
  lemma StrandedExample(row: LegacyJob, id: Id, now: int, lease: Id, worker: string)
    requires row.task.Some? && row.status.Queued? && row.attemptCount == 1 && row.createdAt <= now
    ensures DoClaim(Empty(now).(jobs := map[id := Upgraded(row)]), id, lease, worker, SECOND) == Refused
  {
    var db := Empty(now).(jobs := map[id := Upgraded(row)]);
    UpgradedShape(row);
    MigratedClaim(db, id, lease, worker, SECOND);
  }

  // ----- running on from migrated tables

  /** A lease row before the upgrade, which adds its other columns as NULL or 0. */
  datatype LegacyLease = LegacyLease(
    job: Id, owner: string, attempt: int, token: int, scope: Id, createdAt: int, heartbeatAt: int, expiresAt: int)

  function Carried(row: LegacyLease): Lease {
    Lease(row.job, row.owner, row.attempt, row.token, row.scope, row.createdAt, row.heartbeatAt, row.expiresAt, 0,
          None, None, None, 0)
  }

  /** The database that the upgrade leaves, with the counter at next. */
  function Migrated(now: int, jobs: map<Id, LegacyJob>, leases: map<Id, LegacyLease>, next: int): Db {
    Db(now, next, map id | id in jobs :: Upgraded(jobs[id]), map l | l in leases :: Carried(leases[l]),
       map[], map[], map[], map[], map[])
  }

  /** The counter stands above every legacy token. */
  ghost predicate Seeded(leases: map<Id, LegacyLease>, next: int) {
    0 < next && forall l <- leases :: leases[l].token < next
  }

  function Attempts(row: LegacyJob): nat {
    if 100 < row.attemptCount then 100 else row.attemptCount
  }

  ghost predicate LegacyLeaseSound(now: int, jobs: map<Id, LegacyJob>, row: LegacyLease) {
    && row.job in jobs && row.scope == jobs[row.job].scope
    && 0 < row.token && 1 <= row.attempt <= Attempts(jobs[row.job])
    && row.createdAt <= row.heartbeatAt <= now && row.heartbeatAt < row.expiresAt
  }

  ghost predicate LegacyPairSound(leases: map<Id, LegacyLease>, l: Id, m: Id)
    requires l in leases && m in leases
  {
    && (l != m ==> leases[l].token != leases[m].token)
    && (l != m && leases[l].job == leases[m].job ==> leases[l].attempt != leases[m].attempt)
    && (leases[l].job == leases[m].job && leases[l].attempt < leases[m].attempt ==> leases[l].token < leases[m].token)
  }

  ghost predicate LegacyAttempt(leases: map<Id, LegacyLease>, l: Id, j: Id, a: int) {
    l in leases && leases[l].job == j && leases[l].attempt == a
  }

  ghost predicate HasLegacyAttempt(leases: map<Id, LegacyLease>, j: Id, a: int) {
    exists l :: LegacyAttempt(leases, l, j, a)
  }

  ghost predicate LegacyAttemptsDense(jobs: map<Id, LegacyJob>, leases: map<Id, LegacyLease>) {
    forall j, a :: j in jobs && 1 <= a <= Attempts(jobs[j]) ==> HasLegacyAttempt(leases, j, a)
  }

  /** Legacy tables whose leases tell the attempts of their jobs, each once and in the order of tokens. */
  ghost predicate LegacySound(now: int, jobs: map<Id, LegacyJob>, leases: map<Id, LegacyLease>) {
    && (forall l <- leases :: LegacyLeaseSound(now, jobs, leases[l]))
    && (forall l, m :: l in leases && m in leases ==> LegacyPairSound(leases, l, m))
    && LegacyAttemptsDense(jobs, leases)
  }

  lemma MigratedRows(now: int, jobs: map<Id, LegacyJob>, leases: map<Id, LegacyLease>, next: int)
    requires Seeded(leases, next)
    ensures var db := Migrated(now, jobs, leases, next);
            && (forall l <- leases :: LeaseOk(db, l) <==> LegacyLeaseSound(now, jobs, leases[l]))
            && (forall l, m :: l in leases && m in leases ==> (PairOk(db, l, m) <==> LegacyPairSound(leases, l, m)))
            && (forall j <- jobs :: JobOk(db, j))
  {
    var db := Migrated(now, jobs, leases, next);
    forall j <- jobs ensures JobOk(db, j) && db.jobs[j].attemptCount == Attempts(jobs[j]) { UpgradedShape(jobs[j]); }
    forall l <- leases ensures LeaseOk(db, l) <==> LegacyLeaseSound(now, jobs, leases[l]) { }
  }

  lemma MigratedAttempts(now: int, jobs: map<Id, LegacyJob>, leases: map<Id, LegacyLease>, next: int)
    ensures AttemptsDense(Migrated(now, jobs, leases, next)) <==> LegacyAttemptsDense(jobs, leases)
  {
    var db := Migrated(now, jobs, leases, next);
    forall j, a ensures HasAttempt(db, j, a) <==> HasLegacyAttempt(leases, j, a) {
      if HasAttempt(db, j, a) {
        var l :| IsAttempt(db, l, j, a);
        assert LegacyAttempt(leases, l, j, a);
      }
      if HasLegacyAttempt(leases, j, a) {
        var l :| LegacyAttempt(leases, l, j, a);
        assert IsAttempt(db, l, j, a);
      }
    }
    assert forall j <- jobs :: db.jobs[j].attemptCount == Attempts(jobs[j]);
  }

  /** The upgrade establishes the invariant of the job loop if and only if the legacy leases tell the
      attempts of their jobs. */
  lemma MigratedExactly(now: int, jobs: map<Id, LegacyJob>, leases: map<Id, LegacyLease>, next: int)
    requires Seeded(leases, next)
    ensures Inv(Migrated(now, jobs, leases, next)) <==> LegacySound(now, jobs, leases)
  {
    MigratedRows(now, jobs, leases, next);
    MigratedAttempts(now, jobs, leases, next);
    var db := Migrated(now, jobs, leases, next);
    assert db.leases.Keys == leases.Keys && db.jobs.Keys == jobs.Keys;
    assert CheckpointsOk(db) by {
      forall j | j in db.jobs ensures db.jobs[j].checkpointVersion == 0 { }
    }
    assert EffectsOk(db) && TransitionsOk(db) && IgnoredOk(db) && OutagesOk(db);
  }

  /** From such tables every run keeps the invariant. */
  lemma {:induction false} SoundAfterUpgrade(now: int, jobs: map<Id, LegacyJob>, leases: map<Id, LegacyLease>, next: int, cs: seq<Command>)
    requires Seeded(leases, next) && LegacySound(now, jobs, leases)
    ensures Inv(Run(Migrated(now, jobs, leases, next), cs))
  {
    MigratedExactly(now, jobs, leases, next);
    RunKeeps(Migrated(now, jobs, leases, next), cs);
  }

  /** Fencing holds from every upgraded database, sound or not: once the job of a lease points elsewhere,
      nothing is ever written under the lease again. That is so for every legacy lease from the start,
      although none was ever released. */
  lemma {:induction false} FencedAfterUpgrade(now: int, jobs: map<Id, LegacyJob>, leases: map<Id, LegacyLease>, next: int,
                           cs: seq<Command>, more: seq<Command>, l: Id)
    ensures var mid := Run(Migrated(now, jobs, leases, next), cs);
            var end := Run(mid, more);
            && (l in leases ==> Retired(mid, l) && mid.leases[l] == Carried(leases[l]))
            && (Retired(mid, l) ==>
                  Retired(end, l) && !Usable(end, l) && end.leases[l] == mid.leases[l] && SameWritesUnder(mid, end, l))
  {
    var db := Migrated(now, jobs, leases, next);
    RetiredForever(db, cs, l);
    RetiredForever(Run(db, cs), more, l);
    if l in leases { assert Retired(db, l); }
  }

  /** From sound legacy tables no runnable job is stranded: each can be claimed as soon as it is due. */
  lemma ClaimableAfterUpgrade(now: int, jobs: map<Id, LegacyJob>, leases: map<Id, LegacyLease>, next: int,
                              id: Id, lease: Id, worker: string, duration: int)
    requires Seeded(leases, next) && LegacySound(now, jobs, leases)
    requires id in jobs && Upgraded(jobs[id]).status.Queued? && jobs[id].createdAt <= now
    requires lease !in leases && ValidDuration(duration)
    ensures DoClaim(Migrated(now, jobs, leases, next), id, lease, worker, duration).Done?
  {
    var db := Migrated(now, jobs, leases, next);
    MigratedExactly(now, jobs, leases, next);
    UpgradedShape(jobs[id]);
    assert Waiting(db, id);
    LastAttemptIsCount(db, db, id);
    MigratedClaim(db, id, lease, worker, duration);
  }
}
