/** The tables of the background-job loop and the guard that every row write must pass.
    A guard is the trigger of that table, read two-valued: a comparison with NULL is false. */
module JobTables {
  import opened Wrappers

  type Id = nat

  /** What one write, or one transaction made of writes, comes to. A refused write rolls its
      transaction back; a raised error leaves the transaction before it wrote anything. */
  datatype Outcome<+T> = Done(value: T) | Raised | Refused {
    predicate IsFailure() { !Done? }

    function PropagateFailure<U>(): Outcome<U>
      requires IsFailure()
    {
      if Raised? then Raised else Refused
    }

    function Extract(): T
      requires Done?
    {
      value
    }
  }

  datatype Status = Queued | Running | Succeeded | Failed | Cancelled
  datatype Reason = SupersededLease | ExpiredLease | RetryLease | SucceededLease | FailedLease | CancelledLease

  /** The columns of a job that no update may change. The input stands for the payload together with the
      requested time, which the fingerprint of a schedule covers too. */
  datatype JobSpec = JobSpec(
    task: Option<Id>, jobType: string, key: string, input: string,
    maxAttempts: int, retryBase: int, retryMax: int, scope: Id)

  datatype Job = Job(
    spec: JobSpec, status: Status, attemptCount: int, availableAt: int, checkpointVersion: int,
    currentLease: Option<Id>, currentToken: Option<int>, leaseOwner: Option<string>, leaseExpiresAt: Option<int>,
    lastToken: Option<int>, lastError: Option<string>, completedAt: Option<int>, cancelRequestedAt: Option<int>)

  /** Rows from before the loop carry protocol version 0, those that it inserts version 1. */
  datatype Lease = Lease(
    job: Id, owner: string, attempt: int, token: int, scope: Id,
    createdAt: int, heartbeatAt: int, expiresAt: int, checkpointVersion: int,
    releasedAt: Option<int>, releaseReason: Option<Reason>, failureCode: Option<string>, protocol: int)

  datatype Checkpoint = Checkpoint(lease: Id, token: int, key: string, payload: string, scope: Id)

  datatype EffectStatus = Pending | EffectSucceeded | EffectFailed

  datatype Effect = Effect(
    job: Id, kind: string, key: string, request: string, status: EffectStatus,
    startedLease: Id, startedToken: int,
    completionLease: Option<Id>, completionToken: Option<int>, result: Option<string>, scope: Id)

  datatype TaskTransition = TaskTransition(job: Id, lease: Id, token: int, task: Id, scope: Id)

  datatype IgnoredResult = IgnoredResult(job: Id, lease: Id, token: int, effect: Option<Id>, receivedAt: int)

  datatype Outage = Outage(lease: Id, token: int, errorCode: string, exhausted: bool)

  /** Checkpoints and outages are keyed by their unique (job, sequence) and (job, attempt),
      task transitions by their unique event, ignored results by their idempotency key. */
  datatype Db = Db(
    now: int, nextToken: int,
    jobs: map<Id, Job>, leases: map<Id, Lease>,
    checkpoints: map<(Id, int), Checkpoint>, effects: map<Id, Effect>,
    transitions: map<Id, TaskTransition>, ignored: map<string, IgnoredResult>,
    outages: map<(Id, int), Outage>)

  predicate Terminal(status: Status) {
    status.Succeeded? || status.Failed? || status.Cancelled?
  }

  /** x = y in SQL, on columns that may be NULL. */
  predicate SqlEqual<T(==)>(x: Option<T>, y: Option<T>) {
    x.Some? && y.Some? && x.value == y.value
  }

  // ----- jobs

  predicate LeaseColumnsShape(job: Job) {
    && (job.currentLease.Some? <==> job.currentToken.Some?)
    && (job.currentLease.Some? <==> job.leaseOwner.Some?)
    && (job.currentLease.Some? <==> job.leaseExpiresAt.Some?)
  }

  predicate StatusShape(job: Job) {
    match job.status
    case Queued => job.currentLease.None? && job.completedAt.None?
    case Running => job.currentLease.Some? && job.completedAt.None?
    case _ => job.currentLease.None? && job.completedAt.Some?
  }

  predicate JobShape(job: Job) {
    && 1 <= job.spec.maxAttempts <= 100
    && 0 <= job.attemptCount <= job.spec.maxAttempts
    && 0 < job.spec.retryBase <= job.spec.retryMax
    && 0 <= job.checkpointVersion
    && LeaseColumnsShape(job)
    && StatusShape(job)
  }

  /** The lease a job row points at must exist, be unreleased and carry the projected columns. */
  predicate ProjectsLease(db: Db, id: Id, job: Job) {
    && job.currentLease.Some?
    && job.currentLease.value in db.leases
    && var lease := db.leases[job.currentLease.value];
    && lease.job == id
    && job.currentToken == Some(lease.token)
    && job.leaseOwner == Some(lease.owner)
    && job.leaseExpiresAt == Some(lease.expiresAt)
    && lease.releasedAt.None?
  }

  /** How a RUNNING job may leave, or stay in, its lease. */
  predicate FencedEdge(now: int, prior: Job, job: Job, lease: Lease) {
    || (job.status.Running? && job.currentLease == prior.currentLease && lease.releasedAt.None? && lease.expiresAt > now)
    || (job.status.Queued? && lease.releaseReason == Some(RetryLease) && lease.expiresAt > now)
    || (job.status.Queued? && lease.releaseReason == Some(ExpiredLease) && lease.expiresAt <= now && job.cancelRequestedAt.None?)
    || (job.status.Succeeded? && lease.releaseReason == Some(SucceededLease) && lease.expiresAt > now)
    || (job.status.Failed? && lease.releaseReason == Some(FailedLease) && lease.expiresAt > now)
    || (job.status.Failed? && lease.releaseReason == Some(ExpiredLease) && lease.expiresAt <= now)
    || (job.status.Cancelled? && lease.releaseReason == Some(CancelledLease) && job.cancelRequestedAt.Some?)
  }

  predicate JobEdge(db: Db, id: Id, prior: Job, job: Job) {
    || (prior.status.Queued? && prior.currentLease.None? && job.status.Running?
        && job.attemptCount == prior.attemptCount + 1 && SqlEqual(job.lastToken, job.currentToken))
    || (prior.status.Queued? && prior.currentLease.None? && job.status.Cancelled?
        && job.attemptCount == prior.attemptCount && job.currentLease.None?
        && job.cancelRequestedAt.Some? && job.lastToken == prior.lastToken)
    || (prior.status.Running? && prior.currentLease.Some? && prior.leaseExpiresAt.Some? && prior.leaseExpiresAt.value <= db.now
        && job.status.Running? && job.attemptCount == prior.attemptCount + 1
        && job.currentToken.Some? && prior.currentToken.Some? && job.currentToken.value > prior.currentToken.value
        && SqlEqual(job.lastToken, job.currentToken))
    || (prior.status.Running? && prior.currentLease.Some?
        && job.attemptCount == prior.attemptCount && SqlEqual(job.lastToken, prior.currentToken)
        && prior.currentLease.value in db.leases
        && var lease := db.leases[prior.currentLease.value];
           lease.job == id && SqlEqual(Some(lease.token), prior.currentToken) && FencedEdge(db.now, prior, job, lease))
  }

  predicate JobUpdateGuard(db: Db, id: Id, prior: Job, job: Job) {
    && job.spec == prior.spec
    && 0 <= job.attemptCount <= job.spec.maxAttempts
    && prior.checkpointVersion <= job.checkpointVersion
    && LeaseColumnsShape(job)
    && StatusShape(job)
    && (job.currentLease.Some? ==> ProjectsLease(db, id, job))
    && JobEdge(db, id, prior, job)
  }

  function InsertJob(db: Db, id: Id, job: Job): Outcome<Db> {
    if id !in db.jobs && JobShape(job) && (forall other <- db.jobs :: db.jobs[other].spec.key != job.spec.key)
    then Done(db.(jobs := db.jobs[id := job])) else Refused
  }

  function UpdateJob(db: Db, id: Id, job: Job): Outcome<Db> {
    if id in db.jobs && JobUpdateGuard(db, id, db.jobs[id], job)
    then Done(db.(jobs := db.jobs[id := job])) else Refused
  }

  // ----- leases

  predicate ReleaseShape(lease: Lease) {
    (lease.releasedAt.Some? <==> lease.releaseReason.Some?) && lease.heartbeatAt < lease.expiresAt
  }

  predicate LeaseInsertGuard(db: Db, id: Id, lease: Lease) {
    && id !in db.leases && lease.protocol == 1
    && (forall other <- db.leases :: db.leases[other].token != lease.token)
    && (forall other <- db.leases :: !(db.leases[other].job == lease.job && db.leases[other].attempt == lease.attempt))
    && ReleaseShape(lease)
    && 0 < lease.attempt && 0 < lease.token && 0 <= lease.checkpointVersion
    && lease.heartbeatAt < lease.expiresAt && db.now < lease.expiresAt
    && lease.job in db.jobs
    && var job := db.jobs[lease.job];
    && job.spec.task.Some? && job.spec.scope == lease.scope && job.cancelRequestedAt.None?
    && job.attemptCount < job.spec.maxAttempts && lease.attempt == job.attemptCount + 1
    && ((job.status.Queued? && job.availableAt <= db.now)
        || (job.status.Running? && job.leaseExpiresAt.Some? && job.leaseExpiresAt.value <= db.now))
  }

  function InsertLease(db: Db, id: Id, lease: Lease): Outcome<Db> {
    if LeaseInsertGuard(db, id, lease) then Done(db.(leases := db.leases[id := lease])) else Refused
  }

  predicate LeaseUpdateGuard(db: Db, id: Id, prior: Lease, lease: Lease) {
    && lease.job == prior.job && lease.owner == prior.owner && lease.attempt == prior.attempt
    && lease.token == prior.token && lease.scope == prior.scope && lease.protocol == prior.protocol
    && ReleaseShape(lease)
    && prior.job in db.jobs
    && var job := db.jobs[prior.job];
    && job.status.Running? && job.currentLease == Some(id)
    && job.currentToken == Some(prior.token) && job.leaseOwner == Some(prior.owner)
    && !(lease.expiresAt != prior.expiresAt && lease.heartbeatAt == prior.heartbeatAt)
    && (lease.heartbeatAt != prior.heartbeatAt ==>
          && prior.releasedAt.None? && db.now < prior.expiresAt && prior.heartbeatAt <= lease.heartbeatAt
          && lease.heartbeatAt < lease.expiresAt && prior.expiresAt <= lease.expiresAt)
    && (prior.releasedAt.Some? ==> lease.releasedAt == prior.releasedAt && lease.releaseReason == prior.releaseReason)
  }

  function UpdateLease(db: Db, id: Id, lease: Lease): Outcome<Db> {
    if id in db.leases && LeaseUpdateGuard(db, id, db.leases[id], lease)
    then Done(db.(leases := db.leases[id := lease])) else Refused
  }

  // ----- what one lease may write

  /** The EXISTS clause shared by the checkpoint, effect and task-transition triggers. */
  predicate WriteAdmitted(db: Db, id: Id, lease: Id, token: int) {
    && id in db.jobs && lease in db.leases
    && var job := db.jobs[id];
    var row := db.leases[lease];
    && row.job == id && row.token == token
    && job.status.Running? && job.currentLease == Some(lease) && job.currentToken == Some(token)
    && job.cancelRequestedAt.None?
    && row.releasedAt.None? && db.now < row.expiresAt
  }

  predicate CheckpointGuard(db: Db, id: Id, sequence: int, row: Checkpoint) {
    && WriteAdmitted(db, id, row.lease, row.token)
    && db.jobs[id].spec.scope == row.scope
    && sequence == db.jobs[id].checkpointVersion + 1
    && 0 < sequence && 0 < row.token
    && (id, sequence) !in db.checkpoints
    && (forall other <- db.checkpoints :: db.checkpoints[other].key != row.key)
  }

  function InsertCheckpoint(db: Db, id: Id, sequence: int, row: Checkpoint): Outcome<Db> {
    if CheckpointGuard(db, id, sequence, row)
    then Done(db.(checkpoints := db.checkpoints[(id, sequence) := row])) else Refused
  }

  predicate CompletionShape(effect: Effect) {
    && (effect.status.Pending? <==> effect.completionLease.None?)
    && (effect.status.Pending? <==> effect.completionToken.None?)
  }

  predicate EffectInsertGuard(db: Db, id: Id, effect: Effect) {
    && id !in db.effects && CompletionShape(effect)
    && (forall other <- db.effects :: db.effects[other].key != effect.key)
    && WriteAdmitted(db, effect.job, effect.startedLease, effect.startedToken)
    && db.jobs[effect.job].spec.scope == effect.scope
  }

  function InsertEffect(db: Db, id: Id, effect: Effect): Outcome<Db> {
    if EffectInsertGuard(db, id, effect) then Done(db.(effects := db.effects[id := effect])) else Refused
  }

  predicate EffectUpdateGuard(db: Db, prior: Effect, effect: Effect) {
    && effect.job == prior.job && effect.kind == prior.kind && effect.key == prior.key && effect.request == prior.request
    && effect.startedLease == prior.startedLease && effect.startedToken == prior.startedToken && effect.scope == prior.scope
    && prior.status.Pending? && !effect.status.Pending? && CompletionShape(effect)
    && WriteAdmitted(db, effect.job, effect.completionLease.value, effect.completionToken.value)
  }

  function UpdateEffect(db: Db, id: Id, effect: Effect): Outcome<Db> {
    if id in db.effects && EffectUpdateGuard(db, db.effects[id], effect)
    then Done(db.(effects := db.effects[id := effect])) else Refused
  }

  function InsertTransition(db: Db, event: Id, row: TaskTransition): Outcome<Db> {
    if event !in db.transitions && WriteAdmitted(db, row.job, row.lease, row.token)
       && db.jobs[row.job].spec.task == Some(row.task) && db.jobs[row.job].spec.scope == row.scope
    then Done(db.(transitions := db.transitions[event := row])) else Refused
  }

  // ----- what is recorded about a lease that may not write

  /** The EXISTS clause of the ignored-result trigger. */
  predicate IgnoreAdmitted(db: Db, id: Id, lease: Id, token: int, receivedAt: int) {
    && id in db.jobs && lease in db.leases
    && var job := db.jobs[id];
    var row := db.leases[lease];
    && row.job == id && row.token == token
    && (|| job.cancelRequestedAt.Some?
        || !job.status.Running?
        || (job.currentLease.Some? && job.currentLease.value != lease)
        || (job.currentToken.Some? && job.currentToken.value != token)
        || row.releasedAt.Some?
        || (job.leaseExpiresAt.Some? && job.leaseExpiresAt.value <= receivedAt)
        || row.expiresAt <= receivedAt)
  }

  function InsertIgnored(db: Db, key: string, row: IgnoredResult): Outcome<Db> {
    if key !in db.ignored && 0 < row.token && IgnoreAdmitted(db, row.job, row.lease, row.token, row.receivedAt)
       && (row.effect.Some? ==> row.effect.value in db.effects)
    then Done(db.(ignored := db.ignored[key := row])) else Refused
  }

  predicate OutageGuard(db: Db, id: Id, attempt: int, row: Outage) {
    && (id, attempt) !in db.outages && 0 < attempt && 0 < row.token
    && id in db.jobs && row.lease in db.leases
    && var lease := db.leases[row.lease];
    && lease.job == id && lease.token == row.token && lease.attempt == attempt
    && lease.failureCode == Some(row.errorCode)
    && ((!row.exhausted && lease.releaseReason == Some(RetryLease) && db.jobs[id].status.Queued?)
        || (row.exhausted && lease.releaseReason == Some(FailedLease) && db.jobs[id].status.Failed?))
  }

  function InsertOutage(db: Db, id: Id, attempt: int, row: Outage): Outcome<Db> {
    if OutageGuard(db, id, attempt, row) then Done(db.(outages := db.outages[(id, attempt) := row])) else Refused
  }

  /** The counter may only move up by one. */
  function UpdateCounter(db: Db, next: int): Outcome<Db> {
    if next == db.nextToken + 1 then Done(db.(nextToken := next)) else Refused
  }
}
