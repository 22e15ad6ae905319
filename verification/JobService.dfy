/** The transactions of the background-job service. Each is a chain of guarded row writes that
    commits as a whole or leaves the database as it was. Times are microseconds. */
module JobService {
  import opened Basics
  import opened Wrappers
  import opened JobTables

  const SECOND := 1_000_000
  const MAX_LEASE_SECONDS := 300
  const MAX_RETRY_SECONDS := 86_400

  /** The lease identity a worker shows for every fenced operation. */
  datatype Grant = Grant(job: Id, task: Id, lease: Id, worker: string, attempt: int, token: int)

  datatype Command =
    | Tick(delta: nat)
    | Schedule(job: Id, spec: JobSpec, availableAt: Option<int>, taskRunnable: bool)
    | Claim(job: Id, lease: Id, worker: string, duration: int)
    | RecoverExpired(job: Id)
    | Heartbeat(grant: Grant, duration: int)
    | SaveCheckpoint(grant: Grant, expected: int, key: string, payload: string)
    | PrepareEffect(grant: Grant, effect: Id, key: string, kind: string, request: string)
    | RecordEffect(grant: Grant, effect: Id, succeeded: bool, result: string,
                   expected: int, key: string, payload: string)
    | RecordIgnored(grant: Grant, key: string, ignoredEffect: Option<Id>)
    | Complete(grant: Grant, expected: int, final: Option<(string, string)>)
    | FailAttempt(grant: Grant, code: string, retryable: bool, jitter: nat)
    | FailDependency(grant: Grant, code: string, jitter: nat)
    | PauseAttempt(grant: Grant, code: string)
    | TransitionTask(grant: Grant, event: Id)
    | CancelTask(task: Id, order: seq<Id>)

  predicate HoldsLease(db: Db, g: Grant) {
    && g.job in db.jobs && g.lease in db.leases
    && var job := db.jobs[g.job];
    var lease := db.leases[g.lease];
    && job.status.Running? && job.spec.task == Some(g.task)
    && job.currentLease == Some(g.lease) && job.currentToken == Some(g.token) && job.leaseOwner == Some(g.worker)
    && job.leaseExpiresAt.Some? && job.cancelRequestedAt.None?
    && lease.job == g.job && lease.owner == g.worker && lease.attempt == g.attempt && lease.token == g.token
    && lease.releasedAt.None? && db.now < job.leaseExpiresAt.value && db.now < lease.expiresAt
  }

  /** The lease row the job row points at, as the service looks it up. */
  predicate HasCurrentLease(db: Db, job: Job, id: Id) {
    && job.currentLease.Some? && job.currentLease.value in db.leases
    && db.leases[job.currentLease.value].job == id
    && SqlEqual(Some(db.leases[job.currentLease.value].token), job.currentToken)
  }

  predicate ValidDuration(duration: int) {
    SECOND <= duration <= MAX_LEASE_SECONDS * SECOND
  }

  predicate ValidPolicy(spec: JobSpec) {
    && 1 <= spec.maxAttempts <= 100
    && 1 <= spec.retryBase <= MAX_RETRY_SECONDS
    && spec.retryBase <= spec.retryMax <= MAX_RETRY_SECONDS
  }

  function NewJob(spec: JobSpec, availableAt: int): Job {
    Job(spec, Queued, 0, availableAt, 0, None, None, None, None, None, None, None, None)
  }

  /** The schedules a key stands for agree in what the command's fingerprint covers. */
  predicate SameSchedule(a: JobSpec, b: JobSpec) {
    && a.task == b.task && a.jobType == b.jobType && a.input == b.input
    && a.maxAttempts == b.maxAttempts && a.retryBase == b.retryBase && a.retryMax == b.retryMax
  }

  function DoSchedule(db: Db, id: Id, spec: JobSpec, availableAt: Option<int>, taskRunnable: bool): Outcome<Db> {
    if !ValidPolicy(spec) || spec.task.None? then Raised
    else if exists other <- db.jobs :: db.jobs[other].spec.key == spec.key then
      if exists other <- db.jobs :: db.jobs[other].spec.key == spec.key && SameSchedule(db.jobs[other].spec, spec)
      then Done(db) else Raised
    else if !taskRunnable then Raised
    else InsertJob(db, id, NewJob(spec, if availableAt.Some? then availableAt.value else db.now))
  }

  function Release(db: Db, id: Id, reason: Reason, code: Option<string>): Outcome<Db>
    requires id in db.leases
  {
    var lease := db.leases[id];
    UpdateLease(db, id, lease.(releasedAt := Some(db.now), releaseReason := Some(reason),
                               failureCode := if code.Some? then code else lease.failureCode))
  }

  function Detached(job: Job, status: Status, token: Option<int>, error: Option<string>, completedAt: Option<int>): Job {
    job.(status := status, currentLease := None, currentToken := None, leaseOwner := None, leaseExpiresAt := None,
         lastToken := token, lastError := error, completedAt := completedAt)
  }

  /** Release the current lease, then write the job row that leaves it. */
  function Leave(db: Db, id: Id, reason: Reason, code: Option<string>, job: Job): Outcome<Db>
    requires id in db.jobs && db.jobs[id].currentLease.Some? && db.jobs[id].currentLease.value in db.leases
  {
    var released :- Release(db, db.jobs[id].currentLease.value, reason, code);
    UpdateJob(released, id, job)
  }

  /** m is what SELECT max(attempt) over the job's leases among keys, or 0, returns. */
  ghost predicate IsLastAttempt(db: Db, id: Id, keys: set<Id>, m: int)
    requires keys <= db.leases.Keys
  {
    && (forall l <- keys :: db.leases[l].job == id ==> db.leases[l].attempt <= m)
    && ((m == 0 && forall l <- keys :: db.leases[l].job != id)
        || exists l <- keys :: db.leases[l].job == id && db.leases[l].attempt == m)
  }

  ghost function LastAttempt(db: Db, id: Id): (m: int)
    ensures IsLastAttempt(db, id, db.leases.Keys, m)
  {
    LastAttemptExists(db, id, db.leases.Keys);
    var m :| IsLastAttempt(db, id, db.leases.Keys, m); m
  }

  lemma LastAttemptExists(db: Db, id: Id, keys: set<Id>)
    requires keys <= db.leases.Keys
    ensures exists m :: IsLastAttempt(db, id, keys, m)
  {
    if keys == {} {
      assert IsLastAttempt(db, id, keys, 0);
    } else {
      var x :| x in keys;
      LastAttemptExists(db, id, keys - {x});
      var m :| IsLastAttempt(db, id, keys - {x}, m);
      LastAttemptGrows(db, id, keys - {x}, x, m);
      assert keys - {x} + {x} == keys;
    }
  }

  /** The greatest attempt seen so far, after looking at one more lease. */
  function Later(db: Db, id: Id, x: Id, none: bool, m: int): int
    requires x in db.leases
  {
    if db.leases[x].job == id && (none || m < db.leases[x].attempt) then db.leases[x].attempt else m
  }

  lemma LastAttemptGrows(db: Db, id: Id, seen: set<Id>, x: Id, m: int)
    requires seen <= db.leases.Keys && x in db.leases && IsLastAttempt(db, id, seen, m)
    ensures IsLastAttempt(db, id, seen + {x}, Later(db, id, x, forall l <- seen :: db.leases[l].job != id, m))
  {
    var none := forall l <- seen :: db.leases[l].job != id;
    var m' := Later(db, id, x, none, m);
    if db.leases[x].job == id && m' == db.leases[x].attempt {
      assert x in seen + {x};
    } else if !none {
      var l :| l in seen && db.leases[l].job == id && db.leases[l].attempt == m;
      assert l in seen + {x};
    }
  }

  predicate Claimable(db: Db, id: Id) {
    && id in db.jobs
    && var job := db.jobs[id];
    && job.spec.task.Some? && job.cancelRequestedAt.None?
    && ((job.status.Queued? && job.attemptCount < job.spec.maxAttempts && job.availableAt <= db.now)
        || (job.status.Running? && job.leaseExpiresAt.Some? && job.leaseExpiresAt.value <= db.now))
  }

  /** One row of the claim scan: an expired holder is superseded, or failed when its attempts are
      spent; otherwise a token is taken, the lease inserted and the job pointed at it. */
  ghost function DoClaim(db: Db, id: Id, lease: Id, worker: string, duration: int): Outcome<Db> {
    if !ValidDuration(duration) || !Claimable(db, id) then Raised
    else
      var job := db.jobs[id];
      if job.status.Running? && !HasCurrentLease(db, job, id) then Raised
      else if job.status.Running? && job.spec.maxAttempts <= job.attemptCount then
        Leave(db, id, ExpiredLease, Some("LEASE_EXPIRED_ATTEMPTS_EXHAUSTED"),
              Detached(job, Failed, Some(db.leases[job.currentLease.value].token),
                       Some("LEASE_EXPIRED_ATTEMPTS_EXHAUSTED"), Some(db.now)))
      else
        var freed :- if job.status.Running? then Release(db, job.currentLease.value, SupersededLease, None) else Done(db);
        Grab(freed, id, lease, worker, duration)
  }

  ghost function Grab(db: Db, id: Id, lease: Id, worker: string, duration: int): Outcome<Db>
    requires id in db.jobs
  {
    var job := db.jobs[id];
    var token := db.nextToken;
    var expiresAt := db.now + duration;
    var row := Lease(id, worker, LastAttempt(db, id) + 1, token, job.spec.scope,
                     db.now, db.now, expiresAt, job.checkpointVersion, None, None, None, 1);
    var counted :- UpdateCounter(db, token + 1);
    var leased :- InsertLease(counted, lease, row);
    UpdateJob(leased, id, job.(status := Running, attemptCount := job.attemptCount + 1,
                               currentLease := Some(lease), currentToken := Some(token), leaseOwner := Some(worker),
                               leaseExpiresAt := Some(expiresAt), lastToken := Some(token), lastError := None))
  }

  function DoRecover(db: Db, id: Id): Outcome<Db> {
    if !(id in db.jobs && db.jobs[id].status.Running? && db.jobs[id].leaseExpiresAt.Some?
         && db.jobs[id].leaseExpiresAt.value <= db.now) then Raised
    else
      var job := db.jobs[id];
      if !HasCurrentLease(db, job, id) || db.leases[job.currentLease.value].releasedAt.Some? then Raised
      else
        var token := Some(db.leases[job.currentLease.value].token);
        if job.cancelRequestedAt.Some? then
          Leave(db, id, CancelledLease, Some("CANCELLATION_REQUESTED"),
                Detached(job, Cancelled, token, Some("CANCELLATION_REQUESTED"), Some(db.now)))
        else if job.spec.maxAttempts <= job.attemptCount then
          Leave(db, id, ExpiredLease, Some("LEASE_EXPIRED_ATTEMPTS_EXHAUSTED"),
                Detached(job, Failed, token, Some("LEASE_EXPIRED_ATTEMPTS_EXHAUSTED"), Some(db.now)))
        else
          Leave(db, id, ExpiredLease, Some("LEASE_EXPIRED"),
                Detached(job, Queued, token, Some("LEASE_EXPIRED"), None).(availableAt := db.now))
  }

  function DoHeartbeat(db: Db, g: Grant, duration: int): Outcome<Db> {
    if !ValidDuration(duration) || !HoldsLease(db, g) then Raised
    else
      var lease := db.leases[g.lease];
      var expiresAt := if lease.expiresAt < db.now + duration then db.now + duration else lease.expiresAt;
      var beaten :- UpdateLease(db, g.lease, lease.(heartbeatAt := db.now, expiresAt := expiresAt));
      UpdateJob(beaten, g.job, db.jobs[g.job].(leaseExpiresAt := Some(expiresAt), lastToken := Some(g.token)))
  }

  function AppendCheckpoint(db: Db, g: Grant, expected: int, key: string, payload: string): Outcome<Db>
    requires g.job in db.jobs && g.lease in db.leases
  {
    var job := db.jobs[g.job];
    var sequence := expected + 1;
    if exists k <- db.checkpoints :: db.checkpoints[k].key == key then
      if (g.job, sequence) in db.checkpoints && db.checkpoints[(g.job, sequence)].key == key
         && db.checkpoints[(g.job, sequence)].payload == payload
      then Done(db) else Raised
    else if job.checkpointVersion != expected then Raised
    else
      var inserted :- InsertCheckpoint(db, g.job, sequence, Checkpoint(g.lease, g.token, key, payload, job.spec.scope));
      var moved :- UpdateJob(inserted, g.job, job.(checkpointVersion := sequence, lastToken := Some(g.token)));
      UpdateLease(moved, g.lease, db.leases[g.lease].(checkpointVersion := sequence))
  }

  function DoCheckpoint(db: Db, g: Grant, expected: int, key: string, payload: string): Outcome<Db> {
    if !HoldsLease(db, g) then Raised else AppendCheckpoint(db, g, expected, key, payload)
  }

  predicate PendingEffect(db: Db, id: Id, effect: Id) {
    effect in db.effects && db.effects[effect].job == id && db.effects[effect].status.Pending?
  }

  predicate NoPendingEffects(db: Db, id: Id) {
    forall e <- db.effects :: !PendingEffect(db, id, e)
  }

  function DoPrepareEffect(db: Db, g: Grant, id: Id, key: string, kind: string, request: string): Outcome<Db> {
    if !HoldsLease(db, g) then Raised
    else if exists e <- db.effects :: PendingEffect(db, g.job, e) && db.effects[e].key != key then Raised
    else if exists e <- db.effects :: db.effects[e].key == key then
      if exists e <- db.effects :: db.effects[e].key == key && db.effects[e].job == g.job
                                   && db.effects[e].kind == kind && db.effects[e].request == request
      then Done(db) else Raised
    else InsertEffect(db, id, Effect(g.job, kind, key, request, Pending, g.lease, g.token, None, None, None,
                                     db.jobs[g.job].spec.scope))
  }

  function DoRecordEffect(db: Db, g: Grant, id: Id, succeeded: bool, result: string,
                          expected: int, key: string, payload: string): Outcome<Db> {
    if !HoldsLease(db, g) || id !in db.effects || db.effects[id].job != g.job then Raised
    else
      var effect := db.effects[id];
      var status := if succeeded then EffectSucceeded else EffectFailed;
      if !effect.status.Pending? then
        if effect.status != status || effect.result != Some(result) then Raised
        else AppendCheckpoint(db, g, expected, key, payload)
      else
        var finished :- UpdateEffect(db, id, effect.(status := status, completionLease := Some(g.lease),
                                                     completionToken := Some(g.token), result := Some(result)));
        AppendCheckpoint(finished, g, expected, key, payload)
  }

  function DoIgnore(db: Db, g: Grant, key: string, effect: Option<Id>): Outcome<Db> {
    if !(g.job in db.jobs && g.lease in db.leases) then Raised
    else
      var lease := db.leases[g.lease];
      if lease.job != g.job || lease.owner != g.worker || lease.attempt != g.attempt || lease.token != g.token
         || db.jobs[g.job].spec.task != Some(g.task) then Raised
      else if HoldsLease(db, g) then Raised
      else if effect.Some? && !(effect.value in db.effects && db.effects[effect.value].job == g.job) then Raised
      else if key in db.ignored then
        var row := db.ignored[key];
        if row.job == g.job && row.lease == g.lease && row.token == g.token && row.effect == effect then Done(db) else Raised
      else InsertIgnored(db, key, IgnoredResult(g.job, g.lease, g.token, effect, db.now))
  }

  function DoComplete(db: Db, g: Grant, expected: int, final: Option<(string, string)>): Outcome<Db> {
    if !HoldsLease(db, g) || !NoPendingEffects(db, g.job) then Raised
    else if final.None? && db.jobs[g.job].checkpointVersion != expected then Raised
    else
      var saved :- if final.Some? then AppendCheckpoint(db, g, expected, final.value.0, final.value.1) else Done(db);
      if g.job in saved.jobs && saved.jobs[g.job].currentLease.Some? && saved.jobs[g.job].currentLease.value in saved.leases
      then Leave(saved, g.job, SucceededLease, None,
                 Detached(saved.jobs[g.job], Succeeded, Some(g.token), None, Some(db.now)))
      else Raised
  }

  /** Full jitter: a hash reduced modulo the capped back-off, in milliseconds. */
  function RetryDelay(spec: JobSpec, failedAttempt: int, jitter: nat): (delay: int)
    requires 1 <= failedAttempt && 0 < spec.retryBase <= spec.retryMax
    ensures 0 <= delay <= spec.retryMax * SECOND
  {
    var growth := spec.retryBase * Pow2(if failedAttempt - 1 < 63 then failedAttempt - 1 else 63);
    var cap := if growth < spec.retryMax then growth else spec.retryMax;
    assert 0 < cap <= spec.retryMax by { Positive(spec.retryBase, Pow2(if failedAttempt - 1 < 63 then failedAttempt - 1 else 63)); }
    jitter % (cap * 1000 + 1) * 1000
  }

  lemma Positive(x: int, y: int)
    requires 0 < x && 0 < y
    ensures 0 < x * y
  {
  }

  predicate CanRetry(job: Job, retryable: bool) {
    retryable && job.attemptCount < job.spec.maxAttempts
  }

  function ReleaseFailed(db: Db, g: Grant, code: string, retryable: bool, jitter: nat): Outcome<Db>
    requires HoldsLease(db, g)
  {
    var job := db.jobs[g.job];
    if CanRetry(job, retryable) then
      if !(1 <= job.attemptCount && 0 < job.spec.retryBase <= job.spec.retryMax) then Raised
      else Leave(db, g.job, RetryLease, Some(code),
                 Detached(job, Queued, Some(g.token), Some(code), None)
                 .(availableAt := db.now + RetryDelay(job.spec, job.attemptCount, jitter)))
    else Leave(db, g.job, FailedLease, Some(code), Detached(job, Failed, Some(g.token), Some(code), Some(db.now)))
  }

  function DoFail(db: Db, g: Grant, code: string, retryable: bool, jitter: nat): Outcome<Db> {
    if !HoldsLease(db, g) then Raised else ReleaseFailed(db, g, code, retryable, jitter)
  }

  function DoFailDependency(db: Db, g: Grant, code: string, jitter: nat): Outcome<Db> {
    if !HoldsLease(db, g) then Raised
    else
      var failed :- ReleaseFailed(db, g, code, true, jitter);
      InsertOutage(failed, g.job, db.leases[g.lease].attempt, Outage(g.lease, g.token, code, !CanRetry(db.jobs[g.job], true)))
  }

  /** Meant to give the attempt back: the job row asks for one attempt less. */
  function DoPause(db: Db, g: Grant, code: string): Outcome<Db> {
    if !HoldsLease(db, g) then Raised
    else
      var job := db.jobs[g.job];
      var attempts := if 0 < job.attemptCount then job.attemptCount - 1 else 0;
      Leave(db, g.job, RetryLease, None,
            Detached(job, Queued, Some(g.token), Some(code), job.completedAt).(attemptCount := attempts, availableAt := db.now))
  }

  function DoTransition(db: Db, g: Grant, event: Id): Outcome<Db> {
    if !HoldsLease(db, g) || !NoPendingEffects(db, g.job) then Raised
    else if event in db.transitions then
      if db.transitions[event].job == g.job && db.transitions[event].task == g.task then Done(db) else Raised
    else InsertTransition(db, event, TaskTransition(g.job, g.lease, g.token, g.task, db.jobs[g.job].spec.scope))
  }

  /** One job of a cancelled task. The lookup of the lease flushes the request mark first, so a
      running job is written twice. */
  function CancelJob(db: Db, id: Id): Outcome<Db>
    requires id in db.jobs
  {
    var job := db.jobs[id];
    var requested := if job.cancelRequestedAt.Some? then job.cancelRequestedAt else Some(db.now);
    var marked := job.(cancelRequestedAt := requested);
    var closed := Detached(marked, Cancelled, job.lastToken, Some("CANCELLATION_REQUESTED"), Some(db.now));
    if job.status.Queued? then UpdateJob(db, id, closed)
    else if job.status.Running? then
      var flushed :- if marked == job then Done(db) else UpdateJob(db, id, marked);
      if !HasCurrentLease(flushed, marked, id) || flushed.leases[job.currentLease.value].releasedAt.Some?
         || id !in flushed.jobs || flushed.jobs[id] != marked then Raised
      else Leave(flushed, id, CancelledLease, Some("CANCELLATION_REQUESTED"), closed)
    else Done(db)
  }

  function CancelJobs(db: Db, order: seq<Id>): Outcome<Db>
    decreases |order|
  {
    if order == [] then Done(db)
    else if order[0] !in db.jobs then Raised
    else
      var rest :- CancelJob(db, order[0]);
      CancelJobs(rest, order[1..])
  }

  /** order lists every job of the task once. */
  predicate ListsJobsOf(db: Db, task: Id, order: seq<Id>) {
    && (forall i, j :: 0 <= i < j < |order| ==> order[i] != order[j])
    && (forall i :: 0 <= i < |order| ==> order[i] in db.jobs && db.jobs[order[i]].spec.task == Some(task))
    && (forall id <- db.jobs :: db.jobs[id].spec.task == Some(task) ==> id in order)
  }

  function DoCancel(db: Db, task: Id, order: seq<Id>): Outcome<Db> {
    if !ListsJobsOf(db, task, order) then Raised else CancelJobs(db, order)
  }

  ghost function Execute(db: Db, c: Command): Outcome<Db> {
    match c
    case Tick(delta) => Done(db.(now := db.now + delta))
    case Schedule(job, spec, availableAt, runnable) => DoSchedule(db, job, spec, availableAt, runnable)
    case Claim(job, lease, worker, duration) => DoClaim(db, job, lease, worker, duration)
    case RecoverExpired(job) => DoRecover(db, job)
    case Heartbeat(g, duration) => DoHeartbeat(db, g, duration)
    case SaveCheckpoint(g, expected, key, payload) => DoCheckpoint(db, g, expected, key, payload)
    case PrepareEffect(g, e, key, kind, request) => DoPrepareEffect(db, g, e, key, kind, request)
    case RecordEffect(g, e, ok, result, expected, key, payload) => DoRecordEffect(db, g, e, ok, result, expected, key, payload)
    case RecordIgnored(g, key, e) => DoIgnore(db, g, key, e)
    case Complete(g, expected, final) => DoComplete(db, g, expected, final)
    case FailAttempt(g, code, retryable, jitter) => DoFail(db, g, code, retryable, jitter)
    case FailDependency(g, code, jitter) => DoFailDependency(db, g, code, jitter)
    case PauseAttempt(g, code) => DoPause(db, g, code)
    case TransitionTask(g, event) => DoTransition(db, g, event)
    case CancelTask(task, order) => DoCancel(db, task, order)
  }

  /** The committed database after one command: a raised or refused transaction changes nothing. */
  ghost function Step(db: Db, c: Command): Db {
    var r := Execute(db, c);
    if r.Done? then r.value else db
  }

  ghost function Run(db: Db, cs: seq<Command>): Db
    decreases |cs|
  {
    if cs == [] then db else Run(Step(db, cs[0]), cs[1..])
  }

  function Empty(now: int): Db {
    Db(now, 1, map[], map[], map[], map[], map[], map[], map[])
  }
}
