/** What fencing owes to the pointers from jobs to leases alone: no other part of the invariant is
    needed for a lease that its job does not point at to stay without writes. */
module JobPointers {
  import opened Wrappers
  import opened JobTables
  import opened JobService
  import opened JobFencing

  /** Every job points at a lease of its own, or at none. */
  ghost predicate PointsHome(db: Db) {
    forall j <- db.jobs :: db.jobs[j].currentLease.Some? ==>
      db.jobs[j].currentLease.value in db.leases && db.leases[db.jobs[j].currentLease.value].job == j
  }

  /** The job of the lease does not point at it. */
  ghost predicate Retired(db: Db, l: Id) {
    l in db.leases && (db.leases[l].job in db.jobs ==> db.jobs[db.leases[l].job].currentLease != Some(l))
  }

  /** The pointers still lead home, and if the lease is retired it stays so, with nothing written. */
  ghost predicate StaysRetired(db: Db, db': Db, l: Id) {
    PointsHome(db') && (Retired(db, l) ==> Retired(db', l) && db'.leases[l] == db.leases[l] && SameWritesUnder(db, db', l))
  }

  lemma StaysTransitive(a: Db, b: Db, c: Db, l: Id)
    requires StaysRetired(a, b, l) && StaysRetired(b, c, l)
    ensures StaysRetired(a, c, l)
  {
    if Retired(a, l) { SameWritesUnderTransitive(a, b, c, l); }
  }

  // ----- one row write

  lemma InsertJobStays(db: Db, id: Id, job: Job, l: Id)
    requires PointsHome(db) && InsertJob(db, id, job).Done? && job.currentLease.None?
    ensures StaysRetired(db, InsertJob(db, id, job).value, l)
  {
  }

  lemma UpdateJobStays(db: Db, id: Id, job: Job, l: Id)
    requires PointsHome(db) && UpdateJob(db, id, job).Done?
    requires Retired(db, l) ==> job.currentLease == db.jobs[id].currentLease || job.currentLease != Some(l)
    ensures StaysRetired(db, UpdateJob(db, id, job).value, l)
  {
  }

  lemma UpdateJobHome(db: Db, id: Id, job: Job)
    requires PointsHome(db) && UpdateJob(db, id, job).Done?
    ensures PointsHome(UpdateJob(db, id, job).value)
  {
  }

  lemma InsertLeaseStays(db: Db, id: Id, lease: Lease, l: Id)
    requires PointsHome(db) && InsertLease(db, id, lease).Done?
    ensures StaysRetired(db, InsertLease(db, id, lease).value, l)
  {
  }

  lemma UpdateLeaseStays(db: Db, id: Id, lease: Lease, l: Id)
    requires PointsHome(db) && UpdateLease(db, id, lease).Done?
    ensures StaysRetired(db, UpdateLease(db, id, lease).value, l)
  {
  }

  lemma InsertCheckpointStays(db: Db, id: Id, sequence: int, row: Checkpoint, l: Id)
    requires PointsHome(db) && InsertCheckpoint(db, id, sequence, row).Done?
    ensures StaysRetired(db, InsertCheckpoint(db, id, sequence, row).value, l)
  {
  }

  lemma InsertEffectStays(db: Db, id: Id, effect: Effect, l: Id)
    requires PointsHome(db) && InsertEffect(db, id, effect).Done? && effect.completionLease.None?
    ensures StaysRetired(db, InsertEffect(db, id, effect).value, l)
  {
  }

  lemma UpdateEffectStays(db: Db, id: Id, effect: Effect, l: Id)
    requires PointsHome(db) && UpdateEffect(db, id, effect).Done?
    ensures StaysRetired(db, UpdateEffect(db, id, effect).value, l)
  {
  }

  lemma InsertTransitionStays(db: Db, event: Id, row: TaskTransition, l: Id)
    requires PointsHome(db) && InsertTransition(db, event, row).Done?
    ensures StaysRetired(db, InsertTransition(db, event, row).value, l)
  {
  }

  lemma InsertIgnoredStays(db: Db, key: string, row: IgnoredResult, l: Id)
    requires PointsHome(db) && InsertIgnored(db, key, row).Done?
    ensures StaysRetired(db, InsertIgnored(db, key, row).value, l)
  {
  }

  lemma InsertOutageStays(db: Db, id: Id, attempt: int, row: Outage, l: Id)
    requires PointsHome(db) && InsertOutage(db, id, attempt, row).Done? && (Retired(db, l) ==> row.lease != l)
    ensures StaysRetired(db, InsertOutage(db, id, attempt, row).value, l)
  {
  }

  // ----- one transaction

  /** A held lease is not retired. */
  lemma HeldIsNotRetired(db: Db, g: Grant, l: Id)
    requires HoldsLease(db, g)
    ensures Retired(db, l) ==> g.lease != l
  {
  }

  lemma LeaveStays(db: Db, id: Id, reason: Reason, code: Option<string>, job: Job, l: Id)
    requires PointsHome(db)
    requires id in db.jobs && db.jobs[id].currentLease.Some? && db.jobs[id].currentLease.value in db.leases
    requires Leave(db, id, reason, code, job).Done? && job.currentLease.None?
    ensures StaysRetired(db, Leave(db, id, reason, code, job).value, l)
  {
    var current := db.jobs[id].currentLease.value;
    var lease := db.leases[current];
    var released := Release(db, current, reason, code).value;
    UpdateLeaseStays(db, current, released.leases[current], l);
    UpdateJobStays(released, id, job, l);
    StaysTransitive(db, released, Leave(db, id, reason, code, job).value, l);
  }

  lemma GrabStays(db: Db, id: Id, lease: Id, worker: string, duration: int, l: Id)
    requires PointsHome(db) && id in db.jobs && Grab(db, id, lease, worker, duration).Done?
    ensures StaysRetired(db, Grab(db, id, lease, worker, duration).value, l)
  {
    var db' := Grab(db, id, lease, worker, duration).value;
    var counted := db.(nextToken := db.nextToken + 1);
    var leased := counted.(leases := db'.leases);
    InsertLeaseStays(counted, lease, db'.leases[lease], l);
    UpdateJobHome(leased, id, db'.jobs[id]);
    if l != lease {
      UpdateJobStays(leased, id, db'.jobs[id], l);
      StaysTransitive(counted, leased, db', l);
    }
  }

  lemma ClaimStays(db: Db, id: Id, lease: Id, worker: string, duration: int, l: Id)
    requires PointsHome(db) && DoClaim(db, id, lease, worker, duration).Done?
    ensures StaysRetired(db, DoClaim(db, id, lease, worker, duration).value, l)
  {
    var job := db.jobs[id];
    if job.status.Running? && job.spec.maxAttempts <= job.attemptCount {
      LeaveStays(db, id, ExpiredLease, Some("LEASE_EXPIRED_ATTEMPTS_EXHAUSTED"),
                 Detached(job, Failed, Some(db.leases[job.currentLease.value].token),
                          Some("LEASE_EXPIRED_ATTEMPTS_EXHAUSTED"), Some(db.now)), l);
    } else if job.status.Running? {
      var current := job.currentLease.value;
      var freed := Release(db, current, SupersededLease, None).value;
      UpdateLeaseStays(db, current, freed.leases[current], l);
      GrabStays(freed, id, lease, worker, duration, l);
      StaysTransitive(db, freed, DoClaim(db, id, lease, worker, duration).value, l);
    } else {
      GrabStays(db, id, lease, worker, duration, l);
    }
  }

  lemma RecoverStays(db: Db, id: Id, l: Id)
    requires PointsHome(db) && DoRecover(db, id).Done?
    ensures StaysRetired(db, DoRecover(db, id).value, l)
  {
    var job := db.jobs[id];
    var token := Some(db.leases[job.currentLease.value].token);
    if job.cancelRequestedAt.Some? {
      LeaveStays(db, id, CancelledLease, Some("CANCELLATION_REQUESTED"),
                 Detached(job, Cancelled, token, Some("CANCELLATION_REQUESTED"), Some(db.now)), l);
    } else if job.spec.maxAttempts <= job.attemptCount {
      LeaveStays(db, id, ExpiredLease, Some("LEASE_EXPIRED_ATTEMPTS_EXHAUSTED"),
                 Detached(job, Failed, token, Some("LEASE_EXPIRED_ATTEMPTS_EXHAUSTED"), Some(db.now)), l);
    } else {
      LeaveStays(db, id, ExpiredLease, Some("LEASE_EXPIRED"),
                 Detached(job, Queued, token, Some("LEASE_EXPIRED"), None).(availableAt := db.now), l);
    }
  }

  lemma HeartbeatStays(db: Db, g: Grant, duration: int, l: Id)
    requires PointsHome(db) && DoHeartbeat(db, g, duration).Done?
    ensures StaysRetired(db, DoHeartbeat(db, g, duration).value, l)
  {
    var db' := DoHeartbeat(db, g, duration).value;
    var beaten := db.(leases := db'.leases);
    UpdateLeaseStays(db, g.lease, db'.leases[g.lease], l);
    UpdateJobStays(beaten, g.job, db'.jobs[g.job], l);
    StaysTransitive(db, beaten, db', l);
  }

  lemma AppendStays(db: Db, g: Grant, expected: int, key: string, payload: string, l: Id)
    requires PointsHome(db) && g.job in db.jobs && g.lease in db.leases
    requires AppendCheckpoint(db, g, expected, key, payload).Done?
    ensures StaysRetired(db, AppendCheckpoint(db, g, expected, key, payload).value, l)
  {
    var db' := AppendCheckpoint(db, g, expected, key, payload).value;
    if db' != db {
      var inserted := db.(checkpoints := db'.checkpoints);
      var moved := inserted.(jobs := db'.jobs);
      InsertCheckpointStays(db, g.job, expected + 1, db'.checkpoints[(g.job, expected + 1)], l);
      UpdateJobStays(inserted, g.job, db'.jobs[g.job], l);
      UpdateLeaseStays(moved, g.lease, db'.leases[g.lease], l);
      StaysTransitive(db, inserted, moved, l);
      StaysTransitive(db, moved, db', l);
    }
  }

  lemma PrepareEffectStays(db: Db, g: Grant, id: Id, key: string, kind: string, request: string, l: Id)
    requires PointsHome(db) && DoPrepareEffect(db, g, id, key, kind, request).Done?
    ensures StaysRetired(db, DoPrepareEffect(db, g, id, key, kind, request).value, l)
  {
    var db' := DoPrepareEffect(db, g, id, key, kind, request).value;
    if db' != db { InsertEffectStays(db, id, db'.effects[id], l); }
  }

  lemma RecordEffectStays(db: Db, g: Grant, id: Id, ok: bool, result: string, expected: int, key: string, payload: string, l: Id)
    requires PointsHome(db) && DoRecordEffect(db, g, id, ok, result, expected, key, payload).Done?
    ensures StaysRetired(db, DoRecordEffect(db, g, id, ok, result, expected, key, payload).value, l)
  {
    if db.effects[id].status.Pending? {
      var row := db.effects[id].(status := if ok then EffectSucceeded else EffectFailed, completionLease := Some(g.lease),
                                 completionToken := Some(g.token), result := Some(result));
      var finished := UpdateEffect(db, id, row).value;
      UpdateEffectStays(db, id, row, l);
      AppendStays(finished, g, expected, key, payload, l);
      StaysTransitive(db, finished, AppendCheckpoint(finished, g, expected, key, payload).value, l);
    } else {
      AppendStays(db, g, expected, key, payload, l);
    }
  }

  lemma IgnoreStays(db: Db, g: Grant, key: string, effect: Option<Id>, l: Id)
    requires PointsHome(db) && DoIgnore(db, g, key, effect).Done?
    ensures StaysRetired(db, DoIgnore(db, g, key, effect).value, l)
  {
    var db' := DoIgnore(db, g, key, effect).value;
    if db' != db { InsertIgnoredStays(db, key, db'.ignored[key], l); }
  }

  lemma CompleteStays(db: Db, g: Grant, expected: int, final: Option<(string, string)>, l: Id)
    requires PointsHome(db) && DoComplete(db, g, expected, final).Done?
    ensures StaysRetired(db, DoComplete(db, g, expected, final).value, l)
  {
    if final.None? {
      LeaveStays(db, g.job, SucceededLease, None, Detached(db.jobs[g.job], Succeeded, Some(g.token), None, Some(db.now)), l);
    } else {
      var saved := AppendCheckpoint(db, g, expected, final.value.0, final.value.1).value;
      AppendStays(db, g, expected, final.value.0, final.value.1, l);
      var job := Detached(saved.jobs[g.job], Succeeded, Some(g.token), None, Some(db.now));
      LeaveStays(saved, g.job, SucceededLease, None, job, l);
      StaysTransitive(db, saved, Leave(saved, g.job, SucceededLease, None, job).value, l);
    }
  }

  lemma FailStays(db: Db, g: Grant, code: string, retryable: bool, jitter: nat, l: Id)
    requires PointsHome(db) && HoldsLease(db, g) && ReleaseFailed(db, g, code, retryable, jitter).Done?
    ensures StaysRetired(db, ReleaseFailed(db, g, code, retryable, jitter).value, l)
  {
    var row := ReleaseFailed(db, g, code, retryable, jitter).value.jobs[g.job];
    if CanRetry(db.jobs[g.job], retryable) {
      LeaveStays(db, g.job, RetryLease, Some(code), row, l);
    } else {
      LeaveStays(db, g.job, FailedLease, Some(code), row, l);
    }
  }

  lemma FailDependencyStays(db: Db, g: Grant, code: string, jitter: nat, l: Id)
    requires PointsHome(db) && DoFailDependency(db, g, code, jitter).Done?
    ensures StaysRetired(db, DoFailDependency(db, g, code, jitter).value, l)
  {
    var failed := ReleaseFailed(db, g, code, true, jitter).value;
    var attempt := db.leases[g.lease].attempt;
    FailStays(db, g, code, true, jitter, l);
    HeldIsNotRetired(db, g, l);
    if g.lease != l {
      InsertOutageStays(failed, g.job, attempt, Outage(g.lease, g.token, code, !CanRetry(db.jobs[g.job], true)), l);
      StaysTransitive(db, failed, DoFailDependency(db, g, code, jitter).value, l);
    }
  }

  lemma PauseStays(db: Db, g: Grant, code: string, l: Id)
    requires PointsHome(db) && DoPause(db, g, code).Done?
    ensures StaysRetired(db, DoPause(db, g, code).value, l)
  {
    var job := db.jobs[g.job];
    var attempts := if 0 < job.attemptCount then job.attemptCount - 1 else 0;
    LeaveStays(db, g.job, RetryLease, None,
               Detached(job, Queued, Some(g.token), Some(code), job.completedAt).(attemptCount := attempts, availableAt := db.now), l);
  }

  lemma TransitionStays(db: Db, g: Grant, event: Id, l: Id)
    requires PointsHome(db) && DoTransition(db, g, event).Done?
    ensures StaysRetired(db, DoTransition(db, g, event).value, l)
  {
    var db' := DoTransition(db, g, event).value;
    if db' != db { InsertTransitionStays(db, event, db'.transitions[event], l); }
  }

  lemma CancelJobStays(db: Db, id: Id, l: Id)
    requires PointsHome(db) && id in db.jobs && CancelJob(db, id).Done?
    ensures StaysRetired(db, CancelJob(db, id).value, l)
  {
    var job := db.jobs[id];
    var requested := if job.cancelRequestedAt.Some? then job.cancelRequestedAt else Some(db.now);
    var marked := job.(cancelRequestedAt := requested);
    var closed := Detached(marked, Cancelled, job.lastToken, Some("CANCELLATION_REQUESTED"), Some(db.now));
    if job.status.Queued? {
      UpdateJobStays(db, id, closed, l);
    } else if job.status.Running? {
      var flushed := if marked == job then db else UpdateJob(db, id, marked).value;
      if marked != job { UpdateJobStays(db, id, marked, l); }
      LeaveStays(flushed, id, CancelledLease, Some("CANCELLATION_REQUESTED"), closed, l);
      StaysTransitive(db, flushed, CancelJob(db, id).value, l);
    }
  }

  lemma {:induction false} CancelJobsStay(db: Db, order: seq<Id>, l: Id)
    requires PointsHome(db) && CancelJobs(db, order).Done?
    ensures StaysRetired(db, CancelJobs(db, order).value, l)
    decreases |order|
  {
    if order != [] {
      var next := CancelJob(db, order[0]).value;
      CancelJobStays(db, order[0], l);
      CancelJobsStay(next, order[1..], l);
      StaysTransitive(db, next, CancelJobs(db, order).value, l);
    }
  }

  /** Every transaction leaves the pointers home and a retired lease retired, and writes nothing under it. */
  lemma ExecuteStays(db: Db, c: Command, l: Id)
    requires PointsHome(db) && Execute(db, c).Done?
    ensures StaysRetired(db, Execute(db, c).value, l)
  {
    match c
    case Tick(_) =>
    case Schedule(job, spec, availableAt, runnable) =>
      if Execute(db, c).value != db { InsertJobStays(db, job, NewJob(spec, if availableAt.Some? then availableAt.value else db.now), l); }
    case Claim(job, lease, worker, duration) => ClaimStays(db, job, lease, worker, duration, l);
    case RecoverExpired(job) => RecoverStays(db, job, l);
    case Heartbeat(g, duration) => HeartbeatStays(db, g, duration, l);
    case SaveCheckpoint(g, expected, key, payload) => AppendStays(db, g, expected, key, payload, l);
    case PrepareEffect(g, e, key, kind, request) => PrepareEffectStays(db, g, e, key, kind, request, l);
    case RecordEffect(g, e, ok, result, expected, key, payload) => RecordEffectStays(db, g, e, ok, result, expected, key, payload, l);
    case RecordIgnored(g, key, e) => IgnoreStays(db, g, key, e, l);
    case Complete(g, expected, final) => CompleteStays(db, g, expected, final, l);
    case FailAttempt(g, code, retryable, jitter) => FailStays(db, g, code, retryable, jitter, l);
    case FailDependency(g, code, jitter) => FailDependencyStays(db, g, code, jitter, l);
    case PauseAttempt(g, code) => PauseStays(db, g, code, l);
    case TransitionTask(g, event) => TransitionStays(db, g, event, l);
    case CancelTask(task, order) => CancelJobsStay(db, order, l);
  }

  /** From any tables in which jobs point at leases of their own, they do so over every run, and a lease
      that its job does not point at stays so, with its row unchanged and nothing written under it. */
  lemma {:induction false} RetiredForever(db: Db, cs: seq<Command>, l: Id)
    requires PointsHome(db)
    ensures StaysRetired(db, Run(db, cs), l)
    decreases |cs|
  {
    if cs != [] {
      var next := Step(db, cs[0]);
      if Execute(db, cs[0]).Done? { ExecuteStays(db, cs[0], l); }
      RetiredForever(next, cs[1..], l);
      StaysTransitive(db, next, Run(db, cs), l);
    }
  }
}
