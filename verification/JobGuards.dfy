/** Where the service and the triggers disagree: exactly which commands a trigger refuses. */
module JobGuards {
  import opened Wrappers
  import opened JobTables
  import opened JobService
  import opened JobInvariant

  /** Identifiers the service draws at random are not in use. */
  predicate FreshIds(db: Db, c: Command) {
    match c
    case Schedule(job, _, _, _) => job !in db.jobs
    case Claim(_, lease, _, _) => lease !in db.leases
    case PrepareEffect(_, effect, _, _, _) => effect !in db.effects
    case _ => true
  }

  /** Cancelling writes the request mark on a running job first, and no such write passes once the lease expired. */
  predicate CancelBlocked(db: Db, id: Id) {
    && id in db.jobs && db.jobs[id].status.Running? && db.jobs[id].cancelRequestedAt.None?
    && db.jobs[id].leaseExpiresAt.Some? && db.jobs[id].leaseExpiresAt.value <= db.now
  }

  /** The three requests of the service that a trigger turns down. */
  predicate TurnedDown(db: Db, c: Command) {
    match c
    case PauseAttempt(g, _) => HoldsLease(db, g)
    case Heartbeat(g, duration) =>
      && HoldsLease(db, g) && ValidDuration(duration)
      && db.leases[g.lease].heartbeatAt == db.now && db.leases[g.lease].expiresAt < db.now + duration
    case CancelTask(task, order) =>
      ListsJobsOf(db, task, order) && exists i :: 0 <= i < |order| && CancelBlocked(db, order[i])
    case _ => false
  }

  lemma SchedulePasses(db: Db, id: Id, spec: JobSpec, availableAt: Option<int>, runnable: bool)
    requires id !in db.jobs
    ensures !DoSchedule(db, id, spec, availableAt, runnable).Refused?
  {
  }

  /** Releasing a current lease passes its guard. */
  lemma ReleasePasses(db: Db, id: Id, reason: Reason, code: Option<string>)
    requires LeasesOk(db) && id in db.jobs && db.jobs[id].status.Running?
    ensures JobOk(db, id)
    ensures var l := db.jobs[id].currentLease.value;
            Release(db, l, reason, code) == Done(db.(leases := db.leases[l := Ended(db.leases[l], db.now, reason, code)]))
  {
    assert JobOk(db, id);
    assert LeaseOk(db, db.jobs[id].currentLease.value);
  }

  lemma LeavePasses(db: Db, id: Id, reason: Reason, code: Option<string>, job: Job)
    requires LeasesOk(db) && id in db.jobs && db.jobs[id].status.Running?
    requires job.spec == db.jobs[id].spec && job.attemptCount == db.jobs[id].attemptCount
    requires job.checkpointVersion == db.jobs[id].checkpointVersion && job.lastToken == db.jobs[id].currentToken
    requires LeaseColumnsShape(job) && StatusShape(job) && !job.status.Running?
    requires JobOk(db, id)
    requires FencedEdge(db.now, db.jobs[id], job,
                        Ended(db.leases[db.jobs[id].currentLease.value], db.now, reason, code))
    ensures Leave(db, id, reason, code, job).Done?
  {
    ReleasePasses(db, id, reason, code);
  }

  lemma LastAttemptIsCount(db: Db, freed: Db, id: Id)
    requires LeasesOk(db) && id in db.jobs && freed.leases.Keys == db.leases.Keys
    requires forall l <- db.leases :: freed.leases[l].job == db.leases[l].job && freed.leases[l].attempt == db.leases[l].attempt
    ensures LastAttempt(freed, id) == db.jobs[id].attemptCount
  {
    var m := LastAttempt(freed, id);
    assert JobOk(db, id);
    forall l <- db.leases | db.leases[l].job == id ensures 1 <= db.leases[l].attempt <= db.jobs[id].attemptCount {
      assert LeaseOk(db, l);
    }
    if 1 <= db.jobs[id].attemptCount {
      assert HasAttempt(db, id, db.jobs[id].attemptCount);
      var l :| IsAttempt(db, l, id, db.jobs[id].attemptCount);
      assert l in freed.leases;
    }
  }

  lemma NextTokenUnused(db: Db)
    requires LeasesOk(db)
    ensures forall l <- db.leases :: db.leases[l].token != db.nextToken
  {
    forall l <- db.leases ensures db.leases[l].token != db.nextToken { assert LeaseOk(db, l); }
  }

  lemma NextAttemptUnused(db: Db, id: Id)
    requires LeasesOk(db) && id in db.jobs
    ensures forall l <- db.leases :: !(db.leases[l].job == id && db.leases[l].attempt == db.jobs[id].attemptCount + 1)
  {
    forall l <- db.leases | db.leases[l].job == id ensures db.leases[l].attempt <= db.jobs[id].attemptCount { assert LeaseOk(db, l); }
  }

  lemma SameAttempts(db: Db, freed: Db, id: Id)
    requires id in db.jobs && (db.jobs[id].status.Running? ==> ProjectsLease(db, id, db.jobs[id])) && freed == Superseded(db, id)
    ensures freed.leases.Keys == db.leases.Keys && freed.jobs == db.jobs && freed.now == db.now && freed.nextToken == db.nextToken
    ensures forall l <- freed.leases :: freed.leases[l].token == db.leases[l].token
              && freed.leases[l].job == db.leases[l].job && freed.leases[l].attempt == db.leases[l].attempt
  {
  }

  lemma InsertPasses(db: Db, freed: Db, id: Id, lease: Id, worker: string, duration: int)
    requires LeasesOk(db) && Claimable(db, id) && db.jobs[id].attemptCount < db.jobs[id].spec.maxAttempts
    requires JobOk(db, id) && freed == Superseded(db, id) && lease !in db.leases && ValidDuration(duration)
    ensures var row := NewLease(freed, id, worker, duration);
            InsertLease(freed.(nextToken := freed.nextToken + 1), lease, row)
            == Done(freed.(nextToken := freed.nextToken + 1, leases := freed.leases[lease := row]))
  {
    NextTokenUnused(db);
    NextAttemptUnused(db, id);
    SameAttempts(db, freed, id);
    var row := NewLease(freed, id, worker, duration);
    assert LeaseInsertGuard(freed.(nextToken := freed.nextToken + 1), lease, row);
  }

  lemma PointPasses(db: Db, freed: Db, id: Id, lease: Id, worker: string, duration: int)
    requires LeasesOk(db) && Claimable(db, id) && db.jobs[id].attemptCount < db.jobs[id].spec.maxAttempts
    requires JobOk(db, id) && freed == Superseded(db, id) && lease !in db.leases && ValidDuration(duration)
    ensures var row := NewLease(freed, id, worker, duration);
            UpdateJob(freed.(nextToken := freed.nextToken + 1, leases := freed.leases[lease := row]), id,
                      ClaimedJob(db.jobs[id], lease, row)).Done?
  {
    if db.jobs[id].status.Running? { assert LeaseOk(db, db.jobs[id].currentLease.value); }
  }

  lemma GrabPasses(db: Db, id: Id, lease: Id, worker: string, duration: int)
    requires Inv(db) && Claimable(db, id) && db.jobs[id].attemptCount < db.jobs[id].spec.maxAttempts && JobOk(db, id)
    requires lease !in db.leases && ValidDuration(duration)
    ensures Grab(Superseded(db, id), id, lease, worker, duration).Done?
  {
    var freed := Superseded(db, id);
    LastAttemptIsCount(db, freed, id);
    InsertPasses(db, freed, id, lease, worker, duration);
    PointPasses(db, freed, id, lease, worker, duration);
    GrabDone(freed, id, lease, worker, duration);
  }

  lemma ClaimPasses(db: Db, id: Id, lease: Id, worker: string, duration: int)
    requires Inv(db) && lease !in db.leases
    ensures !DoClaim(db, id, lease, worker, duration).Refused?
  {
    if ValidDuration(duration) && Claimable(db, id) {
      var job := db.jobs[id];
      assert JobOk(db, id);
      if job.status.Running? && job.spec.maxAttempts <= job.attemptCount {
        LeavePasses(db, id, ExpiredLease, Some("LEASE_EXPIRED_ATTEMPTS_EXHAUSTED"), SpentRow(db, id));
      } else {
        if job.status.Running? { ReleasePasses(db, id, SupersededLease, None); }
        GrabPasses(db, id, lease, worker, duration);
      }
    }
  }

  lemma GrabDone(db: Db, id: Id, lease: Id, worker: string, duration: int)
    requires id in db.jobs && LastAttempt(db, id) == db.jobs[id].attemptCount
    requires var row := NewLease(db, id, worker, duration);
             && InsertLease(db.(nextToken := db.nextToken + 1), lease, row)
                == Done(db.(nextToken := db.nextToken + 1, leases := db.leases[lease := row]))
             && UpdateJob(db.(nextToken := db.nextToken + 1, leases := db.leases[lease := row]), id,
                          ClaimedJob(db.jobs[id], lease, row)).Done?
    ensures Grab(db, id, lease, worker, duration).Done?
  {
  }

  lemma RecoverPasses(db: Db, id: Id)
    requires Inv(db)
    ensures !DoRecover(db, id).Refused?
  {
    if id in db.jobs && db.jobs[id].status.Running? {
      assert JobOk(db, id);
      if db.jobs[id].leaseExpiresAt.value <= db.now {
        var (reason, code, after) := Recovery(db, id);
        LeavePasses(db, id, reason, Some(code), after);
      }
    }
  }

  lemma HeartbeatVerdict(db: Db, g: Grant, duration: int)
    requires Inv(db)
    ensures DoHeartbeat(db, g, duration).Refused? <==> TurnedDown(db, Heartbeat(g, duration))
  {
    if HoldsLease(db, g) {
      assert JobOk(db, g.job) && LeaseOk(db, g.lease);
    }
  }

  lemma AppendPasses(db: Db, g: Grant, expected: int, key: string, payload: string)
    requires Inv(db) && HoldsLease(db, g)
    ensures !AppendCheckpoint(db, g, expected, key, payload).Refused?
  {
    assert JobOk(db, g.job) && LeaseOk(db, g.lease);
    CheckpointsWithin(db, g.job);
    assert (g.job, db.jobs[g.job].checkpointVersion + 1) !in db.checkpoints;
  }

  lemma RecordEffectPasses(db: Db, g: Grant, id: Id, succeeded: bool, result: string, expected: int, key: string, payload: string)
    requires Inv(db)
    ensures !DoRecordEffect(db, g, id, succeeded, result, expected, key, payload).Refused?
  {
    if HoldsLease(db, g) && id in db.effects && db.effects[id].job == g.job {
      if db.effects[id].status.Pending? {
        FinishedKeeps(db, g, id, succeeded, result);
        AppendPasses(Finished(db, g, id, succeeded, result), g, expected, key, payload);
      } else {
        AppendPasses(db, g, expected, key, payload);
      }
    }
  }

  lemma PrepareEffectPasses(db: Db, g: Grant, id: Id, key: string, kind: string, request: string)
    requires id !in db.effects
    ensures !DoPrepareEffect(db, g, id, key, kind, request).Refused?
  {
  }

  lemma IgnorePasses(db: Db, g: Grant, key: string, effect: Option<Id>)
    requires Inv(db)
    ensures !DoIgnore(db, g, key, effect).Refused?
  {
    if g.lease in db.leases && g.job in db.jobs {
      assert LeaseOk(db, g.lease) && JobOk(db, g.job);
    }
  }

  lemma CompletePasses(db: Db, g: Grant, expected: int, final: Option<(string, string)>)
    requires Inv(db)
    ensures !DoComplete(db, g, expected, final).Refused?
  {
    if HoldsLease(db, g) {
      if final.Some? {
        AppendPasses(db, g, expected, final.value.0, final.value.1);
        if AppendCheckpoint(db, g, expected, final.value.0, final.value.1).Done? {
          AppendKeeps(db, g, expected, final.value.0, final.value.1);
          AppendWrites(db, g, expected, final.value.0, final.value.1);
          SucceedPasses(AppendCheckpoint(db, g, expected, final.value.0, final.value.1).value, g);
        }
      } else {
        SucceedPasses(db, g);
      }
    }
  }

  lemma SucceedPasses(db: Db, g: Grant)
    requires Inv(db) && HoldsLease(db, g)
    ensures JobOk(db, g.job)
    ensures Leave(db, g.job, SucceededLease, None,
                  Detached(db.jobs[g.job], Succeeded, Some(g.token), None, Some(db.now))).Done?
  {
    assert JobOk(db, g.job);
    LeavePasses(db, g.job, SucceededLease, None, Detached(db.jobs[g.job], Succeeded, Some(g.token), None, Some(db.now)));
  }

  lemma ReleaseFailedPasses(db: Db, g: Grant, code: string, retryable: bool, jitter: nat)
    requires Inv(db) && HoldsLease(db, g)
    ensures ReleaseFailed(db, g, code, retryable, jitter).Done?
  {
    assert JobOk(db, g.job) && LeaseOk(db, g.lease);
    LeavePasses(db, g.job, FailedReason(db.jobs[g.job], retryable), Some(code), FailedRow(db, g, code, retryable, jitter));
  }

  lemma FailDependencyPasses(db: Db, g: Grant, code: string, jitter: nat)
    requires Inv(db)
    ensures !DoFailDependency(db, g, code, jitter).Refused?
  {
    if HoldsLease(db, g) {
      ReleaseFailedPasses(db, g, code, true, jitter);
      ReleaseFailedKeeps(db, g, code, true, jitter);
      NoOutageYet(db, g);
      assert LeaseOk(db, g.lease);
    }
  }

  lemma NoOutageYet(db: Db, g: Grant)
    requires Inv(db) && HoldsLease(db, g)
    ensures (g.job, db.leases[g.lease].attempt) !in db.outages
  {
    forall k | k in db.outages && k.0 == g.job ensures k.1 != db.leases[g.lease].attempt {
      assert OutageOk(db, k);
      assert PairOk(db, db.outages[k].lease, g.lease);
    }
  }

  lemma TransitionPasses(db: Db, g: Grant, event: Id)
    ensures !DoTransition(db, g, event).Refused?
  {
  }

  lemma CancelJobVerdict(db: Db, id: Id)
    requires Inv(db) && id in db.jobs
    ensures CancelBlocked(db, id) ==> CancelJob(db, id) == Refused
    ensures !CancelBlocked(db, id) ==> CancelJob(db, id).Done?
  {
    var job := db.jobs[id];
    assert JobOk(db, id);
    if job.status.Running? {
      var flushed := db.(jobs := db.jobs[id := Marked(job, db.now)]);
      if CancelBlocked(db, id) {
        MarkRefused(db, id);
      } else {
        RewrittenKeeps(db, id, Marked(job, db.now));
        assert JobOk(flushed, id);
        LeavePasses(flushed, id, CancelledLease, Some("CANCELLATION_REQUESTED"), Closed(job, db.now));
        MarkPasses(db, id);
      }
    }
  }

  lemma MarkRefused(db: Db, id: Id)
    requires CancelBlocked(db, id) && JobOk(db, id)
    ensures Marked(db.jobs[id], db.now) != db.jobs[id]
    ensures UpdateJob(db, id, Marked(db.jobs[id], db.now)) == Refused
  {
  }

  lemma MarkPasses(db: Db, id: Id)
    requires id in db.jobs && db.jobs[id].status.Running? && JobOk(db, id) && !CancelBlocked(db, id)
    ensures var marked := Marked(db.jobs[id], db.now);
            (if marked == db.jobs[id] then Done(db) else UpdateJob(db, id, marked)) == Done(db.(jobs := db.jobs[id := marked]))
  {
    if Marked(db.jobs[id], db.now) == db.jobs[id] {
      assert db.(jobs := db.jobs[id := db.jobs[id]]) == db;
    }
  }

  lemma CancelJobOthers(db: Db, id: Id)
    requires id in db.jobs && CancelJob(db, id).Done?
    ensures CancelJob(db, id).value.now == db.now && CancelJob(db, id).value.jobs.Keys == db.jobs.Keys
    ensures forall j <- db.jobs :: j != id ==> CancelJob(db, id).value.jobs[j] == db.jobs[j]
  {
    CancelJobWrites(db, id);
    if db.jobs[id].status.Running? {
      var flushed := db.(jobs := db.jobs[id := Marked(db.jobs[id], db.now)]);
      LeaveWrites(flushed, id, CancelledLease, Some("CANCELLATION_REQUESTED"), Closed(db.jobs[id], db.now));
    }
  }

  lemma {:induction false} CancelJobsVerdict(db: Db, order: seq<Id>)
    requires Inv(db) && forall i :: 0 <= i < |order| ==> order[i] in db.jobs
    requires forall i, j :: 0 <= i < j < |order| ==> order[i] != order[j]
    ensures (exists i :: 0 <= i < |order| && CancelBlocked(db, order[i])) ==> CancelJobs(db, order) == Refused
    ensures !(exists i :: 0 <= i < |order| && CancelBlocked(db, order[i])) ==> CancelJobs(db, order).Done?
    decreases |order|
  {
    if order != [] {
      CancelJobVerdict(db, order[0]);
      if !CancelBlocked(db, order[0]) {
        var next := CancelJob(db, order[0]).value;
        var rest := order[1..];
        CancelJobKeeps(db, order[0]);
        CancelJobOthers(db, order[0]);
        forall i | 0 <= i < |rest|
          ensures rest[i] in next.jobs && (CancelBlocked(next, rest[i]) <==> CancelBlocked(db, order[i + 1]))
        {
          assert rest[i] == order[i + 1] && order[0] != order[i + 1];
        }
        CancelJobsVerdict(next, rest);
        if i :| 0 <= i < |order| && CancelBlocked(db, order[i]) {
          assert CancelBlocked(next, rest[i - 1]);
        }
      }
    }
  }

  /** In every reachable database a trigger refuses a command of the service exactly when the command
      is a pause, a heartbeat that would extend a lease twice in one instant, or the cancellation of
      a task with a running job whose lease expired; everything else the triggers let through. */
  lemma RefusedExactly(db: Db, c: Command)
    requires Inv(db) && FreshIds(db, c)
    ensures Execute(db, c).Refused? <==> TurnedDown(db, c)
  {
    match c
    case Tick(_) =>
    case Schedule(job, spec, availableAt, runnable) => SchedulePasses(db, job, spec, availableAt, runnable);
    case Claim(job, lease, worker, duration) => ClaimPasses(db, job, lease, worker, duration);
    case RecoverExpired(job) => RecoverPasses(db, job);
    case Heartbeat(g, duration) => HeartbeatVerdict(db, g, duration);
    case SaveCheckpoint(g, expected, key, payload) => if HoldsLease(db, g) { AppendPasses(db, g, expected, key, payload); }
    case PrepareEffect(g, e, key, kind, request) => PrepareEffectPasses(db, g, e, key, kind, request);
    case RecordEffect(g, e, ok, result, expected, key, payload) => RecordEffectPasses(db, g, e, ok, result, expected, key, payload);
    case RecordIgnored(g, key, e) => IgnorePasses(db, g, key, e);
    case Complete(g, expected, final) => CompletePasses(db, g, expected, final);
    case FailAttempt(g, code, retryable, jitter) => if HoldsLease(db, g) { ReleaseFailedPasses(db, g, code, retryable, jitter); }
    case FailDependency(g, code, jitter) => FailDependencyPasses(db, g, code, jitter);
    case PauseAttempt(g, code) => PauseRefused(db, g, code);
    case TransitionTask(g, event) => TransitionPasses(db, g, event);
    case CancelTask(task, order) => if ListsJobsOf(db, task, order) { CancelJobsVerdict(db, order); }
  }
}
