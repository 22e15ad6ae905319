/** Safety of the background-job loop over whole runs: who may write, when, and what never changes again. */
module JobFencing {
  import opened Wrappers
  import opened JobTables
  import opened JobService
  import opened JobInvariant

  /** The lease may write for its job now. */
  ghost predicate Usable(db: Db, l: Id) {
    l in db.leases && WriteAdmitted(db, db.leases[l].job, l, db.leases[l].token)
  }

  ghost predicate EffectStep(db: Db, before: Effect, after: Effect) {
    || after == before
    || (before.status.Pending? && !after.status.Pending? && after.completionLease.Some?
        && Usable(db, after.completionLease.value)
        && db.leases[after.completionLease.value].job == before.job
        && after.(status := before.status, completionLease := before.completionLease,
                  completionToken := before.completionToken, result := before.result) == before)
  }

  ghost predicate CheckpointsFenced(db: Db, db': Db) {
    && db.checkpoints.Keys <= db'.checkpoints.Keys
    && (forall k <- db'.checkpoints ::
          if k in db.checkpoints then db'.checkpoints[k] == db.checkpoints[k]
          else Usable(db, db'.checkpoints[k].lease) && db.leases[db'.checkpoints[k].lease].job == k.0)
  }

  ghost predicate EffectsFenced(db: Db, db': Db) {
    && db.effects.Keys <= db'.effects.Keys
    && (forall e <- db'.effects ::
          if e in db.effects then EffectStep(db, db.effects[e], db'.effects[e])
          else Usable(db, db'.effects[e].startedLease) && db'.effects[e].status.Pending?
               && db'.effects[e].completionLease.None?
               && db.leases[db'.effects[e].startedLease].job == db'.effects[e].job)
  }

  ghost predicate TransitionsFenced(db: Db, db': Db) {
    && db.transitions.Keys <= db'.transitions.Keys
    && (forall e <- db'.transitions ::
          if e in db.transitions then db'.transitions[e] == db.transitions[e] else Usable(db, db'.transitions[e].lease))
  }

  ghost predicate OutagesFenced(db: Db, db': Db) {
    && db.outages.Keys <= db'.outages.Keys
    && (forall k <- db'.outages ::
          if k in db.outages then db'.outages[k] == db.outages[k]
          else Usable(db, db'.outages[k].lease) && db.leases[db'.outages[k].lease].job == k.0)
  }

  /** Rows are only added, and only under a lease that is usable in db; an effect is finished at
      most once, under such a lease. */
  ghost predicate Fenced(db: Db, db': Db) {
    CheckpointsFenced(db, db') && EffectsFenced(db, db') && TransitionsFenced(db, db') && OutagesFenced(db, db')
  }

  lemma SameHistoryFenced(db: Db, db': Db)
    requires SameTables(db, db')
    ensures Fenced(db, db')
  {
  }

  ghost predicate SameTables(db: Db, db': Db) {
    && db'.checkpoints == db.checkpoints && db'.effects == db.effects && db'.transitions == db.transitions
    && db'.outages == db.outages
  }

  /** A job row only moves on: attempts and progress grow, and a terminal row is final. */
  ghost predicate JobMoves(before: Job, after: Job) {
    && after.spec == before.spec && before.attemptCount <= after.attemptCount
    && before.checkpointVersion <= after.checkpointVersion
    && (Terminal(before.status) ==> after == before)
  }

  ghost predicate LeaseMoves(before: Lease, after: Lease) {
    && after.job == before.job && after.owner == before.owner && after.attempt == before.attempt
    && after.token == before.token && after.protocol == before.protocol && after.createdAt == before.createdAt && before.expiresAt <= after.expiresAt
    && (before.releasedAt.Some? || before.protocol == 0 ==> after == before)
  }

  ghost predicate JobsMove(db: Db, db': Db) {
    forall j <- db.jobs :: j in db'.jobs && JobMoves(db.jobs[j], db'.jobs[j])
  }

  ghost predicate LeasesMove(db: Db, db': Db) {
    forall l <- db.leases ::
      && l in db'.leases && LeaseMoves(db.leases[l], db'.leases[l])
      && (db.leases[l].releasedAt.None? && db'.leases[l].releasedAt.Some? ==> db.now <= db'.leases[l].releasedAt.value)
  }

  ghost predicate RowsMove(db: Db, db': Db) {
    db.now <= db'.now && JobsMove(db, db') && LeasesMove(db, db')
  }

  lemma HeldUsable(db: Db, g: Grant)
    requires HoldsLease(db, g)
    ensures Usable(db, g.lease) && db.leases[g.lease].job == g.job
  {
  }

  /** The lease a job points at was inserted by the loop, never carried over from before it. */
  lemma CurrentIsNew(db: Db, id: Id)
    requires LeasesOk(db) && id in db.jobs && ProjectsLease(db, id, db.jobs[id])
    ensures db.leases[db.jobs[id].currentLease.value].protocol == 1
  {
    assert LeaseOk(db, db.jobs[id].currentLease.value);
  }

  lemma HeldIsNew(db: Db, g: Grant)
    requires LeasesOk(db) && HoldsLease(db, g)
    ensures db.leases[g.lease].protocol == 1
  {
    assert LeaseOk(db, g.lease);
  }

  lemma AppendedMoves(db: Db, g: Grant, expected: int, key: string, payload: string)
    requires HoldsLease(db, g) && db.leases[g.lease].protocol == 1 && expected == db.jobs[g.job].checkpointVersion
    ensures RowsMove(db, Appended(db, g, expected, key, payload))
  {
  }

  /** AppendCheckpoint moves rows on and adds at most one checkpoint, under the granted lease. */
  lemma AppendStep(db: Db, g: Grant, expected: int, key: string, payload: string)
    requires Inv(db) && HoldsLease(db, g) && AppendCheckpoint(db, g, expected, key, payload).Done?
    ensures var db' := AppendCheckpoint(db, g, expected, key, payload).value;
            RowsMove(db, db') && Fenced(db, db') && OnlyAppends(db, db', g)
  {
    AppendWrites(db, g, expected, key, payload);
    var db' := AppendCheckpoint(db, g, expected, key, payload).value;
    if db' == db {
      SameHistoryFenced(db, db');
    } else {
      AppendedStep(db, g, expected, key, payload);
    }
  }

  lemma AppendedStep(db: Db, g: Grant, expected: int, key: string, payload: string)
    requires Inv(db) && HoldsLease(db, g) && expected == db.jobs[g.job].checkpointVersion
    ensures var db' := Appended(db, g, expected, key, payload); RowsMove(db, db') && Fenced(db, db') && OnlyAppends(db, db', g)
  {
    HeldIsNew(db, g);
    AppendedMoves(db, g, expected, key, payload);
    NotYetAppended(db, g);
    AppendedFenced(db, g, expected, key, payload);
  }

  ghost predicate OnlyAppends(db: Db, db': Db, g: Grant) {
    && db'.now == db.now && db'.leases.Keys == db.leases.Keys
    && db'.effects == db.effects && db'.transitions == db.transitions && db'.outages == db.outages
    && g.job in db'.jobs && db'.jobs[g.job].status.Running?
  }

  lemma NotYetAppended(db: Db, g: Grant)
    requires Inv(db) && HoldsLease(db, g)
    ensures (g.job, db.jobs[g.job].checkpointVersion + 1) !in db.checkpoints
  {
    CheckpointsWithin(db, g.job);
  }

  lemma AppendedFenced(db: Db, g: Grant, expected: int, key: string, payload: string)
    requires HoldsLease(db, g) && (g.job, expected + 1) !in db.checkpoints
    ensures Fenced(db, Appended(db, g, expected, key, payload))
  {
    HeldUsable(db, g);
  }

  lemma LeftMoves(db: Db, id: Id, reason: Reason, code: Option<string>, job: Job)
    requires id in db.jobs && db.jobs[id].status.Running? && ProjectsLease(db, id, db.jobs[id])
    requires db.leases[db.jobs[id].currentLease.value].protocol == 1
    requires job.spec == db.jobs[id].spec && job.attemptCount == db.jobs[id].attemptCount
    requires job.checkpointVersion == db.jobs[id].checkpointVersion
    ensures RowsMove(db, Left(db, id, reason, code, job)) && SameTables(db, Left(db, id, reason, code, job))
    ensures Left(db, id, reason, code, job).now == db.now
  {
  }

  lemma GrabbedMoves(db: Db, id: Id, lease: Id, row: Lease, job: Job)
    requires id in db.jobs && (db.jobs[id].status.Running? || db.jobs[id].status.Queued?)
    requires db.jobs[id].status.Running? ==>
               ProjectsLease(db, id, db.jobs[id]) && db.leases[db.jobs[id].currentLease.value].protocol == 1
    requires IsClaim(Superseded(db, id), id, lease, row, job)
    ensures RowsMove(db, Grabbed(Superseded(db, id), id, lease, row, job))
    ensures SameTables(db, Grabbed(Superseded(db, id), id, lease, row, job))
  {
  }

  lemma ClaimStep(db: Db, id: Id, lease: Id, worker: string, duration: int)
    requires Inv(db) && DoClaim(db, id, lease, worker, duration).Done?
    ensures RowsMove(db, DoClaim(db, id, lease, worker, duration).value)
    ensures SameTables(db, DoClaim(db, id, lease, worker, duration).value)
  {
    ClaimWrites(db, id, lease, worker, duration);
    if db.jobs[id].status.Running? {
      assert JobOk(db, id);
      CurrentIsNew(db, id);
    }
    if db.jobs[id].status.Running? && db.jobs[id].spec.maxAttempts <= db.jobs[id].attemptCount {
      var code := "LEASE_EXPIRED_ATTEMPTS_EXHAUSTED";
      LeftMoves(db, id, ExpiredLease, Some(code), SpentRow(db, id));
    } else {
      var row := NewLease(Superseded(db, id), id, worker, duration);
      GrabbedMoves(db, id, lease, row, ClaimedJob(db.jobs[id], lease, row));
    }
  }

  lemma RecoverStep(db: Db, id: Id)
    requires Inv(db) && DoRecover(db, id).Done?
    ensures RowsMove(db, DoRecover(db, id).value) && SameTables(db, DoRecover(db, id).value)
  {
    RecoverWrites(db, id);
    CurrentIsNew(db, id);
    var (reason, code, after) := Recovery(db, id);
    LeftMoves(db, id, reason, Some(code), after);
  }

  lemma BeatenMoves(db: Db, g: Grant, duration: int)
    requires HoldsLease(db, g) && db.leases[g.lease].protocol == 1
    ensures RowsMove(db, Beaten(db, g, duration)) && SameTables(db, Beaten(db, g, duration))
  {
  }

  /** Finishing an effect under a usable lease, then appending a checkpoint under it. */
  lemma FinishThenAppend(db: Db, finished: Db, db': Db, g: Grant, id: Id)
    requires HoldsLease(db, g) && PendingEffect(db, g.job, id) && db.effects[id].completionLease.None?
    requires finished == db.(effects := finished.effects) && finished.effects.Keys == db.effects.Keys
    requires EffectStep(db, db.effects[id], finished.effects[id])
    requires forall e <- db.effects :: e != id ==> finished.effects[e] == db.effects[e]
    requires RowsMove(finished, db') && Fenced(finished, db') && db'.effects == finished.effects
    requires db'.transitions == db.transitions && db'.outages == db.outages
    ensures RowsMove(db, db') && Fenced(db, db')
  {
    assert JobsMove(db, db') && LeasesMove(db, db') by { assert JobsMove(finished, db') && LeasesMove(finished, db'); }
    assert CheckpointsFenced(db, db') by {
      assert CheckpointsFenced(finished, db');
      assert forall l :: Usable(finished, l) ==> Usable(db, l);
    }
  }

  lemma RecordEffectWrites(db: Db, g: Grant, id: Id, succeeded: bool, result: string, expected: int, key: string, payload: string)
    requires DoRecordEffect(db, g, id, succeeded, result, expected, key, payload).Done?
    ensures HoldsLease(db, g) && id in db.effects && db.effects[id].job == g.job
    ensures var from := if db.effects[id].status.Pending? then Finished(db, g, id, succeeded, result) else db;
            DoRecordEffect(db, g, id, succeeded, result, expected, key, payload)
            == AppendCheckpoint(from, g, expected, key, payload)
  {
  }

  lemma RecordEffectStep(db: Db, g: Grant, id: Id, succeeded: bool, result: string, expected: int, key: string, payload: string)
    requires Inv(db) && DoRecordEffect(db, g, id, succeeded, result, expected, key, payload).Done?
    ensures RowsMove(db, DoRecordEffect(db, g, id, succeeded, result, expected, key, payload).value)
    ensures Fenced(db, DoRecordEffect(db, g, id, succeeded, result, expected, key, payload).value)
  {
    RecordEffectWrites(db, g, id, succeeded, result, expected, key, payload);
    if db.effects[id].status.Pending? {
      FinishedKeeps(db, g, id, succeeded, result);
      FinishedEffectStep(db, g, id, succeeded, result);
      FinishPendingStep(db, Finished(db, g, id, succeeded, result), g, id, expected, key, payload);
    } else {
      AppendStep(db, g, expected, key, payload);
    }
  }

  lemma FinishPendingStep(db: Db, finished: Db, g: Grant, id: Id, expected: int, key: string, payload: string)
    requires Inv(finished) && HoldsLease(finished, g) && HoldsLease(db, g)
    requires PendingEffect(db, g.job, id) && db.effects[id].completionLease.None?
    requires finished == db.(effects := finished.effects) && finished.effects.Keys == db.effects.Keys
    requires EffectStep(db, db.effects[id], finished.effects[id])
    requires forall e <- db.effects :: e != id ==> finished.effects[e] == db.effects[e]
    requires AppendCheckpoint(finished, g, expected, key, payload).Done?
    ensures RowsMove(db, AppendCheckpoint(finished, g, expected, key, payload).value)
    ensures Fenced(db, AppendCheckpoint(finished, g, expected, key, payload).value)
  {
    AppendStep(finished, g, expected, key, payload);
    FinishThenAppend(db, finished, AppendCheckpoint(finished, g, expected, key, payload).value, g, id);
  }

  lemma FinishedEffectStep(db: Db, g: Grant, id: Id, succeeded: bool, result: string)
    requires EffectsOk(db) && HoldsLease(db, g) && PendingEffect(db, g.job, id)
    ensures db.effects[id].completionLease.None?
    ensures EffectStep(db, db.effects[id], Finished(db, g, id, succeeded, result).effects[id])
  {
    HeldUsable(db, g);
    assert EffectOk(db, id);
  }

  lemma CompleteStep(db: Db, g: Grant, expected: int, final: Option<(string, string)>)
    requires Inv(db) && DoComplete(db, g, expected, final).Done?
    ensures RowsMove(db, DoComplete(db, g, expected, final).value) && Fenced(db, DoComplete(db, g, expected, final).value)
  {
    CompleteWrites(db, g, expected, final);
    SavedKeeps(db, g, expected, final);
    var saved := Saved(db, g, expected, final).value;
    if final.Some? {
      AppendStep(db, g, expected, final.value.0, final.value.1);
    } else {
      SameHistoryFenced(db, db);
    }
    assert JobOk(saved, g.job);
    var job := Detached(saved.jobs[g.job], Succeeded, Some(g.token), None, Some(db.now));
    LeaveWrites(saved, g.job, SucceededLease, None, job);
    CurrentIsNew(saved, g.job);
    LeftMoves(saved, g.job, SucceededLease, None, job);
    RowsMoveTransitive(db, saved, DoComplete(db, g, expected, final).value);
  }

  lemma FailStep(db: Db, g: Grant, code: string, retryable: bool, jitter: nat)
    requires Inv(db) && HoldsLease(db, g) && ReleaseFailed(db, g, code, retryable, jitter).Done?
    ensures RowsMove(db, ReleaseFailed(db, g, code, retryable, jitter).value)
    ensures SameTables(db, ReleaseFailed(db, g, code, retryable, jitter).value)
  {
    ReleaseFailedKeeps(db, g, code, retryable, jitter);
    CurrentIsNew(db, g.job);
    LeftMoves(db, g.job, FailedReason(db.jobs[g.job], retryable), Some(code), FailedRow(db, g, code, retryable, jitter));
  }

  lemma CancelJobStep(db: Db, id: Id)
    requires Inv(db) && id in db.jobs && CancelJob(db, id).Done?
    ensures RowsMove(db, CancelJob(db, id).value) && SameTables(db, CancelJob(db, id).value)
  {
    var job := db.jobs[id];
    CancelJobWrites(db, id);
    assert JobOk(db, id);
    if job.status.Running? {
      CurrentIsNew(db, id);
      var flushed := db.(jobs := db.jobs[id := Marked(job, db.now)]);
      LeaveWrites(flushed, id, CancelledLease, Some("CANCELLATION_REQUESTED"), Closed(job, db.now));
      LeftMoves(flushed, id, CancelledLease, Some("CANCELLATION_REQUESTED"), Closed(job, db.now));
      MarkedMoves(db, id);
      RowsMoveTransitive(db, flushed, CancelJob(db, id).value);
    } else if job.status.Queued? {
      ClosedMoves(db, id);
    }
  }

  lemma MarkedMoves(db: Db, id: Id)
    requires id in db.jobs && db.jobs[id].status.Running?
    ensures RowsMove(db, db.(jobs := db.jobs[id := Marked(db.jobs[id], db.now)]))
  {
  }

  lemma ClosedMoves(db: Db, id: Id)
    requires id in db.jobs && db.jobs[id].status.Queued?
    ensures RowsMove(db, db.(jobs := db.jobs[id := Closed(db.jobs[id], db.now)]))
  {
  }

  lemma RowsMoveTransitive(a: Db, b: Db, c: Db)
    requires RowsMove(a, b) && RowsMove(b, c)
    ensures RowsMove(a, c)
  {
    assert JobsMove(a, c) by {
      forall j <- a.jobs ensures j in c.jobs && JobMoves(a.jobs[j], c.jobs[j]) {
        assert JobMoves(a.jobs[j], b.jobs[j]);
      }
    }
    forall l <- a.leases
      ensures l in c.leases && LeaseMoves(a.leases[l], c.leases[l])
      ensures a.leases[l].releasedAt.None? && c.leases[l].releasedAt.Some? ==> a.now <= c.leases[l].releasedAt.value
    {
      assert LeaseMoves(a.leases[l], b.leases[l]) && LeaseMoves(b.leases[l], c.leases[l]);
    }
  }

  lemma {:induction false} CancelJobsStep(db: Db, order: seq<Id>)
    requires Inv(db) && CancelJobs(db, order).Done?
    ensures RowsMove(db, CancelJobs(db, order).value) && SameTables(db, CancelJobs(db, order).value)
    decreases |order|
  {
    if order != [] {
      var next := CancelJob(db, order[0]).value;
      CancelJobKeeps(db, order[0]);
      CancelJobStep(db, order[0]);
      CancelJobsStep(next, order[1..]);
      RowsMoveTransitive(db, next, CancelJobs(db, order).value);
    }
  }

  lemma ScheduleStep(db: Db, id: Id, spec: JobSpec, availableAt: Option<int>, runnable: bool)
    requires DoSchedule(db, id, spec, availableAt, runnable).Done?
    ensures RowsMove(db, DoSchedule(db, id, spec, availableAt, runnable).value)
    ensures SameTables(db, DoSchedule(db, id, spec, availableAt, runnable).value)
  {
  }

  lemma PrepareEffectStep(db: Db, g: Grant, id: Id, key: string, kind: string, request: string)
    requires DoPrepareEffect(db, g, id, key, kind, request).Done?
    ensures RowsMove(db, DoPrepareEffect(db, g, id, key, kind, request).value)
    ensures Fenced(db, DoPrepareEffect(db, g, id, key, kind, request).value)
  {
    var db' := DoPrepareEffect(db, g, id, key, kind, request).value;
    if db' == db {
      SameHistoryFenced(db, db');
    } else {
      PreparedStep(db, db', g, id);
    }
  }

  lemma PreparedStep(db: Db, db': Db, g: Grant, id: Id)
    requires HoldsLease(db, g) && id !in db.effects && id in db'.effects
    requires db' == db.(effects := db.effects[id := db'.effects[id]])
    requires db'.effects[id].status.Pending? && db'.effects[id].completionLease.None?
    requires db'.effects[id].job == g.job && db'.effects[id].startedLease == g.lease
    ensures RowsMove(db, db') && Fenced(db, db')
  {
    HeldUsable(db, g);
  }

  lemma FailDependencyStep(db: Db, g: Grant, code: string, jitter: nat)
    requires Inv(db) && DoFailDependency(db, g, code, jitter).Done?
    ensures RowsMove(db, DoFailDependency(db, g, code, jitter).value)
    ensures Fenced(db, DoFailDependency(db, g, code, jitter).value)
  {
    HeldUsable(db, g);
    FailStep(db, g, code, true, jitter);
    SameHistoryFenced(db, ReleaseFailed(db, g, code, true, jitter).value);
  }

  lemma TransitionedStep(db: Db, db': Db, g: Grant, event: Id)
    requires HoldsLease(db, g) && event !in db.transitions && event in db'.transitions
    requires db' == db.(transitions := db.transitions[event := db'.transitions[event]])
    requires db'.transitions[event].lease == g.lease
    ensures RowsMove(db, db') && Fenced(db, db')
  {
    HeldUsable(db, g);
  }

  lemma TransitionStep(db: Db, g: Grant, event: Id)
    requires DoTransition(db, g, event).Done?
    ensures RowsMove(db, DoTransition(db, g, event).value) && Fenced(db, DoTransition(db, g, event).value)
  {
    var db' := DoTransition(db, g, event).value;
    if db' == db { SameHistoryFenced(db, db'); } else { TransitionedStep(db, db', g, event); }
  }

  lemma MovesLeaseStep(db: Db, c: Command)
    requires MovesLease(c) && Inv(db) && Execute(db, c).Done?
    ensures RowsMove(db, Execute(db, c).value) && Fenced(db, Execute(db, c).value)
  {
    var db' := Execute(db, c).value;
    match c
    case Tick(_) => SameHistoryFenced(db, db');
    case Schedule(job, spec, availableAt, runnable) =>
      ScheduleStep(db, job, spec, availableAt, runnable);
      SameHistoryFenced(db, db');
    case Claim(job, lease, worker, duration) =>
      ClaimStep(db, job, lease, worker, duration);
      SameHistoryFenced(db, db');
    case RecoverExpired(job) =>
      RecoverStep(db, job);
      SameHistoryFenced(db, db');
    case Heartbeat(g, duration) =>
      HeartbeatWrites(db, g, duration);
      HeldIsNew(db, g);
      BeatenMoves(db, g, duration);
      SameHistoryFenced(db, db');
    case Complete(g, expected, final) => CompleteStep(db, g, expected, final);
    case FailAttempt(g, code, retryable, jitter) =>
      FailStep(db, g, code, retryable, jitter);
      SameHistoryFenced(db, db');
    case FailDependency(g, code, jitter) => FailDependencyStep(db, g, code, jitter);
    case CancelTask(task, order) =>
      CancelJobsStep(db, order);
      SameHistoryFenced(db, db');
  }

  lemma IgnoreStep(db: Db, g: Grant, key: string, effect: Option<Id>)
    requires DoIgnore(db, g, key, effect).Done?
    ensures RowsMove(db, DoIgnore(db, g, key, effect).value) && Fenced(db, DoIgnore(db, g, key, effect).value)
  {
    SameHistoryFenced(db, DoIgnore(db, g, key, effect).value);
  }

  lemma UnderLeaseStep(db: Db, c: Command)
    requires !MovesLease(c) && Inv(db) && Execute(db, c).Done?
    ensures RowsMove(db, Execute(db, c).value) && Fenced(db, Execute(db, c).value)
  {
    match c
    case SaveCheckpoint(g, expected, key, payload) => AppendStep(db, g, expected, key, payload);
    case PrepareEffect(g, e, key, kind, request) => PrepareEffectStep(db, g, e, key, kind, request);
    case RecordEffect(g, e, ok, result, expected, key, payload) => RecordEffectStep(db, g, e, ok, result, expected, key, payload);
    case RecordIgnored(g, key, e) => IgnoreStep(db, g, key, e);
    case PauseAttempt(g, code) => PauseRefused(db, g, code);
    case TransitionTask(g, event) => TransitionStep(db, g, event);
  }

  /** One committed command writes only under usable leases and only moves rows on. */
  lemma ExecuteStep(db: Db, c: Command)
    requires Inv(db) && Execute(db, c).Done?
    ensures RowsMove(db, Execute(db, c).value) && Fenced(db, Execute(db, c).value)
  {
    if MovesLease(c) { MovesLeaseStep(db, c); } else { UnderLeaseStep(db, c); }
  }

  lemma {:induction false} RunMoves(db: Db, cs: seq<Command>)
    requires Inv(db)
    ensures RowsMove(db, Run(db, cs))
    decreases |cs|
  {
    if cs != [] {
      var next := Step(db, cs[0]);
      if Execute(db, cs[0]).Done? {
        ExecuteKeeps(db, cs[0]);
        ExecuteStep(db, cs[0]);
      }
      RunMoves(next, cs[1..]);
      RowsMoveTransitive(db, next, Run(db, cs));
    }
  }

  // ----- fencing

  /** The rows recorded under lease l are the same in both databases. */
  ghost predicate SameWritesUnder(db: Db, db': Db, l: Id) {
    && (forall k <- db'.checkpoints :: db'.checkpoints[k].lease == l ==>
          k in db.checkpoints && db.checkpoints[k] == db'.checkpoints[k])
    && (forall e <- db'.effects :: db'.effects[e].startedLease == l ==>
          e in db.effects && db.effects[e].startedLease == l)
    && (forall e <- db'.effects :: db'.effects[e].completionLease == Some(l) ==>
          e in db.effects && db.effects[e] == db'.effects[e])
    && (forall e <- db'.transitions :: db'.transitions[e].lease == l ==>
          e in db.transitions && db.transitions[e] == db'.transitions[e])
    && (forall k <- db'.outages :: db'.outages[k].lease == l ==>
          k in db.outages && db.outages[k] == db'.outages[k])
  }

  lemma SameWritesUnderTransitive(a: Db, b: Db, c: Db, l: Id)
    requires SameWritesUnder(a, b, l) && SameWritesUnder(b, c, l)
    ensures SameWritesUnder(a, c, l)
  {
  }

  lemma NotCurrentReleased(db: Db, l: Id)
    requires Inv(db) && l in db.leases && db.jobs[db.leases[l].job].currentLease != Some(l)
    ensures (db.leases[l].protocol == 0 || db.leases[l].releasedAt.Some?) && !Usable(db, l)
  {
    assert LeaseOk(db, l);
  }

  lemma FencedSameWrites(db: Db, db': Db, l: Id)
    requires Fenced(db, db') && !Usable(db, l)
    ensures SameWritesUnder(db, db', l)
  {
    forall e <- db'.effects
      ensures db'.effects[e].startedLease == l ==> e in db.effects && db.effects[e].startedLease == l
      ensures db'.effects[e].completionLease == Some(l) ==> e in db.effects && db.effects[e] == db'.effects[e]
    {
      if e in db.effects { assert EffectStep(db, db.effects[e], db'.effects[e]); }
    }
  }

  lemma NoLateWritesStep(db: Db, db': Db, l: Id)
    requires Inv(db) && Inv(db') && RowsMove(db, db') && Fenced(db, db')
    requires l in db.leases && db.leases[l].job in db.jobs && db.jobs[db.leases[l].job].currentLease != Some(l)
    ensures l in db'.leases && db'.leases[l] == db.leases[l] && db'.leases[l].job in db'.jobs
    ensures db'.jobs[db'.leases[l].job].currentLease != Some(l) && SameWritesUnder(db, db', l)
  {
    NotCurrentReleased(db, l);
    FencedSameWrites(db, db', l);
    assert LeasesMove(db, db') && JobsMove(db, db');
    assert LeaseMoves(db.leases[l], db'.leases[l]);
    assert JobMoves(db.jobs[db.leases[l].job], db'.jobs[db.leases[l].job]);
    assert JobOk(db', db.leases[l].job);
  }

  /** Once a job's current lease is not l, it never is again, and no checkpoint, effect start, effect
      completion, task transition or outage is ever recorded under l. */
  lemma {:induction false} NoLateWrites(db: Db, cs: seq<Command>, l: Id)
    requires Inv(db) && l in db.leases && db.leases[l].job in db.jobs
    requires db.jobs[db.leases[l].job].currentLease != Some(l)
    ensures var db' := Run(db, cs);
            && l in db'.leases && db'.leases[l] == db.leases[l] && db'.leases[l].job in db'.jobs
            && db'.jobs[db'.leases[l].job].currentLease != Some(l) && !Usable(db', l)
            && SameWritesUnder(db, db', l)
    decreases |cs|
  {
    NotCurrentReleased(db, l);
    if cs != [] {
      var next := Step(db, cs[0]);
      if Execute(db, cs[0]).Done? {
        ExecuteKeeps(db, cs[0]);
        ExecuteStep(db, cs[0]);
        NoLateWritesStep(db, next, l);
      }
      NoLateWrites(next, cs[1..], l);
      SameWritesUnderTransitive(db, next, Run(db, cs), l);
    }
  }

  /** While l was usable the clock stood in the interval that l's row records for good. */
  lemma {:induction false} UsableWindow(db: Db, cs: seq<Command>, l: Id)
    requires Inv(db) && Usable(db, l)
    ensures var db' := Run(db, cs);
            && l in db'.leases
            && db'.leases[l].createdAt <= db.now < db'.leases[l].expiresAt
            && (db'.leases[l].releasedAt.Some? ==> db.now <= db'.leases[l].releasedAt.value)
  {
    assert LeaseOk(db, l);
    RunMoves(db, cs);
    assert LeaseMoves(db.leases[l], Run(db, cs).leases[l]);
  }

  /** The usable intervals of two leases of one job are disjoint and in the order of their tokens. */
  lemma {:induction false} UsableOrdered(db: Db, cs: seq<Command>, l: Id, m: Id)
    requires Inv(db) && Usable(db, l) && Usable(Run(db, cs), m) && l != m
    requires Run(db, cs).leases[m].job == db.leases[l].job
    ensures var db' := Run(db, cs);
            && l in db'.leases && !Usable(db', l)
            && db'.leases[l].attempt < db'.leases[m].attempt && db'.leases[l].token < db'.leases[m].token
            && db'.leases[l].releasedAt.Some?
            && db.now <= db'.leases[l].releasedAt.value <= db'.leases[m].createdAt <= db'.now
  {
    RunKeeps(db, cs);
    RunMoves(db, cs);
    OrderedAfter(db, Run(db, cs), l, m);
  }

  lemma OrderedAfter(db: Db, db': Db, l: Id, m: Id)
    requires Inv(db) && Inv(db') && RowsMove(db, db') && Usable(db, l) && Usable(db', m) && l != m
    requires db'.leases[m].job == db.leases[l].job
    ensures l in db'.leases && !Usable(db', l)
    ensures db'.leases[l].attempt < db'.leases[m].attempt && db'.leases[l].token < db'.leases[m].token
    ensures db'.leases[l].releasedAt.Some?
    ensures db.now <= db'.leases[l].releasedAt.value <= db'.leases[m].createdAt <= db'.now
  {
    assert LeaseOk(db, l);
    assert LeaseMoves(db.leases[l], db'.leases[l]);
    TwoLeases(db', l, m);
  }

  lemma TwoLeases(db: Db, l: Id, m: Id)
    requires Inv(db) && l in db.leases && Usable(db, m) && l != m && db.leases[l].job == db.leases[m].job
    ensures !Usable(db, l) && db.leases[l].attempt < db.leases[m].attempt && db.leases[l].token < db.leases[m].token
    ensures db.leases[l].protocol == 1 ==>
              db.leases[l].releasedAt.Some? && db.leases[l].releasedAt.value <= db.leases[m].createdAt <= db.now
  {
    assert JobOk(db, db.leases[m].job);
    assert LeaseOk(db, l) && LeaseOk(db, m) && PairOk(db, l, m);
  }

  // ----- token order

  /** A job's leases carry consecutive attempts from 1, at most max_attempts, with increasing tokens
      below the counter; no two leases of any jobs share a token. */
  lemma TokenOrder(db: Db, j: Id)
    requires Inv(db) && j in db.jobs
    ensures forall a :: HasAttempt(db, j, a) <==> 1 <= a <= db.jobs[j].attemptCount
    ensures db.jobs[j].attemptCount <= db.jobs[j].spec.maxAttempts
    ensures forall l, m, a, b :: IsAttempt(db, l, j, a) && IsAttempt(db, m, j, b) ==>
              (a < b <==> db.leases[l].token < db.leases[m].token) && (a == b ==> l == m)
    ensures forall l <- db.leases :: 0 < db.leases[l].token < db.nextToken
    ensures forall l, m :: l in db.leases && m in db.leases && db.leases[l].token == db.leases[m].token ==> l == m
  {
    assert JobOk(db, j);
    forall l <- db.leases ensures 0 < db.leases[l].token < db.nextToken { assert LeaseOk(db, l); }
    forall l, m | l in db.leases && m in db.leases && db.leases[l].token == db.leases[m].token ensures l == m {
      assert PairOk(db, l, m);
    }
    forall a ensures HasAttempt(db, j, a) <==> 1 <= a <= db.jobs[j].attemptCount {
      if HasAttempt(db, j, a) {
        var l :| IsAttempt(db, l, j, a);
        assert LeaseOk(db, l);
      }
    }
    forall l, m, a, b | IsAttempt(db, l, j, a) && IsAttempt(db, m, j, b)
      ensures (a < b <==> db.leases[l].token < db.leases[m].token) && (a == b ==> l == m)
    {
      assert PairOk(db, l, m) && PairOk(db, m, l);
    }
  }

  /** Checkpoints of a job are numbered 1 to its version without gaps, under tokens that never decrease. */
  lemma CheckpointOrder(db: Db, j: Id)
    requires Inv(db) && j in db.jobs
    ensures forall n :: (j, n) in db.checkpoints <==> 1 <= n <= db.jobs[j].checkpointVersion
    ensures forall n, m :: (j, n) in db.checkpoints && (j, m) in db.checkpoints && n <= m ==>
              db.checkpoints[(j, n)].token <= db.checkpoints[(j, m)].token
  {
    CheckpointsWithin(db, j);
  }

  /** A finished effect stays as it finished, under a token no smaller than the one it started with. */
  lemma {:induction false} FinishedOnce(db: Db, cs: seq<Command>, e: Id)
    requires Inv(db) && e in db.effects && !db.effects[e].status.Pending?
    ensures e in Run(db, cs).effects && Run(db, cs).effects[e] == db.effects[e]
    ensures db.effects[e].completionToken.Some? && db.effects[e].startedToken <= db.effects[e].completionToken.value
    decreases |cs|
  {
    assert EffectOk(db, e);
    if cs != [] {
      var next := Step(db, cs[0]);
      if Execute(db, cs[0]).Done? {
        ExecuteKeeps(db, cs[0]);
        ExecuteStep(db, cs[0]);
        assert EffectStep(db, db.effects[e], next.effects[e]);
      }
      FinishedOnce(next, cs[1..], e);
    }
  }

  // ----- terminal jobs

  /** Job j's row and leases are the same in both databases. */
  ghost predicate SameJobAndLeases(db: Db, db': Db, j: Id) {
    && j in db.jobs && j in db'.jobs && db'.jobs[j] == db.jobs[j]
    && (forall l :: l in db.leases && db.leases[l].job == j ==> l in db'.leases && db'.leases[l] == db.leases[l])
    && (forall l :: l in db'.leases && db'.leases[l].job == j ==> l in db.leases && db'.leases[l] == db.leases[l])
  }

  ghost predicate SameJobEffects(db: Db, db': Db, j: Id) {
    && (forall e :: e in db.effects && db.effects[e].job == j ==> e in db'.effects && db'.effects[e] == db.effects[e])
    && (forall e :: e in db'.effects && db'.effects[e].job == j ==> e in db.effects && db'.effects[e] == db.effects[e])
  }

  ghost predicate SameJobRows<T(!new)>(rows: map<(Id, int), T>, rows': map<(Id, int), T>, j: Id) {
    forall n :: ((j, n) in rows <==> (j, n) in rows') && ((j, n) in rows ==> rows'[(j, n)] == rows[(j, n)])
  }

  /** Everything that hangs off job j. */
  ghost predicate SameJobHistory(db: Db, db': Db, j: Id) {
    && SameJobAndLeases(db, db', j) && SameJobEffects(db, db', j)
    && SameJobRows(db.checkpoints, db'.checkpoints, j) && SameJobRows(db.outages, db'.outages, j)
  }

  lemma SameJobHistoryTransitive(a: Db, b: Db, c: Db, j: Id)
    requires SameJobHistory(a, b, j) && SameJobHistory(b, c, j)
    ensures SameJobHistory(a, c, j)
  {
  }

  lemma TerminalLeases(db: Db, db': Db, j: Id)
    requires Inv(db) && Inv(db') && RowsMove(db, db') && j in db.jobs && Terminal(db.jobs[j].status)
    ensures SameJobAndLeases(db, db', j)
  {
    assert JobMoves(db.jobs[j], db'.jobs[j]);
    assert JobOk(db, j);
    forall l | l in db.leases && db.leases[l].job == j ensures l in db'.leases && db'.leases[l] == db.leases[l] {
      assert LeaseOk(db, l) && LeaseMoves(db.leases[l], db'.leases[l]);
    }
    forall l | l in db'.leases && db'.leases[l].job == j ensures l in db.leases && db'.leases[l] == db.leases[l] {
      assert LeaseOk(db', l);
      assert HasAttempt(db, j, db'.leases[l].attempt);
      var m :| IsAttempt(db, m, j, db'.leases[l].attempt);
      assert LeaseMoves(db.leases[m], db'.leases[m]) && PairOk(db', l, m);
    }
  }

  lemma TerminalStep(db: Db, db': Db, j: Id)
    requires Inv(db) && Inv(db') && RowsMove(db, db') && Fenced(db, db') && j in db.jobs && Terminal(db.jobs[j].status)
    ensures SameJobHistory(db, db', j)
  {
    TerminalLeases(db, db', j);
    NoneUsable(db, j);
    SameFencedEffects(db, db', j);
  }

  lemma NoneUsable(db: Db, j: Id)
    requires j in db.jobs && Terminal(db.jobs[j].status)
    ensures forall l :: Usable(db, l) ==> db.leases[l].job != j
  {
  }

  lemma SameFencedEffects(db: Db, db': Db, j: Id)
    requires EffectsFenced(db, db') && forall l :: Usable(db, l) ==> db.leases[l].job != j
    ensures SameJobEffects(db, db', j)
  {
    forall e <- db.effects | db.effects[e].job == j ensures db'.effects[e] == db.effects[e] {
      assert EffectStep(db, db.effects[e], db'.effects[e]);
    }
  }

  /** After SUCCEEDED, FAILED or CANCELLED nothing of the job changes again, whatever runs. */
  lemma {:induction false} TerminalFreeze(db: Db, cs: seq<Command>, j: Id)
    requires Inv(db) && j in db.jobs && Terminal(db.jobs[j].status)
    ensures SameJobHistory(db, Run(db, cs), j)
    decreases |cs|
  {
    if cs != [] {
      var next := Step(db, cs[0]);
      if Execute(db, cs[0]).Done? {
        ExecuteKeeps(db, cs[0]);
        ExecuteStep(db, cs[0]);
        TerminalStep(db, next, j);
      }
      TerminalFreeze(next, cs[1..], j);
      SameJobHistoryTransitive(db, next, Run(db, cs), j);
    }
  }

  // ----- outages

  lemma {:induction false} SmallSet(s: set<int>, n: nat)
    requires forall x <- s :: 1 <= x <= n
    ensures |s| <= n
    decreases n
  {
    if n == 0 {
      assert forall x :: x !in s;
      assert s == {};
    } else {
      SmallSet(s - {n}, n - 1);
      if n in s { assert |s| == |s - {n}| + 1; }
    }
  }

  /** A job has at most max_attempts outages, and at most one exhausted: its last attempt, which failed it. */
  lemma OutagesBounded(db: Db, j: Id)
    requires Inv(db) && j in db.jobs
    ensures |set k <- db.outages | k.0 == j :: k.1| <= db.jobs[j].spec.maxAttempts
    ensures forall n :: (j, n) in db.outages && db.outages[(j, n)].exhausted ==>
              db.jobs[j].status.Failed? && n == db.jobs[j].attemptCount == db.jobs[j].spec.maxAttempts
  {
    assert JobOk(db, j);
    var attempts := set k <- db.outages | k.0 == j :: k.1;
    forall a <- attempts ensures 1 <= a <= db.jobs[j].spec.maxAttempts {
      assert (j, a) in db.outages;
      assert OutageOk(db, (j, a)) && LeaseOk(db, db.outages[(j, a)].lease);
    }
    SmallSet(attempts, db.jobs[j].spec.maxAttempts);
    forall n | (j, n) in db.outages && db.outages[(j, n)].exhausted
      ensures db.jobs[j].status.Failed? && n == db.jobs[j].attemptCount == db.jobs[j].spec.maxAttempts
    {
      assert OutageOk(db, (j, n));
    }
  }

  // ----- accept or ignore

  /** For any lease a job ever held, a result arriving now is either admitted by the write guard or
      by the ignored-result guard, never both and never neither. */
  lemma AcceptOrIgnore(db: Db, l: Id)
    requires Inv(db) && l in db.leases
    ensures var lease := db.leases[l];
            WriteAdmitted(db, lease.job, l, lease.token) <==> !IgnoreAdmitted(db, lease.job, l, lease.token, db.now)
  {
    assert LeaseOk(db, l);
    assert JobOk(db, db.leases[l].job);
  }

  /** The full guards of a worker's writes come down to that same condition. */
  lemma WriteGuards(db: Db, g: Grant, key: string, payload: string)
    requires Inv(db) && g.job in db.jobs && g.lease in db.leases
    requires forall k <- db.checkpoints :: db.checkpoints[k].key != key
    ensures CheckpointGuard(db, g.job, db.jobs[g.job].checkpointVersion + 1,
                            Checkpoint(g.lease, g.token, key, payload, db.jobs[g.job].spec.scope))
            <==> WriteAdmitted(db, g.job, g.lease, g.token)
  {
    assert JobOk(db, g.job);
    assert LeaseOk(db, g.lease);
    CheckpointOrder(db, g.job);
  }

  /** A succeeded job left no effect open, and a job never has two open effects. */
  lemma EffectsSettled(db: Db, j: Id)
    requires Inv(db) && j in db.jobs
    ensures db.jobs[j].status.Succeeded? ==> NoPendingEffects(db, j)
    ensures forall e, f :: PendingEffect(db, j, e) && PendingEffect(db, j, f) ==> e == f
  {
  }

  /** All of it holds of every database the service reaches from empty tables. */
  lemma {:induction false} EveryReachable(start: int, cs: seq<Command>)
    ensures var db := Run(Empty(start), cs);
            && Inv(db)
            && (forall l, m :: l in db.leases && m in db.leases && db.leases[l].token == db.leases[m].token ==> l == m)
            && (forall l <- db.leases :: db.leases[l].token < db.nextToken)
            && (forall j <- db.jobs, n :: (j, n) in db.checkpoints <==> 1 <= n <= db.jobs[j].checkpointVersion)
            && (forall l <- db.leases ::
                  WriteAdmitted(db, db.leases[l].job, l, db.leases[l].token)
                  <==> !IgnoreAdmitted(db, db.leases[l].job, l, db.leases[l].token, db.now))
  {
    RunKeeps(Empty(start), cs);
    var db := Run(Empty(start), cs);
    forall l, m | l in db.leases && m in db.leases && db.leases[l].token == db.leases[m].token ensures l == m {
      assert PairOk(db, l, m);
    }
    forall l <- db.leases
      ensures db.leases[l].token < db.nextToken
      ensures WriteAdmitted(db, db.leases[l].job, l, db.leases[l].token)
              <==> !IgnoreAdmitted(db, db.leases[l].job, l, db.leases[l].token, db.now)
    {
      assert LeaseOk(db, l);
      AcceptOrIgnore(db, l);
    }
    forall j <- db.jobs, n ensures (j, n) in db.checkpoints <==> 1 <= n <= db.jobs[j].checkpointVersion {
      CheckpointOrder(db, j);
    }
  }
}
