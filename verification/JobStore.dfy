/** The job database as an object whose tables the transactions rewrite row by row, rolling back when
    a trigger refuses a row. */
module JobStore {
  import opened Wrappers
  import opened JobTables
  import opened JobService
  import opened JobInvariant

  datatype Verdict = Committed | ErrorRaised | RolledBack

  /** A transaction that ran from before to after did what the specification outcome says. */
  ghost predicate Closes(outcome: Outcome<Db>, verdict: Verdict, before: Db, after: Db) {
    match outcome
    case Done(db) => verdict == Committed && after == db
    case Raised => verdict == ErrorRaised && after == before
    case Refused => verdict == RolledBack && after == before
  }

  /** A transaction of the store is one step of the run that the invariant is proved about. */
  lemma TransactionKeeps(before: Db, c: Command, verdict: Verdict, after: Db)
    requires Inv(before) && Closes(Execute(before, c), verdict, before, after)
    ensures after == Step(before, c) && Inv(after)
  {
    if Execute(before, c).Done? { ExecuteKeeps(before, c); }
  }

  /** What completing comes to once the final checkpoint, if any, was tried. */
  lemma CompleteOutcome(db: Db, g: Grant, expected: int, final: Option<(string, string)>)
    requires HoldsLease(db, g) && NoPendingEffects(db, g.job)
    requires final.None? ==> db.jobs[g.job].checkpointVersion == expected
    ensures match Saved(db, g, expected, final)
            case Done(saved) =>
              Finishing(saved, g) ==>
                DoComplete(db, g, expected, final)
                == Leave(saved, g.job, SucceededLease, None,
                         Detached(saved.jobs[g.job], Succeeded, Some(g.token), None, Some(db.now)))
            case Raised => DoComplete(db, g, expected, final) == Raised
            case Refused => DoComplete(db, g, expected, final) == Refused
  {
  }

  lemma SavedFinishing(db: Db, g: Grant, expected: int, final: Option<(string, string)>)
    requires HoldsLease(db, g) && Saved(db, g, expected, final).Done?
    ensures Finishing(Saved(db, g, expected, final).value, g) && Saved(db, g, expected, final).value.now == db.now
  {
  }

  class Store {
    var now: int
    var nextToken: int
    var jobs: map<Id, Job>
    var leases: map<Id, Lease>
    var checkpoints: map<(Id, int), Checkpoint>
    var effects: map<Id, Effect>
    var transitions: map<Id, TaskTransition>
    var ignored: map<string, IgnoredResult>
    var outages: map<(Id, int), Outage>

    function Snapshot(): Db
      reads this
    {
      Db(now, nextToken, jobs, leases, checkpoints, effects, transitions, ignored, outages)
    }

    constructor (start: int)
      ensures Snapshot() == Empty(start)
    {
      now, nextToken, jobs, leases := start, 1, map[], map[];
      checkpoints, effects, transitions, ignored, outages := map[], map[], map[], map[], map[];
    }

    method Rollback(db: Db)
      modifies this
      ensures Snapshot() == db
    {
      now, nextToken, jobs, leases := db.now, db.nextToken, db.jobs, db.leases;
      checkpoints, effects, transitions, ignored, outages :=
        db.checkpoints, db.effects, db.transitions, db.ignored, db.outages;
    }

    // ----- single rows, each behind its trigger

    method PutJob(id: Id, row: Job) returns (ok: bool)
      modifies this
      ensures ok <==> UpdateJob(old(Snapshot()), id, row).Done?
      ensures Snapshot() == if ok then UpdateJob(old(Snapshot()), id, row).value else old(Snapshot())
    {
      ok := id in jobs && JobUpdateGuard(Snapshot(), id, jobs[id], row);
      if ok { jobs := jobs[id := row]; }
    }

    method AddJob(id: Id, row: Job) returns (ok: bool)
      modifies this
      ensures ok <==> InsertJob(old(Snapshot()), id, row).Done?
      ensures Snapshot() == if ok then InsertJob(old(Snapshot()), id, row).value else old(Snapshot())
    {
      ok := id !in jobs && JobShape(row) && forall other <- jobs :: jobs[other].spec.key != row.spec.key;
      if ok { jobs := jobs[id := row]; }
    }

    method PutLease(id: Id, row: Lease) returns (ok: bool)
      modifies this
      ensures ok <==> UpdateLease(old(Snapshot()), id, row).Done?
      ensures Snapshot() == if ok then UpdateLease(old(Snapshot()), id, row).value else old(Snapshot())
    {
      ok := id in leases && LeaseUpdateGuard(Snapshot(), id, leases[id], row);
      if ok { leases := leases[id := row]; }
    }

    method AddLease(id: Id, row: Lease) returns (ok: bool)
      modifies this
      ensures ok <==> InsertLease(old(Snapshot()), id, row).Done?
      ensures Snapshot() == if ok then InsertLease(old(Snapshot()), id, row).value else old(Snapshot())
    {
      ok := LeaseInsertGuard(Snapshot(), id, row);
      if ok { leases := leases[id := row]; }
    }

    method AddCheckpoint(id: Id, sequence: int, row: Checkpoint) returns (ok: bool)
      modifies this
      ensures ok <==> InsertCheckpoint(old(Snapshot()), id, sequence, row).Done?
      ensures Snapshot() == if ok then InsertCheckpoint(old(Snapshot()), id, sequence, row).value else old(Snapshot())
    {
      ok := CheckpointGuard(Snapshot(), id, sequence, row);
      if ok { checkpoints := checkpoints[(id, sequence) := row]; }
    }

    method EndLease(id: Id, reason: Reason, code: Option<string>) returns (ok: bool)
      requires id in leases
      modifies this
      ensures ok <==> Release(old(Snapshot()), id, reason, code).Done?
      ensures Snapshot() == if ok then Release(old(Snapshot()), id, reason, code).value else old(Snapshot())
    {
      var row := leases[id];
      ok := PutLease(id, row.(releasedAt := Some(now), releaseReason := Some(reason),
                              failureCode := if code.Some? then code else row.failureCode));
    }

    /** Release the current lease of a job and write the row that leaves it. */
    method Depart(id: Id, reason: Reason, code: Option<string>, row: Job) returns (ok: bool)
      requires id in jobs && jobs[id].currentLease.Some? && jobs[id].currentLease.value in leases
      modifies this
      ensures ok <==> Leave(old(Snapshot()), id, reason, code, row).Done?
      ensures ok ==> Snapshot() == Leave(old(Snapshot()), id, reason, code, row).value
    {
      ok := EndLease(jobs[id].currentLease.value, reason, code);
      if ok { ok := PutJob(id, row); }
    }

    // ----- transactions

    method Tick(delta: nat)
      modifies this
      ensures Snapshot() == old(Snapshot()).(now := old(now) + delta)
    {
      now := now + delta;
    }

    method Schedule(id: Id, spec: JobSpec, availableAt: Option<int>, taskRunnable: bool) returns (v: Verdict)
      modifies this
      ensures Closes(DoSchedule(old(Snapshot()), id, spec, availableAt, taskRunnable), v, old(Snapshot()), Snapshot())
    {
      if !ValidPolicy(spec) || spec.task.None? { return ErrorRaised; }
      if exists other <- jobs :: jobs[other].spec.key == spec.key {
        if exists other <- jobs :: jobs[other].spec.key == spec.key && SameSchedule(jobs[other].spec, spec) {
          return Committed;
        }
        return ErrorRaised;
      }
      if !taskRunnable { return ErrorRaised; }
      var ok := AddJob(id, NewJob(spec, if availableAt.Some? then availableAt.value else now));
      v := if ok then Committed else RolledBack;
    }

    /** SELECT max(attempt) over the leases of a job. */
    method MaxAttempt(id: Id) returns (m: int)
      ensures m == LastAttempt(Snapshot(), id)
    {
      m := 0;
      var none := true;
      var rest := leases.Keys;
      ghost var seen: set<Id> := {};
      while rest != {}
        invariant seen + rest == leases.Keys && seen !! rest
        invariant IsLastAttempt(Snapshot(), id, seen, m)
        invariant none == forall l <- seen :: leases[l].job != id
        decreases |rest|
      {
        var x :| x in rest;
        LastAttemptGrows(Snapshot(), id, seen, x, m);
        m := Later(Snapshot(), id, x, none, m);
        none := none && leases[x].job != id;
        rest := rest - {x};
        seen := seen + {x};
      }
      assert seen == leases.Keys;
    }

    /** Take a token, insert the lease, point the job at it; the caller rolls back. */
    method TakeLease(id: Id, lease: Id, worker: string, duration: int) returns (ok: bool)
      requires id in jobs
      modifies this
      ensures Grab(old(Snapshot()), id, lease, worker, duration)
              == if ok then Done(Snapshot()) else Refused
    {
      var job := jobs[id];
      var token := nextToken;
      var attempt := MaxAttempt(id);
      nextToken := token + 1;
      var expiresAt := now + duration;
      ok := AddLease(lease, Lease(id, worker, attempt + 1, token, job.spec.scope, now, now, expiresAt,
                                  job.checkpointVersion, None, None, None, 1));
      if ok {
        ok := PutJob(id, job.(status := Running, attemptCount := job.attemptCount + 1, currentLease := Some(lease),
                              currentToken := Some(token), leaseOwner := Some(worker), leaseExpiresAt := Some(expiresAt),
                              lastToken := Some(token), lastError := None));
      }
    }

    method Claim(id: Id, lease: Id, worker: string, duration: int) returns (v: Verdict)
      modifies this
      ensures Closes(DoClaim(old(Snapshot()), id, lease, worker, duration), v, old(Snapshot()), Snapshot())
    {
      var begin := Snapshot();
      if !ValidDuration(duration) || !Claimable(begin, id) { return ErrorRaised; }
      var job := jobs[id];
      var ok;
      if job.status.Running? {
        if !HasCurrentLease(begin, job, id) { return ErrorRaised; }
        var current := job.currentLease.value;
        if job.spec.maxAttempts <= job.attemptCount {
          var code := "LEASE_EXPIRED_ATTEMPTS_EXHAUSTED";
          ok := Depart(id, ExpiredLease, Some(code), Detached(job, Failed, Some(leases[current].token), Some(code), Some(now)));
          if ok { return Committed; }
          Rollback(begin);
          return RolledBack;
        }
        ok := EndLease(current, SupersededLease, None);
        if !ok { return RolledBack; }
      }
      ok := TakeLease(id, lease, worker, duration);
      if !ok {
        Rollback(begin);
        return RolledBack;
      }
      v := Committed;
    }

    method RecoverExpired(id: Id) returns (v: Verdict)
      modifies this
      ensures Closes(DoRecover(old(Snapshot()), id), v, old(Snapshot()), Snapshot())
    {
      var begin := Snapshot();
      if !(id in jobs && jobs[id].status.Running? && jobs[id].leaseExpiresAt.Some? && jobs[id].leaseExpiresAt.value <= now) {
        return ErrorRaised;
      }
      var job := jobs[id];
      if !HasCurrentLease(begin, job, id) || leases[job.currentLease.value].releasedAt.Some? { return ErrorRaised; }
      var token := Some(leases[job.currentLease.value].token);
      var ok;
      if job.cancelRequestedAt.Some? {
        ok := Depart(id, CancelledLease, Some("CANCELLATION_REQUESTED"),
                     Detached(job, Cancelled, token, Some("CANCELLATION_REQUESTED"), Some(now)));
      } else if job.spec.maxAttempts <= job.attemptCount {
        ok := Depart(id, ExpiredLease, Some("LEASE_EXPIRED_ATTEMPTS_EXHAUSTED"),
                     Detached(job, Failed, token, Some("LEASE_EXPIRED_ATTEMPTS_EXHAUSTED"), Some(now)));
      } else {
        ok := Depart(id, ExpiredLease, Some("LEASE_EXPIRED"),
                     Detached(job, Queued, token, Some("LEASE_EXPIRED"), None).(availableAt := now));
      }
      if !ok {
        Rollback(begin);
        return RolledBack;
      }
      v := Committed;
    }

    method Heartbeat(g: Grant, duration: int) returns (v: Verdict)
      modifies this
      ensures Closes(DoHeartbeat(old(Snapshot()), g, duration), v, old(Snapshot()), Snapshot())
    {
      hide LeaseUpdateGuard, JobUpdateGuard;
      var begin := Snapshot();
      if !ValidDuration(duration) || !HoldsLease(begin, g) { return ErrorRaised; }
      var row := leases[g.lease];
      var expiresAt := if row.expiresAt < now + duration then now + duration else row.expiresAt;
      var ok := PutLease(g.lease, row.(heartbeatAt := now, expiresAt := expiresAt));
      if ok { ok := PutJob(g.job, jobs[g.job].(leaseExpiresAt := Some(expiresAt), lastToken := Some(g.token))); }
      if !ok {
        Rollback(begin);
        return RolledBack;
      }
      v := Committed;
    }

    /** The checkpoint part shared by three transactions; the caller rolls back. */
    method Append(g: Grant, expected: int, key: string, payload: string) returns (v: Verdict)
      requires g.job in jobs && g.lease in leases
      modifies this
      ensures match AppendCheckpoint(old(Snapshot()), g, expected, key, payload)
              case Done(db) => v == Committed && Snapshot() == db
              case Raised => v == ErrorRaised
              case Refused => v == RolledBack
    {
      var job := jobs[g.job];
      var row := leases[g.lease];
      var sequence := expected + 1;
      if exists k <- checkpoints :: checkpoints[k].key == key {
        if (g.job, sequence) in checkpoints && checkpoints[(g.job, sequence)].key == key
           && checkpoints[(g.job, sequence)].payload == payload {
          return Committed;
        }
        return ErrorRaised;
      }
      if job.checkpointVersion != expected { return ErrorRaised; }
      var ok := AddCheckpoint(g.job, sequence, Checkpoint(g.lease, g.token, key, payload, job.spec.scope));
      if ok { ok := PutJob(g.job, job.(checkpointVersion := sequence, lastToken := Some(g.token))); }
      if ok { ok := PutLease(g.lease, row.(checkpointVersion := sequence)); }
      v := if ok then Committed else RolledBack;
    }

    method SaveCheckpoint(g: Grant, expected: int, key: string, payload: string) returns (v: Verdict)
      modifies this
      ensures Closes(DoCheckpoint(old(Snapshot()), g, expected, key, payload), v, old(Snapshot()), Snapshot())
    {
      var begin := Snapshot();
      if !HoldsLease(begin, g) { return ErrorRaised; }
      v := Append(g, expected, key, payload);
      if v != Committed { Rollback(begin); }
    }

    method PrepareEffect(g: Grant, id: Id, key: string, kind: string, request: string) returns (v: Verdict)
      modifies this
      ensures Closes(DoPrepareEffect(old(Snapshot()), g, id, key, kind, request), v, old(Snapshot()), Snapshot())
    {
      var begin := Snapshot();
      if !HoldsLease(begin, g) { return ErrorRaised; }
      if exists e <- effects :: PendingEffect(begin, g.job, e) && effects[e].key != key { return ErrorRaised; }
      if exists e <- effects :: effects[e].key == key {
        if exists e <- effects :: effects[e].key == key && effects[e].job == g.job
                                  && effects[e].kind == kind && effects[e].request == request {
          return Committed;
        }
        return ErrorRaised;
      }
      var row := Effect(g.job, kind, key, request, Pending, g.lease, g.token, None, None, None, jobs[g.job].spec.scope);
      if !EffectInsertGuard(begin, id, row) { return RolledBack; }
      effects := effects[id := row];
      v := Committed;
    }

    method RecordEffect(g: Grant, id: Id, succeeded: bool, result: string, expected: int, key: string, payload: string)
      returns (v: Verdict)
      modifies this
      ensures Closes(DoRecordEffect(old(Snapshot()), g, id, succeeded, result, expected, key, payload),
                     v, old(Snapshot()), Snapshot())
    {
      var begin := Snapshot();
      if !HoldsLease(begin, g) || id !in effects || effects[id].job != g.job { return ErrorRaised; }
      var effect := effects[id];
      var status := if succeeded then EffectSucceeded else EffectFailed;
      if !effect.status.Pending? {
        if effect.status != status || effect.result != Some(result) { return ErrorRaised; }
      } else {
        var row := effect.(status := status, completionLease := Some(g.lease),
                           completionToken := Some(g.token), result := Some(result));
        if !EffectUpdateGuard(begin, effect, row) { return RolledBack; }
        effects := effects[id := row];
      }
      v := Append(g, expected, key, payload);
      if v != Committed { Rollback(begin); }
    }

    method RecordIgnored(g: Grant, key: string, effect: Option<Id>) returns (v: Verdict)
      modifies this
      ensures Closes(DoIgnore(old(Snapshot()), g, key, effect), v, old(Snapshot()), Snapshot())
    {
      var begin := Snapshot();
      if !(g.job in jobs && g.lease in leases) { return ErrorRaised; }
      var lease := leases[g.lease];
      if lease.job != g.job || lease.owner != g.worker || lease.attempt != g.attempt || lease.token != g.token
         || jobs[g.job].spec.task != Some(g.task) { return ErrorRaised; }
      if HoldsLease(begin, g) { return ErrorRaised; }
      if effect.Some? && !(effect.value in effects && effects[effect.value].job == g.job) { return ErrorRaised; }
      if key in ignored {
        var prior := ignored[key];
        var same := prior.job == g.job && prior.lease == g.lease && prior.token == g.token && prior.effect == effect;
        return if same then Committed else ErrorRaised;
      }
      var row := IgnoredResult(g.job, g.lease, g.token, effect, now);
      if InsertIgnored(begin, key, row).Refused? { return RolledBack; }
      ignored := ignored[key := row];
      v := Committed;
    }

    method Complete(g: Grant, expected: int, final: Option<(string, string)>) returns (v: Verdict)
      modifies this
      ensures Closes(DoComplete(old(Snapshot()), g, expected, final), v, old(Snapshot()), Snapshot())
    {
      var begin := Snapshot();
      if !HoldsLease(begin, g) || !NoPendingEffects(begin, g.job) { return ErrorRaised; }
      if final.None? && jobs[g.job].checkpointVersion != expected { return ErrorRaised; }
      CompleteOutcome(begin, g, expected, final);
      if final.Some? {
        v := Append(g, expected, final.value.0, final.value.1);
        if v != Committed {
          Rollback(begin);
          return;
        }
      }
      SavedFinishing(begin, g, expected, final);
      var ok := Depart(g.job, SucceededLease, None, Detached(jobs[g.job], Succeeded, Some(g.token), None, Some(now)));
      if !ok {
        Rollback(begin);
        return RolledBack;
      }
      v := Committed;
    }

    /** The release shared by the two failure transactions; the caller rolls back. */
    method GiveUp(g: Grant, code: string, retryable: bool, jitter: nat) returns (v: Verdict)
      requires HoldsLease(Snapshot(), g)
      modifies this
      ensures match ReleaseFailed(old(Snapshot()), g, code, retryable, jitter)
              case Done(db) => v == Committed && Snapshot() == db
              case Raised => v == ErrorRaised
              case Refused => v == RolledBack
    {
      var job := jobs[g.job];
      var ok;
      if CanRetry(job, retryable) {
        if !(1 <= job.attemptCount && 0 < job.spec.retryBase <= job.spec.retryMax) { return ErrorRaised; }
        ok := Depart(g.job, RetryLease, Some(code), Detached(job, Queued, Some(g.token), Some(code), None)
                     .(availableAt := now + RetryDelay(job.spec, job.attemptCount, jitter)));
      } else {
        ok := Depart(g.job, FailedLease, Some(code), Detached(job, Failed, Some(g.token), Some(code), Some(now)));
      }
      v := if ok then Committed else RolledBack;
    }

    method FailAttempt(g: Grant, code: string, retryable: bool, jitter: nat) returns (v: Verdict)
      modifies this
      ensures Closes(DoFail(old(Snapshot()), g, code, retryable, jitter), v, old(Snapshot()), Snapshot())
    {
      var begin := Snapshot();
      if !HoldsLease(begin, g) { return ErrorRaised; }
      v := GiveUp(g, code, retryable, jitter);
      if v != Committed { Rollback(begin); }
    }

    method FailDependency(g: Grant, code: string, jitter: nat) returns (v: Verdict)
      modifies this
      ensures Closes(DoFailDependency(old(Snapshot()), g, code, jitter), v, old(Snapshot()), Snapshot())
    {
      var begin := Snapshot();
      if !HoldsLease(begin, g) { return ErrorRaised; }
      var attempt := leases[g.lease].attempt;
      var row := Outage(g.lease, g.token, code, !CanRetry(jobs[g.job], true));
      v := GiveUp(g, code, true, jitter);
      if v == Committed && !OutageGuard(Snapshot(), g.job, attempt, row) { v := RolledBack; }
      if v == Committed {
        outages := outages[(g.job, attempt) := row];
      } else {
        Rollback(begin);
      }
    }

    method PauseAttempt(g: Grant, code: string) returns (v: Verdict)
      modifies this
      ensures Closes(DoPause(old(Snapshot()), g, code), v, old(Snapshot()), Snapshot())
    {
      var begin := Snapshot();
      if !HoldsLease(begin, g) { return ErrorRaised; }
      var job := jobs[g.job];
      var attempts := if 0 < job.attemptCount then job.attemptCount - 1 else 0;
      var ok := Depart(g.job, RetryLease, None, Detached(job, Queued, Some(g.token), Some(code), job.completedAt)
                       .(attemptCount := attempts, availableAt := now));
      if !ok {
        Rollback(begin);
        return RolledBack;
      }
      v := Committed;
    }

    method TransitionTask(g: Grant, event: Id) returns (v: Verdict)
      modifies this
      ensures Closes(DoTransition(old(Snapshot()), g, event), v, old(Snapshot()), Snapshot())
    {
      var begin := Snapshot();
      if !HoldsLease(begin, g) || !NoPendingEffects(begin, g.job) { return ErrorRaised; }
      if event in transitions {
        return if transitions[event].job == g.job && transitions[event].task == g.task then Committed else ErrorRaised;
      }
      var row := TaskTransition(g.job, g.lease, g.token, g.task, jobs[g.job].spec.scope);
      if InsertTransition(begin, event, row).Refused? { return RolledBack; }
      transitions := transitions[event := row];
      v := Committed;
    }

    /** One job of a cancelled task; the caller rolls back. */
    method CancelOne(id: Id) returns (v: Verdict)
      requires id in jobs
      modifies this
      ensures match CancelJob(old(Snapshot()), id)
              case Done(db) => v == Committed && Snapshot() == db
              case Raised => v == ErrorRaised
              case Refused => v == RolledBack
    {
      var job := jobs[id];
      var requested := if job.cancelRequestedAt.Some? then job.cancelRequestedAt else Some(now);
      var marked := job.(cancelRequestedAt := requested);
      var closed := Detached(marked, Cancelled, job.lastToken, Some("CANCELLATION_REQUESTED"), Some(now));
      var ok := true;
      if job.status.Queued? {
        ok := PutJob(id, closed);
      } else if job.status.Running? {
        if marked != job { ok := PutJob(id, marked); }
        if ok {
          if !HasCurrentLease(Snapshot(), marked, id) || leases[job.currentLease.value].releasedAt.Some? { return ErrorRaised; }
          ok := Depart(id, CancelledLease, Some("CANCELLATION_REQUESTED"), closed);
        }
      }
      v := if ok then Committed else RolledBack;
    }

    method CancelTask(task: Id, order: seq<Id>) returns (v: Verdict)
      modifies this
      ensures Closes(DoCancel(old(Snapshot()), task, order), v, old(Snapshot()), Snapshot())
    {
      var begin := Snapshot();
      if !ListsJobsOf(begin, task, order) { return ErrorRaised; }
      var i := 0;
      while i < |order|
        invariant 0 <= i <= |order|
        invariant CancelJobs(begin, order) == CancelJobs(Snapshot(), order[i..])
      {
        assert order[i..][0] == order[i] && order[i..][1..] == order[i + 1..];
        if order[i] !in jobs {
          Rollback(begin);
          return ErrorRaised;
        }
        v := CancelOne(order[i]);
        if v != Committed {
          Rollback(begin);
          return;
        }
        i := i + 1;
      }
      v := Committed;
    }
  }
}
