/** What each transaction under a held lease, and each cancellation, comes to, column by column. */
module JobProgress {
  import opened Basics
  import opened Wrappers
  import opened JobTables
  import opened JobService
  import opened JobInvariant
  import opened JobGuards
  import opened JobOutcomes

  /** A heartbeat reaches the later of the old expiry and the new one, on both rows; it is refused
      when it would extend the lease again in the instant of the last heartbeat. */
  lemma HeartbeatOutcome(db: Db, g: Grant, duration: int)
    requires Inv(db) && Current(db, g)
    ensures var r := Execute(db, Heartbeat(g, duration));
            var lease := db.leases[g.lease];
            var later := if lease.expiresAt < db.now + duration then db.now + duration else lease.expiresAt;
            if !(SECOND <= duration <= 300 * SECOND) then r == Raised
            else if lease.heartbeatAt == db.now && lease.expiresAt < later then r == Refused
            else r == Done(db.(leases := db.leases[g.lease := lease.(heartbeatAt := db.now, expiresAt := later)],
                               jobs := db.jobs[g.job := db.jobs[g.job].(leaseExpiresAt := Some(later))]))
  {
    HeldExactly(db, g);
    HeartbeatVerdict(db, g, duration);
    if DoHeartbeat(db, g, duration).Done? { HeartbeatWrites(db, g, duration); }
  }

  // ----- checkpoints

  ghost predicate CheckpointKey(db: Db, key: string) {
    exists k :: k in db.checkpoints && db.checkpoints[k].key == key
  }

  /** The next version of the job, in all three tables. */
  ghost function Advanced(db: Db, g: Grant, version: int, key: string, payload: string): Db
    requires g.job in db.jobs && g.lease in db.leases
  {
    db.(checkpoints := db.checkpoints[(g.job, version) := Checkpoint(g.lease, g.token, key, payload, db.jobs[g.job].spec.scope)],
        jobs := db.jobs[g.job := db.jobs[g.job].(checkpointVersion := version)],
        leases := db.leases[g.lease := db.leases[g.lease].(checkpointVersion := version)])
  }

  /** A new key needs the expected version and advances it by one; a key that is taken only repeats the
      very checkpoint it stands for. */
  ghost predicate AppendedAs(db: Db, r: Outcome<Db>, g: Grant, expected: int, key: string, payload: string)
    requires g.job in db.jobs && g.lease in db.leases
  {
    var k := (g.job, expected + 1);
    if CheckpointKey(db, key) then
      r == if k in db.checkpoints && db.checkpoints[k].key == key && db.checkpoints[k].payload == payload then Done(db) else Raised
    else
      r == if db.jobs[g.job].checkpointVersion == expected then Done(Advanced(db, g, expected + 1, key, payload)) else Raised
  }

  lemma AppendsAs(db: Db, g: Grant, expected: int, key: string, payload: string)
    requires Inv(db) && HoldsLease(db, g)
    ensures AppendedAs(db, AppendCheckpoint(db, g, expected, key, payload), g, expected, key, payload)
  {
    AppendPasses(db, g, expected, key, payload);
    assert CheckpointKey(db, key) <==> exists k <- db.checkpoints :: db.checkpoints[k].key == key;
    if AppendCheckpoint(db, g, expected, key, payload).Done? { AppendWrites(db, g, expected, key, payload); }
    if !CheckpointKey(db, key) && db.jobs[g.job].checkpointVersion == expected { NotRaised(db, g, expected, key, payload); }
  }

  lemma NotRaised(db: Db, g: Grant, expected: int, key: string, payload: string)
    requires Inv(db) && HoldsLease(db, g) && db.jobs[g.job].checkpointVersion == expected && !CheckpointKey(db, key)
    ensures AppendCheckpoint(db, g, expected, key, payload) == Done(Advanced(db, g, expected + 1, key, payload))
  {
    AppendPasses(db, g, expected, key, payload);
    if AppendCheckpoint(db, g, expected, key, payload).Done? {
      AppendWrites(db, g, expected, key, payload);
      CheckpointsWithin(db, g.job);
    }
  }

  lemma CheckpointOutcome(db: Db, g: Grant, expected: int, key: string, payload: string)
    requires Inv(db) && Current(db, g)
    ensures AppendedAs(db, Execute(db, SaveCheckpoint(g, expected, key, payload)), g, expected, key, payload)
  {
    HeldExactly(db, g);
    AppendsAs(db, g, expected, key, payload);
  }

  // ----- effects

  ghost predicate EffectKey(db: Db, key: string) {
    exists e :: e in db.effects && db.effects[e].key == key
  }

  /** The effect with the key belongs to the job and asks for the same. */
  ghost predicate SameRequest(db: Db, g: Grant, key: string, kind: string, request: string) {
    exists e :: e in db.effects && db.effects[e].key == key && db.effects[e].job == g.job
      && db.effects[e].kind == kind && db.effects[e].request == request
  }

  /** Some effect of the job waits for its result, under another key. */
  ghost predicate OtherWaits(db: Db, g: Grant, key: string) {
    exists e :: e in db.effects && db.effects[e].job == g.job && db.effects[e].status == Pending && db.effects[e].key != key
  }

  /** An effect starts, pending and under the granted lease, exactly when no other waits and its key is new;
      asking for the same again changes nothing. */
  lemma PrepareEffectOutcome(db: Db, g: Grant, id: Id, key: string, kind: string, request: string)
    requires Inv(db) && Current(db, g) && id !in db.effects
    ensures var r := Execute(db, PrepareEffect(g, id, key, kind, request));
            if OtherWaits(db, g, key) then r == Raised
            else if EffectKey(db, key) then r == if SameRequest(db, g, key, kind, request) then Done(db) else Raised
            else r == Done(db.(effects := db.effects[id := Effect(
              g.job, kind, key, request, Pending, g.lease, g.token, None, None, None, db.jobs[g.job].spec.scope)]))
  {
    HeldExactly(db, g);
    PrepareEffectPasses(db, g, id, key, kind, request);
    assert OtherWaits(db, g, key) <==> exists e <- db.effects :: PendingEffect(db, g.job, e) && db.effects[e].key != key;
    assert EffectKey(db, key) <==> exists e <- db.effects :: db.effects[e].key == key;
    assert SameRequest(db, g, key, kind, request)
      <==> exists e <- db.effects :: db.effects[e].key == key && db.effects[e].job == g.job
                                     && db.effects[e].kind == kind && db.effects[e].request == request;
  }

  /** A pending effect gets its result under the granted lease, and the checkpoint with it or neither;
      a finished one only repeats its own result. */
  lemma RecordEffectOutcome(db: Db, g: Grant, id: Id, ok: bool, result: string, expected: int, key: string, payload: string)
    requires Inv(db) && Current(db, g)
    ensures var r := Execute(db, RecordEffect(g, id, ok, result, expected, key, payload));
            var status := if ok then EffectSucceeded else EffectFailed;
            if id !in db.effects || db.effects[id].job != g.job then r == Raised
            else if db.effects[id].status == Pending then
              AppendedAs(db.(effects := db.effects[id := db.effects[id].(
                           status := status, completionLease := Some(g.lease), completionToken := Some(g.token), result := Some(result))]),
                         r, g, expected, key, payload)
            else if db.effects[id].status == status && db.effects[id].result == Some(result) then
              AppendedAs(db, r, g, expected, key, payload)
            else r == Raised
  {
    HeldExactly(db, g);
    if id in db.effects && db.effects[id].job == g.job {
      if db.effects[id].status.Pending? {
        FinishedKeeps(db, g, id, ok, result);
        AppendsAs(Finished(db, g, id, ok, result), g, expected, key, payload);
        RecordsPending(db, g, id, ok, result, expected, key, payload);
      } else {
        AppendsAs(db, g, expected, key, payload);
      }
    }
  }

  lemma RecordsPending(db: Db, g: Grant, id: Id, ok: bool, result: string, expected: int, key: string, payload: string)
    requires HoldsLease(db, g) && PendingEffect(db, g.job, id)
    ensures DoRecordEffect(db, g, id, ok, result, expected, key, payload)
            == AppendCheckpoint(Finished(db, g, id, ok, result), g, expected, key, payload)
  {
  }

  /** A late result is kept, once, for a lease of the job that is not current any more. */
  lemma IgnoreOutcome(db: Db, g: Grant, key: string, effect: Option<Id>)
    requires Inv(db)
    ensures var r := Execute(db, RecordIgnored(g, key, effect));
            var known := g.job in db.jobs && g.lease in db.leases && db.jobs[g.job].spec.task == Some(g.task)
                         && db.leases[g.lease].job == g.job && db.leases[g.lease].owner == g.worker
                         && db.leases[g.lease].attempt == g.attempt && db.leases[g.lease].token == g.token
                         && (effect == None || (effect.value in db.effects && db.effects[effect.value].job == g.job));
            if !known || Current(db, g) then r == Raised
            else if key !in db.ignored then r == Done(db.(ignored := db.ignored[key := IgnoredResult(g.job, g.lease, g.token, effect, db.now)]))
            else r == if db.ignored[key].job == g.job && db.ignored[key].lease == g.lease && db.ignored[key].token == g.token
                         && db.ignored[key].effect == effect then Done(db) else Raised
  {
    HeldExactly(db, g);
    IgnorePasses(db, g, key, effect);
  }

  /** Some effect of the job waits for its result. */
  ghost predicate Waiting(db: Db, job: Id) {
    exists e :: e in db.effects && db.effects[e].job == job && db.effects[e].status == Pending
  }

  lemma WaitingIs(db: Db, job: Id)
    ensures NoPendingEffects(db, job) <==> !Waiting(db, job)
  {
    if Waiting(db, job) {
      var e :| e in db.effects && db.effects[e].job == job && db.effects[e].status == Pending;
      assert PendingEffect(db, job, e);
    }
  }

  /** An event is linked to the granted lease once, while no effect waits. */
  lemma TransitionOutcome(db: Db, g: Grant, event: Id)
    requires Inv(db) && Current(db, g)
    ensures var r := Execute(db, TransitionTask(g, event));
            if Waiting(db, g.job) then r == Raised
            else if event in db.transitions then
              r == if db.transitions[event].job == g.job && db.transitions[event].task == g.task then Done(db) else Raised
            else r == Done(db.(transitions := db.transitions[event := TaskTransition(g.job, g.lease, g.token, g.task, db.jobs[g.job].spec.scope)]))
  {
    HeldExactly(db, g);
    TransitionPasses(db, g, event);
    WaitingIs(db, g.job);
  }

  // ----- completing

  ghost predicate SucceededAs(db: Db, db': Db, g: Grant)
    requires g.job in db.jobs && g.lease in db.leases
  {
    db' == db.(leases := db.leases[g.lease := db.leases[g.lease].(releasedAt := Some(db.now), releaseReason := Some(SucceededLease))],
               jobs := db.jobs[g.job := Unpointed(db.jobs[g.job]).(
                 status := Succeeded, lastToken := Some(g.token), lastError := None, completedAt := Some(db.now))])
  }

  lemma Succeeds(db: Db, g: Grant)
    requires Inv(db) && HoldsLease(db, g)
    ensures var r := Leave(db, g.job, SucceededLease, None, Detached(db.jobs[g.job], Succeeded, Some(g.token), None, Some(db.now)));
            r.Done? && SucceededAs(db, r.value, g)
  {
    SucceedPasses(db, g);
    LeaveWrites(db, g.job, SucceededLease, None, Detached(db.jobs[g.job], Succeeded, Some(g.token), None, Some(db.now)));
  }

  lemma CompletesNow(db: Db, g: Grant, expected: int)
    requires Inv(db) && HoldsLease(db, g) && NoPendingEffects(db, g.job)
    ensures var r := DoComplete(db, g, expected, None);
            if db.jobs[g.job].checkpointVersion == expected then r.Done? && SucceededAs(db, r.value, g) else r == Raised
  {
    Succeeds(db, g);
  }

  /** The checkpoint is appended, then the job succeeds; or neither. */
  ghost predicate SavedAndSucceeded(db: Db, saved: Outcome<Db>, r: Outcome<Db>, g: Grant, expected: int, key: string, payload: string)
    requires g.job in db.jobs && g.lease in db.leases
  {
    && AppendedAs(db, saved, g, expected, key, payload)
    && if saved.Done? then g.job in saved.value.jobs && g.lease in saved.value.leases && r.Done? && SucceededAs(saved.value, r.value, g)
       else r == saved
  }

  lemma CompletesFrom(db: Db, g: Grant, expected: int, key: string, payload: string, saved: Db)
    requires HoldsLease(db, g) && NoPendingEffects(db, g.job) && AppendCheckpoint(db, g, expected, key, payload) == Done(saved)
    requires Inv(saved) && HoldsLease(saved, g) && saved.now == db.now
    ensures var r := DoComplete(db, g, expected, Some((key, payload)));
            r.Done? && SucceededAs(saved, r.value, g)
  {
    Succeeds(saved, g);
  }

  lemma CompletesAfter(db: Db, g: Grant, expected: int, key: string, payload: string)
    requires Inv(db) && HoldsLease(db, g) && NoPendingEffects(db, g.job)
    ensures SavedAndSucceeded(db, AppendCheckpoint(db, g, expected, key, payload),
                              DoComplete(db, g, expected, Some((key, payload))), g, expected, key, payload)
  {
    AppendsAs(db, g, expected, key, payload);
    if AppendCheckpoint(db, g, expected, key, payload).Done? {
      AppendKeeps(db, g, expected, key, payload);
      AppendWrites(db, g, expected, key, payload);
      CompletesFrom(db, g, expected, key, payload, AppendCheckpoint(db, g, expected, key, payload).value);
    }
  }

  /** A job succeeds, with its lease released, when no effect waits and the version is the expected one,
      after the final checkpoint if there is one. */
  lemma CompleteOutcome(db: Db, g: Grant, expected: int, final: Option<(string, string)>)
    requires Inv(db) && Current(db, g)
    ensures var r := Execute(db, Complete(g, expected, final));
            if Waiting(db, g.job) then r == Raised
            else if final.Some? then exists saved :: SavedAndSucceeded(db, saved, r, g, expected, final.value.0, final.value.1)
            else if db.jobs[g.job].checkpointVersion == expected then r.Done? && SucceededAs(db, r.value, g)
            else r == Raised
  {
    HeldExactly(db, g);
    WaitingIs(db, g.job);
    if NoPendingEffects(db, g.job) {
      if final.None? {
        CompletesNow(db, g, expected);
      } else {
        var (key, payload) := final.value;
        CompletesAfter(db, g, expected, key, payload);
        assert final == Some((key, payload));
        assert SavedAndSucceeded(db, AppendCheckpoint(db, g, expected, key, payload), Execute(db, Complete(g, expected, final)),
                                 g, expected, key, payload);
      }
    }
  }

  // ----- cancelling

  /** What cancellation makes of a job. */
  function CancelledJob(job: Job, now: int): Job {
    if job.status != Queued && job.status != Running then job
    else Unpointed(job).(status := Cancelled, lastError := Some("CANCELLATION_REQUESTED"), completedAt := Some(now),
                         cancelRequestedAt := if job.cancelRequestedAt.Some? then job.cancelRequestedAt else Some(now))
  }

  /** The jobs named are cancelled, and the leases they pointed at released; nothing else changes. */
  ghost predicate CancelledAs(db: Db, db': Db, order: seq<Id>) {
    && db' == db.(jobs := db'.jobs, leases := db'.leases)
    && db'.jobs.Keys == db.jobs.Keys && db'.leases.Keys == db.leases.Keys
    && (forall j <- db.jobs :: db'.jobs[j] == if j in order then CancelledJob(db.jobs[j], db.now) else db.jobs[j])
    && (forall l <- db.leases :: db'.leases[l] ==
          if PointsAt(db, order, l)
          then db.leases[l].(releasedAt := Some(db.now), releaseReason := Some(CancelledLease), failureCode := Some("CANCELLATION_REQUESTED"))
          else db.leases[l])
  }

  ghost predicate PointsAt(db: Db, order: seq<Id>, l: Id) {
    exists j: Id :: j in order && j in db.jobs && db.jobs[j].currentLease == Some(l)
  }

  lemma CancelsQueued(db: Db, id: Id)
    requires id in db.jobs && db.jobs[id].currentLease.None? && !db.jobs[id].status.Running? && CancelJob(db, id).Done?
    requires LeaseColumnsShape(db.jobs[id])
    ensures CancelledAs(db, CancelJob(db, id).value, [id])
  {
    CancelJobWrites(db, id);
    assert forall l :: !PointsAt(db, [id], l);
  }

  lemma CancelsRunning(db: Db, id: Id)
    requires id in db.jobs && db.jobs[id].status.Running? && CancelJob(db, id).Done?
    requires ProjectsLease(db, id, db.jobs[id]) && db.jobs[id].lastToken == db.jobs[id].currentToken
    ensures CancelledAs(db, CancelJob(db, id).value, [id])
  {
    var job := db.jobs[id];
    CancelJobWrites(db, id);
    var flushed := db.(jobs := db.jobs[id := Marked(job, db.now)]);
    LeaveWrites(flushed, id, CancelledLease, Some("CANCELLATION_REQUESTED"), Closed(job, db.now));
    forall l: Id ensures PointsAt(db, [id], l) <==> job.currentLease == Some(l) {
      if job.currentLease == Some(l) { assert id in [id]; }
    }
  }

  lemma CancelsOne(db: Db, id: Id)
    requires Inv(db) && id in db.jobs && CancelJob(db, id).Done?
    ensures CancelledAs(db, CancelJob(db, id).value, [id])
  {
    assert JobOk(db, id);
    if db.jobs[id].status.Running? { CancelsRunning(db, id); } else { CancelsQueued(db, id); }
  }

  lemma PointsAtCons(db: Db, next: Db, first: Id, rest: seq<Id>, l: Id)
    requires first !in rest && CancelledAs(db, next, [first])
    ensures PointsAt(db, [first] + rest, l) <==> PointsAt(db, [first], l) || PointsAt(next, rest, l)
  {
    if PointsAt(db, [first] + rest, l) {
      var j :| j in [first] + rest && j in db.jobs && db.jobs[j].currentLease == Some(l);
      if j != first { assert j in rest && next.jobs[j] == db.jobs[j]; } else { assert j in [first]; }
    }
    if PointsAt(db, [first], l) {
      var j :| j in [first] && j in db.jobs && db.jobs[j].currentLease == Some(l);
      assert j in [first] + rest;
    }
    if PointsAt(next, rest, l) {
      var j :| j in rest && j in next.jobs && next.jobs[j].currentLease == Some(l);
      assert j in [first] + rest && next.jobs[j] == db.jobs[j];
    }
  }

  lemma CancelsMore(db: Db, next: Db, last: Db, first: Id, rest: seq<Id>)
    requires first in db.jobs && first !in rest && CancelledAs(db, next, [first]) && CancelledAs(next, last, rest)
    ensures CancelledAs(db, last, [first] + rest)
  {
    forall l <- db.leases
      ensures last.leases[l] == if PointsAt(db, [first] + rest, l)
                                then db.leases[l].(releasedAt := Some(db.now), releaseReason := Some(CancelledLease), failureCode := Some("CANCELLATION_REQUESTED"))
                                else db.leases[l]
    {
      PointsAtCons(db, next, first, rest, l);
      assert next.leases[l] == if PointsAt(db, [first], l)
                               then db.leases[l].(releasedAt := Some(db.now), releaseReason := Some(CancelledLease), failureCode := Some("CANCELLATION_REQUESTED"))
                               else db.leases[l];
      assert last.leases[l] == if PointsAt(next, rest, l)
                               then next.leases[l].(releasedAt := Some(db.now), releaseReason := Some(CancelledLease), failureCode := Some("CANCELLATION_REQUESTED"))
                               else next.leases[l];
    }
    forall j <- db.jobs ensures last.jobs[j] == if j in [first] + rest then CancelledJob(db.jobs[j], db.now) else db.jobs[j] {
      assert next.jobs[j] == if j in [first] then CancelledJob(db.jobs[j], db.now) else db.jobs[j];
    }
  }

  lemma {:induction false} CancelsAll(db: Db, order: seq<Id>)
    requires Inv(db) && CancelJobs(db, order).Done?
    requires forall i, j :: 0 <= i < j < |order| ==> order[i] != order[j]
    ensures CancelledAs(db, CancelJobs(db, order).value, order)
    decreases |order|
  {
    if order == [] {
      CancelsNone(db);
    } else {
      var first, rest := order[0], order[1..];
      assert order == [first] + rest;
      CancelJobKeeps(db, first);
      CancelsOne(db, first);
      CancelsAll(CancelJob(db, first).value, rest);
      CancelsMore(db, CancelJob(db, first).value, CancelJobs(db, order).value, first, rest);
    }
  }

  lemma CancelsNone(db: Db)
    ensures CancelledAs(db, db, [])
  {
    assert forall l :: !PointsAt(db, [], l);
  }

  ghost predicate Stops(db: Db, task: Id, j: Id) {
    && j in db.jobs && db.jobs[j].spec.task == Some(task) && db.jobs[j].cancelRequestedAt == None && Lapsed(db, j)
  }

  lemma StopsIs(db: Db, task: Id, j: Id)
    requires Inv(db)
    ensures Stops(db, task, j) <==> j in db.jobs && db.jobs[j].spec.task == Some(task) && CancelBlocked(db, j)
  {
    if j in db.jobs { assert JobOk(db, j); }
  }

  /** order lists every job of the task, each once. */
  ghost predicate AllOf(db: Db, task: Id, order: seq<Id>) {
    && (forall i, j :: 0 <= i < j < |order| ==> order[i] != order[j])
    && (forall j: Id :: j in order <==> j in db.jobs && db.jobs[j].spec.task == Some(task))
  }

  lemma SomeStops(db: Db, task: Id, order: seq<Id>)
    requires Inv(db) && AllOf(db, task, order)
    ensures (exists j: Id :: Stops(db, task, j)) <==> exists i :: 0 <= i < |order| && CancelBlocked(db, order[i])
  {
    if j: Id :| Stops(db, task, j) {
      StopsIs(db, task, j);
      var i :| 0 <= i < |order| && order[i] == j;
      assert CancelBlocked(db, order[i]);
    }
    if i :| 0 <= i < |order| && CancelBlocked(db, order[i]) {
      assert order[i] in order;
      StopsIs(db, task, order[i]);
    }
  }

  lemma {:induction false} CancelRuns(db: Db, task: Id, order: seq<Id>)
    requires AllOf(db, task, order)
    ensures Execute(db, CancelTask(task, order)) == CancelJobs(db, order)
  {
    forall i | 0 <= i < |order| ensures order[i] in db.jobs && db.jobs[order[i]].spec.task == Some(task) { assert order[i] in order; }
    assert ListsJobsOf(db, task, order);
  }

  /** The task's jobs are all cancelled in one transaction, except that an unmarked running job whose lease
      expired stops it. */
  lemma CancelOutcome(db: Db, task: Id, order: seq<Id>)
    requires Inv(db) && AllOf(db, task, order)
    ensures var r := Execute(db, CancelTask(task, order));
            if exists j: Id :: Stops(db, task, j) then r == Refused else r.Done? && CancelledAs(db, r.value, order)
  {
    CancelRuns(db, task, order);
    SomeStops(db, task, order);
    forall i | 0 <= i < |order| ensures order[i] in db.jobs { assert order[i] in order; }
    CancelJobsVerdict(db, order);
    if CancelJobs(db, order).Done? { CancelsAll(db, order); }
  }
}
