/** What every committed transaction of the background-job service keeps. */
module JobInvariant {
  import opened Wrappers
  import opened JobTables
  import opened JobService

  ghost predicate LeaseOk(db: Db, l: Id)
    requires l in db.leases
  {
    var lease := db.leases[l];
    && lease.job in db.jobs
    && var job := db.jobs[lease.job];
    && 0 < lease.token < db.nextToken
    && (lease.protocol == 0 || (lease.protocol == 1 && job.lastToken.Some?))
    && (job.lastToken.Some? ==> lease.token <= job.lastToken.value)
    && 1 <= lease.attempt <= job.attemptCount
    && lease.scope == job.spec.scope
    && lease.createdAt <= lease.heartbeatAt <= db.now && lease.heartbeatAt < lease.expiresAt
    && (lease.releasedAt.Some? <==> lease.releaseReason.Some?)
    && (lease.releasedAt.Some? ==> lease.createdAt <= lease.releasedAt.value <= db.now)
    && (if lease.protocol == 0 then job.currentLease != Some(l)
        else lease.releasedAt.None? ==> job.currentLease == Some(l))
  }

  /** Two leases: distinct tokens, and for one job distinct attempts, the later of which has the
      greater token and was created after the earlier was released. */
  ghost predicate PairOk(db: Db, l: Id, m: Id)
    requires l in db.leases && m in db.leases
  {
    var a, b := db.leases[l], db.leases[m];
    && (l != m ==> a.token != b.token)
    && (l != m && a.job == b.job ==> a.attempt != b.attempt)
    && (a.job == b.job && a.attempt < b.attempt ==>
          && a.token < b.token
          && (a.protocol == 1 ==> a.releasedAt.Some? && a.releasedAt.value <= b.createdAt))
  }

  ghost predicate JobOk(db: Db, j: Id)
    requires j in db.jobs
  {
    var job := db.jobs[j];
    && JobShape(job) && (job.spec.task.Some? || Terminal(job.status))
    && (job.lastToken.Some? ==> job.lastToken.value < db.nextToken)
    && (job.status.Running? ==>
          ProjectsLease(db, j, job) && db.leases[job.currentLease.value].attempt == job.attemptCount
          && job.lastToken == job.currentToken)
  }

  ghost predicate IsAttempt(db: Db, l: Id, j: Id, a: int) {
    l in db.leases && db.leases[l].job == j && db.leases[l].attempt == a
  }

  ghost predicate HasAttempt(db: Db, j: Id, a: int) {
    exists l :: IsAttempt(db, l, j, a)
  }

  /** Every attempt counted on a job has its lease. */
  ghost predicate AttemptsDense(db: Db) {
    forall j, a :: j in db.jobs && 1 <= a <= db.jobs[j].attemptCount ==> HasAttempt(db, j, a)
  }

  ghost predicate LeasesOk(db: Db) {
    && 0 < db.nextToken
    && (forall l <- db.leases :: LeaseOk(db, l))
    && (forall l, m :: l in db.leases && m in db.leases ==> PairOk(db, l, m))
    && (forall j <- db.jobs :: JobOk(db, j))
    && AttemptsDense(db)
  }

  /** A row that names a lease names its job and its token. */
  ghost predicate UnderLease(db: Db, j: Id, l: Id, token: int) {
    j in db.jobs && l in db.leases && db.leases[l].job == j && db.leases[l].token == token
  }

  ghost predicate CheckpointsOk(db: Db) {
    && (forall k <- db.checkpoints ::
          && UnderLease(db, k.0, db.checkpoints[k].lease, db.checkpoints[k].token)
          && 1 <= k.1 <= db.jobs[k.0].checkpointVersion)
    && (forall j, n :: j in db.jobs && 1 <= n <= db.jobs[j].checkpointVersion ==> (j, n) in db.checkpoints)
    && (forall k, m :: k in db.checkpoints && m in db.checkpoints && k.0 == m.0 && k.1 < m.1 ==>
          db.checkpoints[k].token <= db.checkpoints[m].token)
  }

  ghost predicate EffectOk(db: Db, e: Id)
    requires e in db.effects
  {
    var effect := db.effects[e];
    && UnderLease(db, effect.job, effect.startedLease, effect.startedToken)
    && CompletionShape(effect)
    && (!effect.status.Pending? ==>
          && UnderLease(db, effect.job, effect.completionLease.value, effect.completionToken.value)
          && effect.startedToken <= effect.completionToken.value)
  }

  ghost predicate EffectsOk(db: Db) {
    && (forall e <- db.effects :: EffectOk(db, e))
    && (forall j, e, f :: PendingEffect(db, j, e) && PendingEffect(db, j, f) ==> e == f)
    && (forall j <- db.jobs :: db.jobs[j].status.Succeeded? ==> NoPendingEffects(db, j))
  }

  ghost predicate TransitionsOk(db: Db) {
    forall e <- db.transitions ::
      && UnderLease(db, db.transitions[e].job, db.transitions[e].lease, db.transitions[e].token)
      && db.jobs[db.transitions[e].job].spec.task == Some(db.transitions[e].task)
  }

  ghost predicate IgnoredOk(db: Db) {
    forall k <- db.ignored :: UnderLease(db, db.ignored[k].job, db.ignored[k].lease, db.ignored[k].token)
  }

  ghost predicate OutageOk(db: Db, k: (Id, int))
    requires k in db.outages
  {
    var row := db.outages[k];
    && UnderLease(db, k.0, row.lease, row.token)
    && var lease := db.leases[row.lease];
    var job := db.jobs[k.0];
    && lease.attempt == k.1 && lease.failureCode == Some(row.errorCode)
    && lease.releasedAt.Some?
    && lease.releaseReason == Some(if row.exhausted then FailedLease else RetryLease)
    && (row.exhausted ==> job.status.Failed? && k.1 == job.attemptCount == job.spec.maxAttempts)
  }

  ghost predicate OutagesOk(db: Db) {
    forall k <- db.outages :: OutageOk(db, k)
  }

  ghost predicate Inv(db: Db) {
    LeasesOk(db) && CheckpointsOk(db) && EffectsOk(db) && TransitionsOk(db) && IgnoredOk(db) && OutagesOk(db)
  }

  // ----- the shapes of a committed change

  /** The tables hung off jobs and leases keep their invariants when jobs and leases only move on. */
  ghost predicate MovesOn(db: Db, db': Db) {
    && db.now <= db'.now && db.nextToken <= db'.nextToken
    && (forall j <- db.jobs :: j in db'.jobs
          && db'.jobs[j].spec == db.jobs[j].spec
          && (db'.jobs[j].status.Succeeded? ==> db.jobs[j].status.Succeeded? || NoPendingEffects(db, j))
          && (Terminal(db.jobs[j].status) ==> db'.jobs[j] == db.jobs[j]))
    && (forall j <- db'.jobs :: j !in db.jobs ==> db'.jobs[j].checkpointVersion == 0 && !db'.jobs[j].status.Succeeded?)
    && (forall l <- db.leases :: l in db'.leases
          && db'.leases[l].job == db.leases[l].job && db'.leases[l].token == db.leases[l].token
          && db'.leases[l].attempt == db.leases[l].attempt
          && (db.leases[l].releasedAt.Some? ==> db'.leases[l] == db.leases[l]))
  }

  ghost predicate SameCheckpoints(db: Db, db': Db) {
    && db'.checkpoints == db.checkpoints
    && (forall j <- db.jobs :: j in db'.jobs && db'.jobs[j].checkpointVersion == db.jobs[j].checkpointVersion)
  }

  ghost predicate SameHistory(db: Db, db': Db) {
    && SameCheckpoints(db, db') && db'.effects == db.effects && db'.transitions == db.transitions
    && db'.ignored == db.ignored && db'.outages == db.outages
  }

  lemma CheckpointsKept(db: Db, db': Db)
    requires CheckpointsOk(db) && MovesOn(db, db') && SameCheckpoints(db, db')
    ensures CheckpointsOk(db')
  {
    forall k <- db'.checkpoints
      ensures UnderLease(db', k.0, db'.checkpoints[k].lease, db'.checkpoints[k].token)
      ensures 1 <= k.1 <= db'.jobs[k.0].checkpointVersion
    {
      assert UnderLease(db, k.0, db.checkpoints[k].lease, db.checkpoints[k].token);
    }
  }

  lemma EffectsKept(db: Db, db': Db)
    requires EffectsOk(db) && MovesOn(db, db') && db'.effects == db.effects
    ensures EffectsOk(db')
  {
    forall e <- db'.effects ensures EffectOk(db', e) { assert EffectOk(db, e); }
    forall j, e, f | PendingEffect(db', j, e) && PendingEffect(db', j, f) ensures e == f {
      assert PendingEffect(db, j, e) && PendingEffect(db, j, f);
    }
    forall j <- db'.jobs | db'.jobs[j].status.Succeeded? ensures NoPendingEffects(db', j) {
      assert NoPendingEffects(db, j);
      forall e <- db'.effects ensures !PendingEffect(db', j, e) { assert !PendingEffect(db, j, e); }
    }
  }

  lemma OutagesKept(db: Db, db': Db)
    requires OutagesOk(db) && MovesOn(db, db') && db'.outages == db.outages
    ensures OutagesOk(db')
  {
    forall k <- db'.outages ensures OutageOk(db', k) { assert OutageOk(db, k); }
  }

  lemma TransitionsKept(db: Db, db': Db)
    requires TransitionsOk(db) && MovesOn(db, db') && db'.transitions == db.transitions
    ensures TransitionsOk(db')
  {
    forall e <- db'.transitions
      ensures UnderLease(db', db'.transitions[e].job, db'.transitions[e].lease, db'.transitions[e].token)
      ensures db'.jobs[db'.transitions[e].job].spec.task == Some(db'.transitions[e].task)
    {
      assert UnderLease(db, db.transitions[e].job, db.transitions[e].lease, db.transitions[e].token);
    }
  }

  lemma IgnoredKept(db: Db, db': Db)
    requires IgnoredOk(db) && MovesOn(db, db') && db'.ignored == db.ignored
    ensures IgnoredOk(db')
  {
    forall k <- db'.ignored ensures UnderLease(db', db'.ignored[k].job, db'.ignored[k].lease, db'.ignored[k].token) {
      assert UnderLease(db, db.ignored[k].job, db.ignored[k].lease, db.ignored[k].token);
    }
  }

  lemma HistoryKept(db: Db, db': Db)
    requires Inv(db) && MovesOn(db, db') && SameHistory(db, db') && LeasesOk(db')
    ensures Inv(db')
  {
    CheckpointsKept(db, db');
    EffectsKept(db, db');
    OutagesKept(db, db');
    TransitionsKept(db, db');
    IgnoredKept(db, db');
  }

  lemma AttemptsKept(db: Db, db': Db)
    requires AttemptsDense(db)
    requires forall l <- db.leases :: l in db'.leases && db'.leases[l].job == db.leases[l].job
                                      && db'.leases[l].attempt == db.leases[l].attempt
    requires forall j <- db'.jobs :: if j in db.jobs then db'.jobs[j].attemptCount == db.jobs[j].attemptCount
                                     else db'.jobs[j].attemptCount == 0
    ensures AttemptsDense(db')
  {
    forall j, a | j in db'.jobs && 1 <= a <= db'.jobs[j].attemptCount ensures HasAttempt(db', j, a) {
      assert HasAttempt(db, j, a);
      var l :| IsAttempt(db, l, j, a);
      assert IsAttempt(db', l, j, a);
    }
  }

  lemma TickKeeps(db: Db, delta: nat)
    requires Inv(db)
    ensures Inv(db.(now := db.now + delta))
  {
    var db' := db.(now := db.now + delta);
    forall l, m | l in db'.leases && m in db'.leases ensures PairOk(db', l, m) { assert PairOk(db, l, m); }
    forall l <- db'.leases ensures LeaseOk(db', l) { assert LeaseOk(db, l); }
    forall j <- db'.jobs ensures JobOk(db', j) { assert JobOk(db, j); }
    AttemptsKept(db, db');
    HistoryKept(db, db');
  }

  lemma ScheduleKeeps(db: Db, id: Id, spec: JobSpec, availableAt: Option<int>, runnable: bool)
    requires Inv(db) && DoSchedule(db, id, spec, availableAt, runnable).Done?
    ensures Inv(DoSchedule(db, id, spec, availableAt, runnable).value)
  {
    var db' := DoSchedule(db, id, spec, availableAt, runnable).value;
    if db' != db {
      forall l, m | l in db'.leases && m in db'.leases ensures PairOk(db', l, m) { assert PairOk(db, l, m); }
      forall l <- db'.leases ensures LeaseOk(db', l) { assert LeaseOk(db, l); }
      forall j <- db'.jobs ensures JobOk(db', j) { if j != id { assert JobOk(db, j); } }
      AttemptsKept(db, db');
      HistoryKept(db, db');
    }
  }

  /** A lease with only its end changed: released now, for a reason. */
  function Ended(lease: Lease, now: int, reason: Reason, code: Option<string>): Lease {
    lease.(releasedAt := Some(now), releaseReason := Some(reason),
           failureCode := if code.Some? then code else lease.failureCode)
  }

  ghost function Left(db: Db, id: Id, reason: Reason, code: Option<string>, job: Job): Db
    requires id in db.jobs && db.jobs[id].currentLease.Some? && db.jobs[id].currentLease.value in db.leases
  {
    var current := db.jobs[id].currentLease.value;
    db.(leases := db.leases[current := Ended(db.leases[current], db.now, reason, code)], jobs := db.jobs[id := job])
  }

  lemma LeaveWrites(db: Db, id: Id, reason: Reason, code: Option<string>, job: Job)
    requires id in db.jobs && db.jobs[id].currentLease.Some? && db.jobs[id].currentLease.value in db.leases
    requires Leave(db, id, reason, code, job).Done?
    ensures Leave(db, id, reason, code, job).value == Left(db, id, reason, code, job)
    ensures LeaseColumnsShape(job) && StatusShape(job)
    ensures db.jobs[id].status.Running? && db.leases[db.jobs[id].currentLease.value].job in db.jobs
    ensures JobEdge(Release(db, db.jobs[id].currentLease.value, reason, code).value, id, db.jobs[id], job)
  {
  }

  lemma LeftLeases(db: Db, id: Id, reason: Reason, code: Option<string>, job: Job)
    requires LeasesOk(db) && id in db.jobs && db.jobs[id].status.Running?
    requires LeaseColumnsShape(job) && StatusShape(job)
    requires !job.status.Running? && job.spec == db.jobs[id].spec
    requires job.attemptCount == db.jobs[id].attemptCount && job.checkpointVersion == db.jobs[id].checkpointVersion
    requires job.lastToken == db.jobs[id].lastToken
    ensures JobOk(db, id) && LeasesOk(Left(db, id, reason, code, job))
  {
    assert JobOk(db, id);
    var current := db.jobs[id].currentLease.value;
    var db' := Left(db, id, reason, code, job);
    PairsKept(db, db', current);
    LeftRows(db, id, reason, code, job);
    forall j <- db'.jobs ensures JobOk(db', j) {
      assert JobOk(db, j);
      if j != id && db.jobs[j].status.Running? { assert db.jobs[j].currentLease.value != current; }
    }
    AttemptsKept(db, db');
  }

  lemma LeftRows(db: Db, id: Id, reason: Reason, code: Option<string>, job: Job)
    requires (forall l <- db.leases :: LeaseOk(db, l)) && id in db.jobs && db.jobs[id].status.Running? && JobOk(db, id)
    requires job.currentLease.None? && job.spec == db.jobs[id].spec
    requires job.attemptCount == db.jobs[id].attemptCount && job.lastToken == db.jobs[id].lastToken
    ensures var db' := Left(db, id, reason, code, job); forall l <- db'.leases :: LeaseOk(db', l)
  {
    var db' := Left(db, id, reason, code, job);
    forall l <- db'.leases ensures LeaseOk(db', l) { assert LeaseOk(db, l); }
  }

  /** A running job gives up its lease and its row moves to another status. */
  lemma LeftKeeps(db: Db, id: Id, reason: Reason, code: Option<string>, job: Job)
    requires Inv(db) && id in db.jobs && db.jobs[id].status.Running?
    requires LeaseColumnsShape(job) && StatusShape(job)
    requires !job.status.Running? && job.spec == db.jobs[id].spec
    requires job.attemptCount == db.jobs[id].attemptCount && job.checkpointVersion == db.jobs[id].checkpointVersion
    requires job.lastToken == db.jobs[id].lastToken
    requires job.status.Succeeded? ==> NoPendingEffects(db, id)
    ensures JobOk(db, id) && Inv(Left(db, id, reason, code, job))
  {
    LeftLeases(db, id, reason, code, job);
    assert ProjectsLease(db, id, db.jobs[id]);
    LeftMovesOn(db, id, reason, code, job);
    HistoryKept(db, Left(db, id, reason, code, job));
  }

  lemma LeftMovesOn(db: Db, id: Id, reason: Reason, code: Option<string>, job: Job)
    requires id in db.jobs && db.jobs[id].status.Running? && ProjectsLease(db, id, db.jobs[id])
    requires job.spec == db.jobs[id].spec && job.checkpointVersion == db.jobs[id].checkpointVersion
    requires job.status.Succeeded? ==> NoPendingEffects(db, id)
    ensures MovesOn(db, Left(db, id, reason, code, job)) && SameHistory(db, Left(db, id, reason, code, job))
  {
  }

  /** Only one lease changed, and it kept its identity and creation; if it was released it did not change. */
  lemma PairsKept(db: Db, db': Db, current: Id)
    requires forall l, m :: l in db.leases && m in db.leases ==> PairOk(db, l, m)
    requires current in db.leases && db'.leases.Keys == db.leases.Keys
    requires forall l <- db.leases :: l != current ==> db'.leases[l] == db.leases[l]
    requires var a, b := db.leases[current], db'.leases[current];
             b.job == a.job && b.attempt == a.attempt && b.token == a.token && b.createdAt == a.createdAt && b.protocol == a.protocol
    requires db.leases[current].releasedAt.Some? ==> db'.leases[current].releasedAt == db.leases[current].releasedAt
    ensures forall l, m :: l in db'.leases && m in db'.leases ==> PairOk(db', l, m)
  {
    forall l, m | l in db'.leases && m in db'.leases ensures PairOk(db', l, m) { assert PairOk(db, l, m); }
  }

  // ----- claims

  /** LeasesOk with job id between leases: everything it ever held is released. */
  ghost predicate BetweenLeases(db: Db, id: Id) {
    && 0 < db.nextToken
    && (forall l <- db.leases :: LeaseOk(db, l))
    && (forall l, m :: l in db.leases && m in db.leases ==> PairOk(db, l, m))
    && (forall j <- db.jobs :: j != id ==> JobOk(db, j))
    && AttemptsDense(db)
    && id in db.jobs && JobShape(db.jobs[id]) && db.jobs[id].spec.task.Some?
    && (forall l <- db.leases :: db.leases[l].job == id ==> db.leases[l].protocol == 0 || db.leases[l].releasedAt.Some?)
  }

  ghost function Superseded(db: Db, id: Id): Db
    requires id in db.jobs && (db.jobs[id].status.Running? ==> ProjectsLease(db, id, db.jobs[id]))
  {
    if !db.jobs[id].status.Running? then db
    else
      var current := db.jobs[id].currentLease.value;
      db.(leases := db.leases[current := Ended(db.leases[current], db.now, SupersededLease, None)])
  }

  lemma SupersededLeases(db: Db, id: Id)
    requires LeasesOk(db) && id in db.jobs && (db.jobs[id].status.Running? || db.jobs[id].status.Queued?)
    ensures JobOk(db, id) && BetweenLeases(Superseded(db, id), id)
  {
    assert JobOk(db, id);
    var db' := Superseded(db, id);
    if db.jobs[id].status.Running? { PairsKept(db, db', db.jobs[id].currentLease.value); }
    SupersededRows(db, id);
    forall j <- db'.jobs | j != id ensures JobOk(db', j) {
      assert JobOk(db, j);
    }
    AttemptsKept(db, db');
  }

  lemma SupersededRows(db: Db, id: Id)
    requires (forall l <- db.leases :: LeaseOk(db, l)) && id in db.jobs && JobOk(db, id)
    requires db.jobs[id].status.Running? || db.jobs[id].status.Queued?
    ensures var db' := Superseded(db, id);
            forall l <- db'.leases ::
              LeaseOk(db', l) && (db'.leases[l].job == id ==> db'.leases[l].protocol == 0 || db'.leases[l].releasedAt.Some?)
  {
    var db' := Superseded(db, id);
    forall l <- db'.leases
      ensures LeaseOk(db', l)
      ensures db'.leases[l].job == id ==> db'.leases[l].protocol == 0 || db'.leases[l].releasedAt.Some?
    {
      assert LeaseOk(db, l);
    }
  }

  ghost function Grabbed(db: Db, id: Id, lease: Id, row: Lease, job: Job): Db {
    db.(nextToken := db.nextToken + 1, leases := db.leases[lease := row], jobs := db.jobs[id := job])
  }

  ghost predicate IsClaim(db: Db, id: Id, lease: Id, row: Lease, job: Job) {
    && id in db.jobs && lease !in db.leases
    && row.job == id && row.token == db.nextToken && row.scope == db.jobs[id].spec.scope
    && row.attempt == db.jobs[id].attemptCount + 1
    && row.createdAt == row.heartbeatAt == db.now < row.expiresAt
    && row.releasedAt.None? && row.releaseReason.None? && row.protocol == 1
    && job == db.jobs[id].(status := Running, attemptCount := row.attempt, currentLease := Some(lease),
                           currentToken := Some(row.token), leaseOwner := Some(row.owner),
                           leaseExpiresAt := Some(row.expiresAt), lastToken := Some(row.token), lastError := None)
    && JobShape(job)
  }

  lemma GrabbedPairs(db: Db, id: Id, lease: Id, row: Lease, job: Job)
    requires BetweenLeases(db, id) && IsClaim(db, id, lease, row, job)
    ensures var db' := Grabbed(db, id, lease, row, job);
            forall l, m :: l in db'.leases && m in db'.leases ==> PairOk(db', l, m)
  {
    var db' := Grabbed(db, id, lease, row, job);
    forall l, m | l in db'.leases && m in db'.leases ensures PairOk(db', l, m) {
      if l != lease && m != lease { assert PairOk(db, l, m); }
      if l != lease { assert LeaseOk(db, l); }
      if m != lease { assert LeaseOk(db, m); }
    }
  }

  lemma GrabbedLeases(db: Db, id: Id, lease: Id, row: Lease, job: Job)
    requires BetweenLeases(db, id) && IsClaim(db, id, lease, row, job)
    ensures LeasesOk(Grabbed(db, id, lease, row, job))
  {
    var db' := Grabbed(db, id, lease, row, job);
    GrabbedPairs(db, id, lease, row, job);
    forall l <- db'.leases ensures LeaseOk(db', l) { if l != lease { assert LeaseOk(db, l); } }
    forall j <- db'.jobs ensures JobOk(db', j) { if j != id { assert JobOk(db, j); } }
    forall j, a | j in db'.jobs && 1 <= a <= db'.jobs[j].attemptCount ensures HasAttempt(db', j, a) {
      if j == id && a == row.attempt {
        assert IsAttempt(db', lease, j, a);
      } else {
        assert HasAttempt(db, j, a);
        var l :| IsAttempt(db, l, j, a);
        assert IsAttempt(db', l, j, a);
      }
    }
  }

  ghost function NewLease(db: Db, id: Id, worker: string, duration: int): Lease
    requires id in db.jobs
  {
    Lease(id, worker, db.jobs[id].attemptCount + 1, db.nextToken, db.jobs[id].spec.scope,
          db.now, db.now, db.now + duration, db.jobs[id].checkpointVersion, None, None, None, 1)
  }

  ghost function ClaimedJob(job: Job, lease: Id, row: Lease): Job {
    job.(status := Running, attemptCount := row.attempt, currentLease := Some(lease),
         currentToken := Some(row.token), leaseOwner := Some(row.owner),
         leaseExpiresAt := Some(row.expiresAt), lastToken := Some(row.token), lastError := None)
  }

  lemma GrabWrites(db: Db, id: Id, lease: Id, worker: string, duration: int)
    requires id in db.jobs && JobShape(db.jobs[id]) && ValidDuration(duration)
    requires Grab(db, id, lease, worker, duration).Done?
    ensures var row := NewLease(db, id, worker, duration);
            var job := ClaimedJob(db.jobs[id], lease, row);
            && Grab(db, id, lease, worker, duration).value == Grabbed(db, id, lease, row, job)
            && IsClaim(db, id, lease, row, job)
  {
  }

  /** A claim that is not the failing of a spent job. */
  lemma ClaimRowKeeps(db: Db, id: Id, lease: Id, worker: string, duration: int)
    requires Inv(db) && id in db.jobs && (db.jobs[id].status.Running? || db.jobs[id].status.Queued?)
    requires JobOk(db, id) && ValidDuration(duration) && Grab(Superseded(db, id), id, lease, worker, duration).Done?
    ensures Inv(Grab(Superseded(db, id), id, lease, worker, duration).value)
  {
    var freed := Superseded(db, id);
    SupersededLeases(db, id);
    GrabWrites(freed, id, lease, worker, duration);
    var row := NewLease(freed, id, worker, duration);
    var job := ClaimedJob(freed.jobs[id], lease, row);
    GrabbedLeases(freed, id, lease, row, job);
    var db' := Grabbed(freed, id, lease, row, job);
    ClaimedMovesOn(db, id, lease, row, job);
    HistoryKept(db, db');
  }

  lemma ClaimedMovesOn(db: Db, id: Id, lease: Id, row: Lease, job: Job)
    requires id in db.jobs && (db.jobs[id].status.Running? || db.jobs[id].status.Queued?)
    requires db.jobs[id].status.Running? ==> ProjectsLease(db, id, db.jobs[id])
    requires IsClaim(Superseded(db, id), id, lease, row, job)
    ensures MovesOn(db, Grabbed(Superseded(db, id), id, lease, row, job))
    ensures SameHistory(db, Grabbed(Superseded(db, id), id, lease, row, job))
  {
  }

  /** The row of a job whose expired lease was its last attempt. */
  ghost function SpentRow(db: Db, id: Id): Job
    requires id in db.jobs && ProjectsLease(db, id, db.jobs[id])
  {
    Detached(db.jobs[id], Failed, Some(db.leases[db.jobs[id].currentLease.value].token),
             Some("LEASE_EXPIRED_ATTEMPTS_EXHAUSTED"), Some(db.now))
  }

  lemma ClaimWrites(db: Db, id: Id, lease: Id, worker: string, duration: int)
    requires LeasesOk(db) && DoClaim(db, id, lease, worker, duration).Done?
    ensures id in db.jobs && (db.jobs[id].status.Running? || db.jobs[id].status.Queued?) && ValidDuration(duration) && JobOk(db, id)
    ensures var job := db.jobs[id];
            if job.status.Running? && job.spec.maxAttempts <= job.attemptCount then
              && LeaseColumnsShape(SpentRow(db, id)) && StatusShape(SpentRow(db, id))
              && DoClaim(db, id, lease, worker, duration).value
                 == Left(db, id, ExpiredLease, Some("LEASE_EXPIRED_ATTEMPTS_EXHAUSTED"), SpentRow(db, id))
            else
              var freed := Superseded(db, id);
              var row := NewLease(freed, id, worker, duration);
              && Grab(freed, id, lease, worker, duration) == DoClaim(db, id, lease, worker, duration)
              && IsClaim(freed, id, lease, row, ClaimedJob(job, lease, row))
              && DoClaim(db, id, lease, worker, duration).value == Grabbed(freed, id, lease, row, ClaimedJob(job, lease, row))
  {
    var job := db.jobs[id];
    assert JobOk(db, id);
    if job.status.Running? && job.spec.maxAttempts <= job.attemptCount {
      LeaveWrites(db, id, ExpiredLease, Some("LEASE_EXPIRED_ATTEMPTS_EXHAUSTED"), SpentRow(db, id));
    } else {
      assert job.status.Running? ==> Release(db, job.currentLease.value, SupersededLease, None) == Done(Superseded(db, id));
      GrabWrites(Superseded(db, id), id, lease, worker, duration);
    }
  }

  lemma ClaimKeeps(db: Db, id: Id, lease: Id, worker: string, duration: int)
    requires Inv(db) && DoClaim(db, id, lease, worker, duration).Done?
    ensures Inv(DoClaim(db, id, lease, worker, duration).value)
  {
    ClaimWrites(db, id, lease, worker, duration);
    if db.jobs[id].status.Running? && db.jobs[id].spec.maxAttempts <= db.jobs[id].attemptCount {
      LeftKeeps(db, id, ExpiredLease, Some("LEASE_EXPIRED_ATTEMPTS_EXHAUSTED"), SpentRow(db, id));
    } else {
      ClaimRowKeeps(db, id, lease, worker, duration);
    }
  }

  /** Why, with which code and into which row an expired lease is recovered. */
  ghost function Recovery(db: Db, id: Id): (Reason, string, Job)
    requires id in db.jobs && ProjectsLease(db, id, db.jobs[id])
  {
    var job := db.jobs[id];
    var token := Some(db.leases[job.currentLease.value].token);
    if job.cancelRequestedAt.Some? then
      (CancelledLease, "CANCELLATION_REQUESTED", Detached(job, Cancelled, token, Some("CANCELLATION_REQUESTED"), Some(db.now)))
    else if job.spec.maxAttempts <= job.attemptCount then
      (ExpiredLease, "LEASE_EXPIRED_ATTEMPTS_EXHAUSTED", SpentRow(db, id))
    else (ExpiredLease, "LEASE_EXPIRED", Detached(job, Queued, token, Some("LEASE_EXPIRED"), None).(availableAt := db.now))
  }

  lemma RecoverWrites(db: Db, id: Id)
    requires LeasesOk(db) && DoRecover(db, id).Done?
    ensures id in db.jobs && db.jobs[id].status.Running? && JobOk(db, id)
    ensures LeaseColumnsShape(Recovery(db, id).2) && StatusShape(Recovery(db, id).2)
    ensures DoRecover(db, id).value == Left(db, id, Recovery(db, id).0, Some(Recovery(db, id).1), Recovery(db, id).2)
  {
    assert JobOk(db, id);
    var (reason, code, after) := Recovery(db, id);
    LeaveWrites(db, id, reason, Some(code), after);
  }

  lemma RecoverKeeps(db: Db, id: Id)
    requires Inv(db) && DoRecover(db, id).Done?
    ensures Inv(DoRecover(db, id).value)
  {
    RecoverWrites(db, id);
    var (reason, code, after) := Recovery(db, id);
    LeftKeeps(db, id, reason, Some(code), after);
  }

  // ----- writes under a held lease

  /** A held lease and its job rewritten in place: identity, attempt and release columns stay. */
  ghost predicate IsTouch(db: Db, id: Id, job: Job, lease: Id, row: Lease) {
    && id in db.jobs && lease in db.leases && db.jobs[id].status.Running?
    && db.jobs[id].currentLease == Some(lease)
    && job.(checkpointVersion := db.jobs[id].checkpointVersion, leaseExpiresAt := db.jobs[id].leaseExpiresAt) == db.jobs[id]
    && db.jobs[id].checkpointVersion <= job.checkpointVersion
    && job.leaseExpiresAt == Some(row.expiresAt)
    && var prior := db.leases[lease];
    && row.(checkpointVersion := prior.checkpointVersion, heartbeatAt := prior.heartbeatAt, expiresAt := prior.expiresAt) == prior
    && prior.heartbeatAt <= row.heartbeatAt <= db.now && row.heartbeatAt < row.expiresAt
  }

  ghost function Touched(db: Db, id: Id, job: Job, lease: Id, row: Lease): Db {
    db.(jobs := db.jobs[id := job], leases := db.leases[lease := row])
  }

  /** Jobs other than id keep their rows, and every lease but one of id's keeps its own. */
  lemma OtherJobsKept(db: Db, db': Db, id: Id, lease: Id)
    requires forall j <- db.jobs :: JobOk(db, j)
    requires db.nextToken <= db'.nextToken && db'.jobs.Keys == db.jobs.Keys
    requires forall j <- db.jobs :: j != id ==> db'.jobs[j] == db.jobs[j]
    requires lease in db.leases && db.leases[lease].job == id
    requires db'.leases.Keys == db.leases.Keys && forall l <- db.leases :: l != lease ==> db'.leases[l] == db.leases[l]
    ensures forall j <- db'.jobs :: j != id ==> JobOk(db', j)
  {
    forall j <- db'.jobs | j != id ensures JobOk(db', j) { assert JobOk(db, j); }
  }

  lemma TouchFacts(db: Db, id: Id, job: Job, lease: Id, row: Lease)
    requires IsTouch(db, id, job, lease, row) && JobOk(db, id)
    ensures var prior := db.leases[lease];
            && prior.job == id && prior.releasedAt.None?
            && row.job == prior.job && row.attempt == prior.attempt && row.token == prior.token && row.owner == prior.owner
            && row.scope == prior.scope && row.createdAt == prior.createdAt
            && row.releasedAt == prior.releasedAt && row.releaseReason == prior.releaseReason
    ensures job.spec == db.jobs[id].spec && job.status.Running? && job.lastToken == db.jobs[id].lastToken
    ensures job.attemptCount == db.jobs[id].attemptCount && job.currentLease == Some(lease)
    ensures JobOk(Touched(db, id, job, lease, row), id)
  {
  }

  lemma TouchedLeases(db: Db, id: Id, job: Job, lease: Id, row: Lease)
    requires LeasesOk(db) && IsTouch(db, id, job, lease, row)
    ensures LeasesOk(Touched(db, id, job, lease, row))
  {
    assert JobOk(db, id);
    TouchedLeaseRows(db, id, job, lease, row);
    TouchedOthers(db, id, job, lease, row);
  }

  lemma TouchedOthers(db: Db, id: Id, job: Job, lease: Id, row: Lease)
    requires LeasesOk(db) && IsTouch(db, id, job, lease, row) && JobOk(db, id)
    ensures var db' := Touched(db, id, job, lease, row);
            && (forall j <- db'.jobs :: JobOk(db', j)) && AttemptsDense(db')
            && (forall l, m :: l in db'.leases && m in db'.leases ==> PairOk(db', l, m))
  {
    var db' := Touched(db, id, job, lease, row);
    TouchFacts(db, id, job, lease, row);
    PairsKept(db, db', lease);
    OtherJobsKept(db, db', id, lease);
    AttemptsKept(db, db');
  }

  lemma TouchedMovesOn(db: Db, id: Id, job: Job, lease: Id, row: Lease)
    requires IsTouch(db, id, job, lease, row) && JobOk(db, id)
    ensures MovesOn(db, Touched(db, id, job, lease, row))
  {
    TouchFacts(db, id, job, lease, row);
  }

  lemma TouchedLeaseRows(db: Db, id: Id, job: Job, lease: Id, row: Lease)
    requires (forall l <- db.leases :: LeaseOk(db, l)) && IsTouch(db, id, job, lease, row) && JobOk(db, id)
    ensures forall l <- Touched(db, id, job, lease, row).leases :: LeaseOk(Touched(db, id, job, lease, row), l)
  {
    TouchFacts(db, id, job, lease, row);
    var db' := Touched(db, id, job, lease, row);
    forall l <- db'.leases ensures LeaseOk(db', l) { assert LeaseOk(db, l); }
  }

  ghost function Beaten(db: Db, g: Grant, duration: int): Db
    requires g.job in db.jobs && g.lease in db.leases
  {
    var lease := db.leases[g.lease];
    var expiresAt := if lease.expiresAt < db.now + duration then db.now + duration else lease.expiresAt;
    Touched(db, g.job, db.jobs[g.job].(leaseExpiresAt := Some(expiresAt)), g.lease,
            lease.(heartbeatAt := db.now, expiresAt := expiresAt))
  }

  lemma HeartbeatWrites(db: Db, g: Grant, duration: int)
    requires LeasesOk(db) && DoHeartbeat(db, g, duration).Done?
    ensures HoldsLease(db, g) && DoHeartbeat(db, g, duration).value == Beaten(db, g, duration)
  {
    assert JobOk(db, g.job);
  }

  lemma HeartbeatKeeps(db: Db, g: Grant, duration: int)
    requires Inv(db) && DoHeartbeat(db, g, duration).Done?
    ensures Inv(DoHeartbeat(db, g, duration).value)
  {
    HeartbeatWrites(db, g, duration);
    assert JobOk(db, g.job);
    assert LeaseOk(db, g.lease);
    var db' := Beaten(db, g, duration);
    TouchedLeases(db, g.job, db'.jobs[g.job], g.lease, db'.leases[g.lease]);
    TouchedMovesOn(db, g.job, db'.jobs[g.job], g.lease, db'.leases[g.lease]);
    HistoryKept(db, db');
  }

  ghost predicate IsAppend(db: Db, db': Db, g: Grant, sequence: int, row: Checkpoint) {
    && g.job in db.jobs && sequence == db.jobs[g.job].checkpointVersion + 1 && 0 < sequence
    && row.lease == g.lease && row.token == g.token
    && db'.checkpoints == db.checkpoints[(g.job, sequence) := row]
    && db'.jobs.Keys == db.jobs.Keys && db'.jobs[g.job].checkpointVersion == sequence
    && (forall j <- db.jobs :: j != g.job ==> db'.jobs[j].checkpointVersion == db.jobs[j].checkpointVersion)
  }

  lemma AppendedRows(db: Db, db': Db, g: Grant, sequence: int, row: Checkpoint)
    requires LeasesOk(db) && CheckpointsOk(db) && MovesOn(db, db') && HoldsLease(db, g) && IsAppend(db, db', g, sequence, row)
    ensures forall k <- db'.checkpoints ::
              && UnderLease(db', k.0, db'.checkpoints[k].lease, db'.checkpoints[k].token)
              && 1 <= k.1 <= db'.jobs[k.0].checkpointVersion
              && (k.0 == g.job ==> db'.checkpoints[k].token <= g.token)
  {
    assert JobOk(db, g.job);
    forall k <- db'.checkpoints
      ensures UnderLease(db', k.0, db'.checkpoints[k].lease, db'.checkpoints[k].token)
      ensures 1 <= k.1 <= db'.jobs[k.0].checkpointVersion
      ensures k.0 == g.job ==> db'.checkpoints[k].token <= g.token
    {
      if k in db.checkpoints && k != (g.job, sequence) {
        assert UnderLease(db, k.0, db.checkpoints[k].lease, db.checkpoints[k].token);
        assert LeaseOk(db, db.checkpoints[k].lease);
      }
    }
  }

  lemma AppendedCheckpoints(db: Db, db': Db, g: Grant, sequence: int, row: Checkpoint)
    requires LeasesOk(db) && CheckpointsOk(db) && MovesOn(db, db') && HoldsLease(db, g) && IsAppend(db, db', g, sequence, row)
    ensures CheckpointsOk(db')
  {
    AppendedRows(db, db', g, sequence, row);
    forall j, n | j in db'.jobs && 1 <= n <= db'.jobs[j].checkpointVersion ensures (j, n) in db'.checkpoints {
      if !(j == g.job && n == sequence) { assert (j, n) in db.checkpoints; }
    }
    forall m | m in db.checkpoints && m.0 == g.job ensures m.1 < sequence {
      assert 1 <= m.1 <= db.jobs[m.0].checkpointVersion;
    }
    forall k, m | k in db'.checkpoints && m in db'.checkpoints && k.0 == m.0 && k.1 < m.1
      ensures db'.checkpoints[k].token <= db'.checkpoints[m].token
    {
      if m != (g.job, sequence) { assert k in db.checkpoints && m in db.checkpoints; }
    }
  }

  ghost function Appended(db: Db, g: Grant, expected: int, key: string, payload: string): Db
    requires g.job in db.jobs && g.lease in db.leases
  {
    var job := db.jobs[g.job].(checkpointVersion := expected + 1);
    Touched(db, g.job, job, g.lease, db.leases[g.lease].(checkpointVersion := expected + 1))
    .(checkpoints := db.checkpoints[(g.job, expected + 1) := Checkpoint(g.lease, g.token, key, payload, job.spec.scope)])
  }

  lemma AppendIsTouch(db: Db, g: Grant)
    requires LeasesOk(db) && HoldsLease(db, g)
    ensures var sequence := db.jobs[g.job].checkpointVersion + 1;
            IsTouch(db, g.job, db.jobs[g.job].(checkpointVersion := sequence), g.lease,
                    db.leases[g.lease].(checkpointVersion := sequence))
            && 0 < sequence && JobOk(db, g.job)
  {
    assert JobOk(db, g.job);
    assert LeaseOk(db, g.lease);
  }

  lemma AppendedLeases(db: Db, g: Grant, expected: int, key: string, payload: string)
    requires LeasesOk(db) && HoldsLease(db, g) && expected == db.jobs[g.job].checkpointVersion
    ensures LeasesOk(Appended(db, g, expected, key, payload)) && MovesOn(db, Appended(db, g, expected, key, payload))
  {
    var job := db.jobs[g.job].(checkpointVersion := expected + 1);
    var row := db.leases[g.lease].(checkpointVersion := expected + 1);
    AppendIsTouch(db, g);
    TouchedLeases(db, g.job, job, g.lease, row);
    TouchedMovesOn(db, g.job, job, g.lease, row);
    LeasesSame(Touched(db, g.job, job, g.lease, row), Appended(db, g, expected, key, payload));
  }

  lemma AppendedIsAppend(db: Db, g: Grant, expected: int, key: string, payload: string)
    requires HoldsLease(db, g) && expected == db.jobs[g.job].checkpointVersion && 0 < expected + 1
    ensures IsAppend(db, Appended(db, g, expected, key, payload), g, expected + 1,
                     Checkpoint(g.lease, g.token, key, payload, db.jobs[g.job].spec.scope))
  {
  }

  lemma AppendedSequence(db: Db, g: Grant, expected: int, key: string, payload: string)
    requires LeasesOk(db) && CheckpointsOk(db) && HoldsLease(db, g) && expected == db.jobs[g.job].checkpointVersion
    requires MovesOn(db, Appended(db, g, expected, key, payload)) && 0 < expected + 1
    ensures CheckpointsOk(Appended(db, g, expected, key, payload))
  {
    AppendedIsAppend(db, g, expected, key, payload);
    AppendedCheckpoints(db, Appended(db, g, expected, key, payload), g, expected + 1,
                         Checkpoint(g.lease, g.token, key, payload, db.jobs[g.job].spec.scope));
  }

  /** Jobs, leases and checkpoints moved on together; the other tables stay. */
  lemma OtherTablesKept(db: Db, db': Db)
    requires Inv(db) && MovesOn(db, db') && LeasesOk(db') && CheckpointsOk(db')
    requires db'.effects == db.effects && db'.transitions == db.transitions
    requires db'.ignored == db.ignored && db'.outages == db.outages
    ensures Inv(db')
  {
    EffectsKept(db, db');
    OutagesKept(db, db');
    TransitionsKept(db, db');
    IgnoredKept(db, db');
  }

  lemma AppendedKeeps(db: Db, g: Grant, expected: int, key: string, payload: string)
    requires Inv(db) && HoldsLease(db, g) && expected == db.jobs[g.job].checkpointVersion
    ensures Inv(Appended(db, g, expected, key, payload))
  {
    AppendedLeases(db, g, expected, key, payload);
    AppendIsTouch(db, g);
    AppendedSequence(db, g, expected, key, payload);
    OtherTablesKept(db, Appended(db, g, expected, key, payload));
  }

  lemma AppendWrites(db: Db, g: Grant, expected: int, key: string, payload: string)
    requires LeasesOk(db) && HoldsLease(db, g) && AppendCheckpoint(db, g, expected, key, payload).Done?
    ensures var db' := AppendCheckpoint(db, g, expected, key, payload).value;
            db' == db || (expected == db.jobs[g.job].checkpointVersion && db' == Appended(db, g, expected, key, payload))
  {
    assert JobOk(db, g.job);
    assert LeaseOk(db, g.lease);
  }

  lemma AppendKeeps(db: Db, g: Grant, expected: int, key: string, payload: string)
    requires Inv(db) && HoldsLease(db, g) && AppendCheckpoint(db, g, expected, key, payload).Done?
    ensures Inv(AppendCheckpoint(db, g, expected, key, payload).value)
    ensures HoldsLease(AppendCheckpoint(db, g, expected, key, payload).value, g)
    ensures AppendCheckpoint(db, g, expected, key, payload).value.effects == db.effects
    ensures AppendCheckpoint(db, g, expected, key, payload).value.jobs[g.job].lastToken == db.jobs[g.job].lastToken
  {
    AppendWrites(db, g, expected, key, payload);
    var db' := AppendCheckpoint(db, g, expected, key, payload).value;
    if db' != db { AppendedKeeps(db, g, expected, key, payload); }
  }

  lemma LeasesSame(db: Db, db': Db)
    requires LeasesOk(db)
    requires db'.jobs == db.jobs && db'.leases == db.leases && db'.nextToken == db.nextToken && db'.now == db.now
    ensures LeasesOk(db') && MovesOn(db, db')
  {
    forall l <- db'.leases ensures LeaseOk(db', l) { assert LeaseOk(db, l); }
    forall l, m | l in db'.leases && m in db'.leases ensures PairOk(db', l, m) { assert PairOk(db, l, m); }
    forall j <- db'.jobs ensures JobOk(db', j) { assert JobOk(db, j); }
    AttemptsKept(db, db');
  }

  // ----- effects

  ghost predicate OthersUnchanged(db: Db, db': Db) {
    && db'.jobs == db.jobs && db'.leases == db.leases && db'.nextToken == db.nextToken && db'.now == db.now
    && db'.checkpoints == db.checkpoints && db'.transitions == db.transitions && db'.ignored == db.ignored
    && db'.outages == db.outages
  }

  /** Only the effects table changed. */
  lemma EffectsOnly(db: Db, db': Db)
    requires Inv(db) && OthersUnchanged(db, db') && EffectsOk(db')
    ensures Inv(db')
  {
    LeasesSame(db, db');
    CheckpointsKept(db, db');
    OutagesKept(db, db');
    TransitionsKept(db, db');
    IgnoredKept(db, db');
  }

  lemma PreparedEffects(db: Db, db': Db, j: Id, id: Id)
    requires EffectsOk(db) && db'.jobs == db.jobs && db'.leases == db.leases
    requires id !in db.effects && db'.effects.Keys == db.effects.Keys + {id}
    requires forall e <- db.effects :: db'.effects[e] == db.effects[e]
    requires EffectOk(db', id) && db'.effects[id].job == j && db.jobs[j].status.Running? && NoPendingEffects(db, j)
    ensures EffectsOk(db')
  {
    forall e <- db'.effects ensures EffectOk(db', e) { if e != id { assert EffectOk(db, e); } }
    assert forall i, e :: e != id && PendingEffect(db', i, e) ==> PendingEffect(db, i, e);
    forall i, e, f | PendingEffect(db', i, e) && PendingEffect(db', i, f) ensures e == f {
      if e != id && f != id { assert PendingEffect(db, i, e) && PendingEffect(db, i, f); }
    }
    forall i <- db'.jobs | db'.jobs[i].status.Succeeded? ensures NoPendingEffects(db', i) {
      assert NoPendingEffects(db, i);
      forall e <- db'.effects ensures !PendingEffect(db', i, e) { if e != id { assert !PendingEffect(db, i, e); } }
    }
  }

  lemma PrepareEffectKeeps(db: Db, g: Grant, id: Id, key: string, kind: string, request: string)
    requires Inv(db) && DoPrepareEffect(db, g, id, key, kind, request).Done?
    ensures Inv(DoPrepareEffect(db, g, id, key, kind, request).value)
  {
    var db' := DoPrepareEffect(db, g, id, key, kind, request).value;
    if db' != db {
      assert OthersUnchanged(db, db');
      PreparedEffects(db, db', g.job, id);
      EffectsOnly(db, db');
    }
  }

  ghost function Finished(db: Db, g: Grant, id: Id, succeeded: bool, result: string): Db
    requires id in db.effects
  {
    db.(effects := db.effects[id := db.effects[id].(
      status := if succeeded then EffectSucceeded else EffectFailed, completionLease := Some(g.lease),
      completionToken := Some(g.token), result := Some(result))])
  }

  lemma FinishedEffects(db: Db, g: Grant, id: Id, succeeded: bool, result: string)
    requires LeasesOk(db) && EffectsOk(db) && HoldsLease(db, g) && PendingEffect(db, g.job, id)
    ensures EffectsOk(Finished(db, g, id, succeeded, result))
  {
    var db' := Finished(db, g, id, succeeded, result);
    assert EffectOk(db', id) by {
      assert EffectOk(db, id) && JobOk(db, g.job);
      assert LeaseOk(db, db.effects[id].startedLease);
    }
    forall e <- db'.effects ensures EffectOk(db', e) { if e != id { assert EffectOk(db, e); } }
    assert forall j, e :: PendingEffect(db', j, e) ==> PendingEffect(db, j, e);
    forall j <- db'.jobs | db'.jobs[j].status.Succeeded? ensures NoPendingEffects(db', j) {
      assert NoPendingEffects(db, j);
    }
  }

  lemma FinishedKeeps(db: Db, g: Grant, id: Id, succeeded: bool, result: string)
    requires Inv(db) && HoldsLease(db, g) && PendingEffect(db, g.job, id)
    ensures Inv(Finished(db, g, id, succeeded, result)) && HoldsLease(Finished(db, g, id, succeeded, result), g)
  {
    FinishedEffects(db, g, id, succeeded, result);
    EffectsOnly(db, Finished(db, g, id, succeeded, result));
  }

  lemma RecordEffectKeeps(db: Db, g: Grant, id: Id, succeeded: bool, result: string, expected: int, key: string, payload: string)
    requires Inv(db) && DoRecordEffect(db, g, id, succeeded, result, expected, key, payload).Done?
    ensures Inv(DoRecordEffect(db, g, id, succeeded, result, expected, key, payload).value)
  {
    if db.effects[id].status.Pending? {
      FinishedKeeps(db, g, id, succeeded, result);
      AppendKeeps(Finished(db, g, id, succeeded, result), g, expected, key, payload);
    } else {
      AppendKeeps(db, g, expected, key, payload);
    }
  }

  lemma IgnoreKeeps(db: Db, g: Grant, key: string, effect: Option<Id>)
    requires Inv(db) && DoIgnore(db, g, key, effect).Done?
    ensures Inv(DoIgnore(db, g, key, effect).value)
  {
    var db' := DoIgnore(db, g, key, effect).value;
    if db' != db {
      LeasesSame(db, db');
      CheckpointsKept(db, db');
      EffectsKept(db, db');
      OutagesKept(db, db');
      TransitionsKept(db, db');
      forall k <- db'.ignored ensures UnderLease(db', db'.ignored[k].job, db'.ignored[k].lease, db'.ignored[k].token) {
        if k != key { assert UnderLease(db, db.ignored[k].job, db.ignored[k].lease, db.ignored[k].token); }
      }
    }
  }

  lemma TransitionKeeps(db: Db, g: Grant, event: Id)
    requires Inv(db) && DoTransition(db, g, event).Done?
    ensures Inv(DoTransition(db, g, event).value)
  {
    var db' := DoTransition(db, g, event).value;
    if db' != db {
      LeasesSame(db, db');
      CheckpointsKept(db, db');
      EffectsKept(db, db');
      OutagesKept(db, db');
      IgnoredKept(db, db');
      forall e <- db'.transitions
        ensures UnderLease(db', db'.transitions[e].job, db'.transitions[e].lease, db'.transitions[e].token)
        ensures db'.jobs[db'.transitions[e].job].spec.task == Some(db'.transitions[e].task)
      {
        if e != event { assert UnderLease(db, db.transitions[e].job, db.transitions[e].lease, db.transitions[e].token); }
      }
    }
  }

  lemma CheckpointsWithin(db: Db, j: Id)
    requires CheckpointsOk(db) && j in db.jobs
    ensures forall n :: (j, n) in db.checkpoints ==> 1 <= n <= db.jobs[j].checkpointVersion
  {
    forall n | (j, n) in db.checkpoints ensures 1 <= n <= db.jobs[j].checkpointVersion {
      var k := (j, n);
      assert UnderLease(db, k.0, db.checkpoints[k].lease, db.checkpoints[k].token);
    }
  }

  // ----- the ends of an attempt

  /** The database after the final checkpoint, if there is one. */
  ghost function Saved(db: Db, g: Grant, expected: int, final: Option<(string, string)>): Outcome<Db>
    requires HoldsLease(db, g)
  {
    if final.Some? then AppendCheckpoint(db, g, expected, final.value.0, final.value.1) else Done(db)
  }

  ghost predicate Finishing(saved: Db, g: Grant) {
    g.job in saved.jobs && saved.jobs[g.job].currentLease.Some? && saved.jobs[g.job].currentLease.value in saved.leases
  }

  lemma CompleteWrites(db: Db, g: Grant, expected: int, final: Option<(string, string)>)
    requires DoComplete(db, g, expected, final).Done?
    ensures HoldsLease(db, g) && NoPendingEffects(db, g.job) && Saved(db, g, expected, final).Done?
    ensures var saved := Saved(db, g, expected, final).value;
            && Finishing(saved, g)
            && DoComplete(db, g, expected, final)
               == Leave(saved, g.job, SucceededLease, None,
                        Detached(saved.jobs[g.job], Succeeded, Some(g.token), None, Some(db.now)))
  {
  }

  lemma CompletedKeeps(saved: Db, g: Grant, now: int)
    requires Inv(saved) && HoldsLease(saved, g) && NoPendingEffects(saved, g.job)
    requires var job := Detached(saved.jobs[g.job], Succeeded, Some(g.token), None, Some(now));
             Leave(saved, g.job, SucceededLease, None, job).Done?
    ensures var job := Detached(saved.jobs[g.job], Succeeded, Some(g.token), None, Some(now));
            Inv(Leave(saved, g.job, SucceededLease, None, job).value)
  {
    assert JobOk(saved, g.job);
    var job := Detached(saved.jobs[g.job], Succeeded, Some(g.token), None, Some(now));
    LeaveWrites(saved, g.job, SucceededLease, None, job);
    LeftKeeps(saved, g.job, SucceededLease, None, job);
  }

  lemma SavedKeeps(db: Db, g: Grant, expected: int, final: Option<(string, string)>)
    requires Inv(db) && HoldsLease(db, g) && NoPendingEffects(db, g.job) && Saved(db, g, expected, final).Done?
    ensures var saved := Saved(db, g, expected, final).value;
            Inv(saved) && HoldsLease(saved, g) && NoPendingEffects(saved, g.job)
  {
    if final.Some? {
      AppendKeeps(db, g, expected, final.value.0, final.value.1);
      var saved := Saved(db, g, expected, final).value;
      forall e <- saved.effects ensures !PendingEffect(saved, g.job, e) { assert !PendingEffect(db, g.job, e); }
    }
  }

  lemma CompleteKeeps(db: Db, g: Grant, expected: int, final: Option<(string, string)>)
    requires Inv(db) && DoComplete(db, g, expected, final).Done?
    ensures Inv(DoComplete(db, g, expected, final).value)
  {
    CompleteWrites(db, g, expected, final);
    SavedKeeps(db, g, expected, final);
    CompletedKeeps(Saved(db, g, expected, final).value, g, db.now);
  }

  /** The job row, lease reason and code a failed attempt leaves behind. */
  ghost function FailedRow(db: Db, g: Grant, code: string, retryable: bool, jitter: nat): Job
    requires HoldsLease(db, g) && JobShape(db.jobs[g.job]) && 1 <= db.jobs[g.job].attemptCount
  {
    var job := db.jobs[g.job];
    if CanRetry(job, retryable) then
      Detached(job, Queued, Some(g.token), Some(code), None)
      .(availableAt := db.now + RetryDelay(job.spec, job.attemptCount, jitter))
    else Detached(job, Failed, Some(g.token), Some(code), Some(db.now))
  }

  ghost function FailedReason(job: Job, retryable: bool): Reason {
    if CanRetry(job, retryable) then RetryLease else FailedLease
  }

  lemma ReleaseFailedKeeps(db: Db, g: Grant, code: string, retryable: bool, jitter: nat)
    requires Inv(db) && HoldsLease(db, g) && ReleaseFailed(db, g, code, retryable, jitter).Done?
    ensures JobShape(db.jobs[g.job]) && 1 <= db.jobs[g.job].attemptCount && JobOk(db, g.job)
    ensures ReleaseFailed(db, g, code, retryable, jitter).value
            == Left(db, g.job, FailedReason(db.jobs[g.job], retryable), Some(code), FailedRow(db, g, code, retryable, jitter))
    ensures Inv(ReleaseFailed(db, g, code, retryable, jitter).value)
  {
    assert JobOk(db, g.job);
    assert LeaseOk(db, g.lease);
    var reason := FailedReason(db.jobs[g.job], retryable);
    var job := FailedRow(db, g, code, retryable, jitter);
    LeaveWrites(db, g.job, reason, Some(code), job);
    LeftKeeps(db, g.job, reason, Some(code), job);
  }

  lemma OutagedKeeps(failed: Db, db': Db, key: (Id, int))
    requires Inv(failed) && db' == failed.(outages := db'.outages)
    requires key in db'.outages && OutageOk(db', key)
    requires db'.outages.Keys == failed.outages.Keys + {key}
    requires forall k <- failed.outages :: k != key ==> db'.outages[k] == failed.outages[k]
    ensures Inv(db')
  {
    LeasesSame(failed, db');
    CheckpointsKept(failed, db');
    EffectsKept(failed, db');
    TransitionsKept(failed, db');
    IgnoredKept(failed, db');
    forall k <- db'.outages ensures OutageOk(db', k) { if k != key { assert OutageOk(failed, k); } }
  }

  lemma FailDependencyWrites(db: Db, g: Grant, code: string, jitter: nat)
    requires DoFailDependency(db, g, code, jitter).Done?
    ensures HoldsLease(db, g) && ReleaseFailed(db, g, code, true, jitter).Done?
    ensures var failed := ReleaseFailed(db, g, code, true, jitter).value;
            var key := (g.job, db.leases[g.lease].attempt);
            var row := Outage(g.lease, g.token, code, !CanRetry(db.jobs[g.job], true));
            && OutageGuard(failed, key.0, key.1, row)
            && DoFailDependency(db, g, code, jitter).value == failed.(outages := failed.outages[key := row])
  {
  }

  lemma NewOutage(failed: Db, key: (Id, int), row: Outage)
    requires LeasesOk(failed) && OutageGuard(failed, key.0, key.1, row)
    requires row.exhausted ==> key.1 == failed.jobs[key.0].attemptCount == failed.jobs[key.0].spec.maxAttempts
    ensures OutageOk(failed.(outages := failed.outages[key := row]), key)
  {
    assert LeaseOk(failed, row.lease);
  }

  lemma Exhausted(db: Db, g: Grant, code: string, jitter: nat)
    requires HoldsLease(db, g) && JobOk(db, g.job) && 1 <= db.jobs[g.job].attemptCount
    ensures var failed := Left(db, g.job, FailedReason(db.jobs[g.job], true), Some(code), FailedRow(db, g, code, true, jitter));
            !CanRetry(db.jobs[g.job], true) ==>
              db.leases[g.lease].attempt == failed.jobs[g.job].attemptCount == failed.jobs[g.job].spec.maxAttempts
  {
  }

  lemma AddOutageKeeps(failed: Db, db': Db, key: (Id, int), row: Outage)
    requires Inv(failed) && OutageGuard(failed, key.0, key.1, row)
    requires row.exhausted ==> key.1 == failed.jobs[key.0].attemptCount == failed.jobs[key.0].spec.maxAttempts
    requires db' == failed.(outages := failed.outages[key := row])
    ensures Inv(db')
  {
    NewOutage(failed, key, row);
    OutagedKeeps(failed, db', key);
  }

  lemma FailDependencyKeeps(db: Db, g: Grant, code: string, jitter: nat)
    requires Inv(db) && DoFailDependency(db, g, code, jitter).Done?
    ensures Inv(DoFailDependency(db, g, code, jitter).value)
  {
    FailDependencyWrites(db, g, code, jitter);
    ReleaseFailedKeeps(db, g, code, true, jitter);
    Exhausted(db, g, code, jitter);
    var row := Outage(g.lease, g.token, code, !CanRetry(db.jobs[g.job], true));
    AddOutageKeeps(ReleaseFailed(db, g, code, true, jitter).value, DoFailDependency(db, g, code, jitter).value,
                    (g.job, db.leases[g.lease].attempt), row);
  }

  /** Giving the attempt back is never admitted: a row that leaves RUNNING must keep its count. */
  lemma PauseRefused(db: Db, g: Grant, code: string)
    requires Inv(db)
    ensures DoPause(db, g, code) == if HoldsLease(db, g) then Refused else Raised
  {
    if HoldsLease(db, g) {
      assert LeaseOk(db, g.lease);
    }
  }

  ghost function Marked(job: Job, now: int): Job {
    job.(cancelRequestedAt := if job.cancelRequestedAt.Some? then job.cancelRequestedAt else Some(now))
  }

  ghost function Closed(job: Job, now: int): Job {
    Detached(Marked(job, now), Cancelled, job.lastToken, Some("CANCELLATION_REQUESTED"), Some(now))
  }

  /** What cancelling one job leaves: a queued job closed, a running one marked and made to leave its lease. */
  lemma CancelJobWrites(db: Db, id: Id)
    requires id in db.jobs && CancelJob(db, id).Done?
    ensures var job := db.jobs[id];
            match job.status
            case Queued => CancelJob(db, id).value == db.(jobs := db.jobs[id := Closed(job, db.now)])
            case Running =>
              var flushed := db.(jobs := db.jobs[id := Marked(job, db.now)]);
              && job.currentLease.Some? && job.currentLease.value in db.leases
              && Leave(flushed, id, CancelledLease, Some("CANCELLATION_REQUESTED"), Closed(job, db.now)) == CancelJob(db, id)
            case _ => CancelJob(db, id).value == db
  {
    var job := db.jobs[id];
    if job.status.Running? && Marked(job, db.now) == job {
      assert db.(jobs := db.jobs[id := job]) == db;
    }
  }

  lemma CancelJobKeeps(db: Db, id: Id)
    requires Inv(db) && id in db.jobs && CancelJob(db, id).Done?
    ensures Inv(CancelJob(db, id).value)
  {
    var job := db.jobs[id];
    CancelJobWrites(db, id);
    assert JobOk(db, id);
    if job.status.Queued? {
      RewrittenKeeps(db, id, Closed(job, db.now));
    } else if job.status.Running? {
      RewrittenKeeps(db, id, Marked(job, db.now));
      var flushed := db.(jobs := db.jobs[id := Marked(job, db.now)]);
      LeaveWrites(flushed, id, CancelledLease, Some("CANCELLATION_REQUESTED"), Closed(job, db.now));
      LeftKeeps(flushed, id, CancelledLease, Some("CANCELLATION_REQUESTED"), Closed(job, db.now));
    }
  }

  /** A job row rewritten without touching its lease columns, attempts or progress. */
  lemma RewrittenKeeps(db: Db, id: Id, job: Job)
    requires Inv(db) && id in db.jobs && !Terminal(db.jobs[id].status)
    requires job.status.Cancelled? ==> db.jobs[id].status.Queued? && job.completedAt.Some?
    requires job.status == db.jobs[id].status || job.status.Cancelled?
    requires job.(status := db.jobs[id].status, cancelRequestedAt := db.jobs[id].cancelRequestedAt,
                  lastError := db.jobs[id].lastError, completedAt := db.jobs[id].completedAt) == db.jobs[id]
    requires !job.status.Cancelled? ==> job.completedAt == db.jobs[id].completedAt
    ensures Inv(db.(jobs := db.jobs[id := job]))
  {
    var db' := db.(jobs := db.jobs[id := job]);
    RewrittenLeases(db, id, job);
    HistoryKept(db, db');
  }

  lemma RewrittenLeases(db: Db, id: Id, job: Job)
    requires LeasesOk(db) && id in db.jobs && !Terminal(db.jobs[id].status)
    requires job.status.Cancelled? ==> db.jobs[id].status.Queued? && job.completedAt.Some?
    requires job.status == db.jobs[id].status || job.status.Cancelled?
    requires job.(status := db.jobs[id].status, cancelRequestedAt := db.jobs[id].cancelRequestedAt,
                  lastError := db.jobs[id].lastError, completedAt := db.jobs[id].completedAt) == db.jobs[id]
    requires !job.status.Cancelled? ==> job.completedAt == db.jobs[id].completedAt
    ensures LeasesOk(db.(jobs := db.jobs[id := job]))
  {
    var db' := db.(jobs := db.jobs[id := job]);
    forall l <- db'.leases ensures LeaseOk(db', l) { assert LeaseOk(db, l); }
    forall l, m | l in db'.leases && m in db'.leases ensures PairOk(db', l, m) { assert PairOk(db, l, m); }
    forall j <- db'.jobs ensures JobOk(db', j) { assert JobOk(db, j); }
    AttemptsKept(db, db');
  }

  lemma {:induction false} CancelJobsKeeps(db: Db, order: seq<Id>)
    requires Inv(db) && CancelJobs(db, order).Done?
    ensures Inv(CancelJobs(db, order).value)
    decreases |order|
  {
    if order != [] {
      CancelJobKeeps(db, order[0]);
      CancelJobsKeeps(CancelJob(db, order[0]).value, order[1..]);
    }
  }

  // ----- every command, every run

  /** The commands that start, end or take over an attempt. */
  predicate MovesLease(c: Command) {
    c.Tick? || c.Schedule? || c.Claim? || c.RecoverExpired? || c.Heartbeat? || c.Complete? || c.FailAttempt?
    || c.FailDependency? || c.CancelTask?
  }

  lemma MovesLeaseKeeps(db: Db, c: Command)
    requires MovesLease(c) && Inv(db) && Execute(db, c).Done?
    ensures Inv(Execute(db, c).value)
  {
    hide Inv;
    match c
    case Tick(delta) => TickKeeps(db, delta);
    case Schedule(job, spec, availableAt, runnable) => ScheduleKeeps(db, job, spec, availableAt, runnable);
    case Claim(job, lease, worker, duration) => ClaimKeeps(db, job, lease, worker, duration);
    case RecoverExpired(job) => RecoverKeeps(db, job);
    case Heartbeat(g, duration) => HeartbeatKeeps(db, g, duration);
    case Complete(g, expected, final) => CompleteKeeps(db, g, expected, final);
    case FailAttempt(g, code, retryable, jitter) => ReleaseFailedKeeps(db, g, code, retryable, jitter);
    case FailDependency(g, code, jitter) => FailDependencyKeeps(db, g, code, jitter);
    case CancelTask(task, order) => CancelJobsKeeps(db, order);
  }

  lemma UnderLeaseKeeps(db: Db, c: Command)
    requires !MovesLease(c) && Inv(db) && Execute(db, c).Done?
    ensures Inv(Execute(db, c).value)
  {
    match c
    case SaveCheckpoint(g, expected, key, payload) => AppendKeeps(db, g, expected, key, payload);
    case PrepareEffect(g, e, key, kind, request) => PrepareEffectKeeps(db, g, e, key, kind, request);
    case RecordEffect(g, e, ok, result, expected, key, payload) => RecordEffectKeeps(db, g, e, ok, result, expected, key, payload);
    case RecordIgnored(g, key, e) => IgnoreKeeps(db, g, key, e);
    case PauseAttempt(g, code) => PauseRefused(db, g, code);
    case TransitionTask(g, event) => TransitionKeeps(db, g, event);
  }

  /** Every transaction of the service keeps the invariant. */
  lemma ExecuteKeeps(db: Db, c: Command)
    requires Inv(db) && Execute(db, c).Done?
    ensures Inv(Execute(db, c).value)
  {
    if MovesLease(c) { MovesLeaseKeeps(db, c); } else { UnderLeaseKeeps(db, c); }
  }

  /** The invariant holds in every database the service can reach. */
  lemma {:induction false} RunKeeps(db: Db, cs: seq<Command>)
    requires Inv(db)
    ensures Inv(Run(db, cs))
    decreases |cs|
  {
    if cs != [] {
      if Execute(db, cs[0]).Done? { ExecuteKeeps(db, cs[0]); }
      RunKeeps(Step(db, cs[0]), cs[1..]);
    }
  }

  lemma EmptyInv(now: int)
    ensures Inv(Empty(now))
  {
  }
}
