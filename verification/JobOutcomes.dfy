/** What each transaction of the job loop comes to, column by column. */
module JobOutcomes {
  import opened Basics
  import opened Wrappers
  import opened JobTables
  import opened JobService
  import opened JobInvariant
  import opened JobFencing
  import opened JobGuards

  /** The grant names the unexpired current lease of a running job that nobody cancelled. */
  ghost predicate Current(db: Db, g: Grant) {
    && g.job in db.jobs && g.lease in db.leases
    && var job := db.jobs[g.job];
    var lease := db.leases[g.lease];
    && job.status == Running && job.spec.task == Some(g.task) && job.cancelRequestedAt == None
    && job.currentLease == Some(g.lease)
    && lease.owner == g.worker && lease.attempt == g.attempt && lease.token == g.token
    && db.now < lease.expiresAt
  }

  /** The service's ten comparisons of job row, lease row and grant come to this. */
  lemma HeldExactly(db: Db, g: Grant)
    requires Inv(db)
    ensures HoldsLease(db, g) <==> Current(db, g)
  {
    if g.job in db.jobs && g.lease in db.leases { assert JobOk(db, g.job); }
  }

  function Unpointed(job: Job): Job {
    job.(currentLease := None, currentToken := None, leaseOwner := None, leaseExpiresAt := None)
  }

  /** Nothing changed but one job and one lease. */
  ghost predicate Only(db: Db, db': Db, j: Id, l: Id) {
    && j in db.jobs && j in db'.jobs && l in db.leases && l in db'.leases
    && db' == db.(jobs := db.jobs[j := db'.jobs[j]], leases := db.leases[l := db'.leases[l]])
  }

  lemma NotHeld(db: Db, g: Grant, c: Command)
    requires Inv(db) && !Current(db, g)
    requires match c
             case Heartbeat(h, _) => h == g
             case SaveCheckpoint(h, _, _, _) => h == g
             case PrepareEffect(h, _, _, _, _) => h == g
             case RecordEffect(h, _, _, _, _, _, _) => h == g
             case Complete(h, _, _) => h == g
             case FailAttempt(h, _, _, _) => h == g
             case FailDependency(h, _, _) => h == g
             case PauseAttempt(h, _) => h == g
             case TransitionTask(h, _) => h == g
             case _ => false
    ensures Execute(db, c) == Raised
  {
    HeldExactly(db, g);
  }

  // ----- failing

  /** The base doubled n times. */
  function Doubled(base: int, n: nat): int
    decreases n
  {
    if n == 0 then base else Doubled(base + base, n - 1)
  }

  lemma {:induction false} DoubledIsPow2(base: int, n: nat)
    ensures Doubled(base, n) == base * Pow2(n)
    decreases n
  {
    if n > 0 { DoubledIsPow2(base + base, n - 1); }
  }

  /** The longest wait after the n-th attempt, in seconds: the base doubled for each earlier attempt, but
      no more than the policy's maximum. */
  function Cap(spec: JobSpec, attempt: int): int
    requires 1 <= attempt
  {
    var grown := Doubled(spec.retryBase, if attempt <= 64 then attempt - 1 else 63);
    if grown < spec.retryMax then grown else spec.retryMax
  }

  lemma Jittered(delay: int, jitter: nat, k: nat)
    requires delay == jitter % (k + 1) * 1000
    ensures 0 <= delay <= k * 1000 && delay % 1000 == 0 && (jitter <= k ==> delay == jitter * 1000)
  {
    var m := jitter % (k + 1);
    assert 0 <= m <= k && delay == m * 1000;
    if jitter <= k { assert m == jitter; }
  }

  lemma DelayIs(spec: JobSpec, attempt: int, jitter: nat)
    requires 1 <= attempt && 0 < spec.retryBase <= spec.retryMax
    ensures 0 < Cap(spec, attempt) && RetryDelay(spec, attempt, jitter) == jitter % (Cap(spec, attempt) * 1000 + 1) * 1000
  {
    var n := if attempt <= 64 then attempt - 1 else 63;
    Positive(spec.retryBase, Pow2(n));
    DoubledIsPow2(spec.retryBase, n);
  }

  /** Full jitter: a whole number of milliseconds up to the cap, and every one of them possible. */
  lemma RetryWithin(spec: JobSpec, attempt: int, jitter: nat)
    requires 1 <= attempt && 0 < spec.retryBase <= spec.retryMax
    ensures var delay := RetryDelay(spec, attempt, jitter);
            && 0 <= delay <= Cap(spec, attempt) * SECOND && delay % 1000 == 0
            && (jitter <= Cap(spec, attempt) * 1000 ==> delay == jitter * 1000)
  {
    DelayIs(spec, attempt, jitter);
    Jittered(RetryDelay(spec, attempt, jitter), jitter, Cap(spec, attempt) * 1000);
  }

  ghost predicate FailedAs(db: Db, db': Db, g: Grant, code: string, again: bool) {
    && Only(db, db'.(outages := db.outages), g.job, g.lease)
    && db'.leases[g.lease] == db.leases[g.lease].(
         releasedAt := Some(db.now), releaseReason := Some(if again then RetryLease else FailedLease), failureCode := Some(code))
    && var row := Unpointed(db.jobs[g.job]).(lastToken := Some(g.token), lastError := Some(code));
    if again then
      var due := db'.jobs[g.job].availableAt;
      && db'.jobs[g.job] == row.(status := Queued, availableAt := due, completedAt := None)
      && 1 <= row.attemptCount && db.now <= due <= db.now + Cap(row.spec, row.attemptCount) * SECOND
      && (due - db.now) % 1000 == 0
    else db'.jobs[g.job] == row.(status := Failed, completedAt := Some(db.now))
  }

  lemma FailedRowIs(db: Db, g: Grant, code: string, retryable: bool, jitter: nat, again: bool)
    requires HoldsLease(db, g) && JobOk(db, g.job) && 1 <= db.jobs[g.job].attemptCount
    requires again == (retryable && db.jobs[g.job].attemptCount < db.jobs[g.job].spec.maxAttempts)
    ensures FailedAs(db, Left(db, g.job, FailedReason(db.jobs[g.job], retryable), Some(code),
                              FailedRow(db, g, code, retryable, jitter)), g, code, again)
  {
    RetryWithin(db.jobs[g.job].spec, db.jobs[g.job].attemptCount, jitter);
  }

  lemma FailsAs(db: Db, g: Grant, code: string, retryable: bool, jitter: nat)
    requires Inv(db) && HoldsLease(db, g)
    ensures ReleaseFailed(db, g, code, retryable, jitter).Done?
    ensures FailedAs(db, ReleaseFailed(db, g, code, retryable, jitter).value, g, code,
                     retryable && db.jobs[g.job].attemptCount < db.jobs[g.job].spec.maxAttempts)
  {
    ReleaseFailedPasses(db, g, code, retryable, jitter);
    ReleaseFailedKeeps(db, g, code, retryable, jitter);
    FailedRowIs(db, g, code, retryable, jitter, retryable && db.jobs[g.job].attemptCount < db.jobs[g.job].spec.maxAttempts);
  }

  /** A failed attempt is queued again exactly when the failure is retryable and attempts are left. */
  lemma FailOutcome(db: Db, g: Grant, code: string, retryable: bool, jitter: nat)
    requires Inv(db) && Current(db, g)
    ensures Execute(db, FailAttempt(g, code, retryable, jitter)).Done?
    ensures var db' := Execute(db, FailAttempt(g, code, retryable, jitter)).value;
            && db'.outages == db.outages
            && FailedAs(db, db', g, code, retryable && db.jobs[g.job].attemptCount < db.jobs[g.job].spec.maxAttempts)
  {
    HeldExactly(db, g);
    FailsAs(db, g, code, retryable, jitter);
    ReleaseFailedKeeps(db, g, code, retryable, jitter);
  }

  /** A failure that is not retryable is final: over every later run the row stays as it was left, and
      no lease of the job ever writes again. */
  lemma {:induction false} FailedForGood(db: Db, g: Grant, code: string, jitter: nat, cs: seq<Command>)
    requires Inv(db) && Current(db, g)
    ensures var db' := Run(Step(db, FailAttempt(g, code, false, jitter)), cs);
            && g.job in db'.jobs && db'.jobs[g.job].status == Failed && db'.jobs[g.job].completedAt == Some(db.now)
            && db'.jobs[g.job].attemptCount == db.jobs[g.job].attemptCount
            && forall l <- db'.leases :: db'.leases[l].job == g.job ==> l in db.leases && !Usable(db', l)
  {
    FailOutcome(db, g, code, false, jitter);
    var failed := Execute(db, FailAttempt(g, code, false, jitter)).value;
    ExecuteKeeps(db, FailAttempt(g, code, false, jitter));
    TerminalFreeze(failed, cs, g.job);
  }

  lemma RecordsOutage(db: Db, failed: Db, db': Db, g: Grant, code: string, again: bool)
    requires FailedAs(db, failed, g, code, again) && db' == failed.(outages := db'.outages)
    ensures FailedAs(db, db', g, code, again)
  {
  }

  lemma DependencyFails(db: Db, g: Grant, code: string, jitter: nat, failed: Db, again: bool)
    requires Inv(db) && HoldsLease(db, g) && again == (db.jobs[g.job].attemptCount < db.jobs[g.job].spec.maxAttempts)
    requires ReleaseFailed(db, g, code, true, jitter) == Done(failed)
    ensures DoFailDependency(db, g, code, jitter)
            == Done(failed.(outages := db.outages[(g.job, g.attempt) := Outage(g.lease, g.token, code, !again)]))
  {
    FailDependencyPasses(db, g, code, jitter);
    ReleaseFailedKeeps(db, g, code, true, jitter);
    if DoFailDependency(db, g, code, jitter).Done? { FailDependencyWrites(db, g, code, jitter); }
  }

  /** A dependency failure is a retryable failure with a record of it, marked exhausted when it was the
      last attempt. */
  lemma FailDependencyOutcome(db: Db, g: Grant, code: string, jitter: nat)
    requires Inv(db) && Current(db, g)
    ensures Execute(db, FailDependency(g, code, jitter)).Done?
    ensures var db' := Execute(db, FailDependency(g, code, jitter)).value;
            var again := db.jobs[g.job].attemptCount < db.jobs[g.job].spec.maxAttempts;
            && FailedAs(db, db', g, code, again)
            && db'.outages == db.outages[(g.job, g.attempt) := Outage(g.lease, g.token, code, !again)]
  {
    HeldExactly(db, g);
    FailsAs(db, g, code, true, jitter);
    var failed := ReleaseFailed(db, g, code, true, jitter).value;
    var again := db.jobs[g.job].attemptCount < db.jobs[g.job].spec.maxAttempts;
    DependencyFails(db, g, code, jitter, failed, again);
    RecordsOutage(db, failed, DoFailDependency(db, g, code, jitter).value, g, code, again);
  }

  // ----- starting

  ghost predicate KeyTaken(db: Db, key: string) {
    exists j :: j in db.jobs && db.jobs[j].spec.key == key
  }

  /** A job with the key that the same command scheduled. */
  ghost predicate Scheduled(db: Db, spec: JobSpec) {
    exists j :: j in db.jobs && db.jobs[j].spec.key == spec.key
      && db.jobs[j].spec.task == spec.task && db.jobs[j].spec.jobType == spec.jobType && db.jobs[j].spec.input == spec.input
      && db.jobs[j].spec.maxAttempts == spec.maxAttempts
      && db.jobs[j].spec.retryBase == spec.retryBase && db.jobs[j].spec.retryMax == spec.retryMax
  }

  /** A new key puts one fresh queued job into the tables, due at the given time or at once; a key that
      is taken stands for its own command only. */
  lemma ScheduleOutcome(db: Db, id: Id, spec: JobSpec, availableAt: Option<int>, runnable: bool)
    requires id !in db.jobs
    ensures var r := Execute(db, Schedule(id, spec, availableAt, runnable));
            var policy := 1 <= spec.maxAttempts <= 100 && 1 <= spec.retryBase <= spec.retryMax <= 86_400 && spec.task != None;
            && (r == Raised <==> !policy || (if KeyTaken(db, spec.key) then !Scheduled(db, spec) else !runnable))
            && (policy && KeyTaken(db, spec.key) && Scheduled(db, spec) ==> r == Done(db))
            && (policy && !KeyTaken(db, spec.key) && runnable ==>
                  r == Done(db.(jobs := db.jobs[id := Job(
                    spec, Queued, 0, if availableAt.Some? then availableAt.value else db.now, 0,
                    None, None, None, None, None, None, None, None)])))
  {
    assert KeyTaken(db, spec.key) <==> exists other <- db.jobs :: db.jobs[other].spec.key == spec.key;
    assert Scheduled(db, spec) <==> exists other <- db.jobs :: db.jobs[other].spec.key == spec.key && SameSchedule(db.jobs[other].spec, spec);
  }

  ghost predicate Due(db: Db, id: Id) {
    && id in db.jobs
    && var job := db.jobs[id];
    && job.spec.task != None && job.cancelRequestedAt == None
    && ((job.status == Queued && job.attemptCount < job.spec.maxAttempts && job.availableAt <= db.now)
        || (job.status == Running && job.currentLease.Some? && job.currentLease.value in db.leases
            && db.leases[job.currentLease.value].expiresAt <= db.now))
  }

  /** The lease that a running job points at. */
  ghost function Holder(db: Db, id: Id): Id
    requires id in db.jobs && db.jobs[id].currentLease.Some?
  {
    db.jobs[id].currentLease.value
  }

  lemma DueIsClaimable(db: Db, id: Id)
    requires Inv(db)
    ensures Due(db, id) <==> Claimable(db, id)
    ensures id in db.jobs ==> JobOk(db, id)
  {
    if id in db.jobs { assert JobOk(db, id); }
  }

  /** The claim of a due job. Its expired holder, if there is one, is superseded; the new lease has the
      next token and the next attempt, and the job points at it. */
  ghost predicate ClaimedAs(db: Db, db': Db, id: Id, lease: Id, worker: string, duration: int)
    requires id in db.jobs && (db.jobs[id].status.Running? ==> db.jobs[id].currentLease.Some? && Holder(db, id) in db.leases)
  {
    var job := db.jobs[id];
    var row := Lease(id, worker, job.attemptCount + 1, db.nextToken, job.spec.scope, db.now, db.now, db.now + duration,
                     job.checkpointVersion, None, None, None, 1);
    var freed := if job.status.Running?
                 then db.leases[Holder(db, id) := db.leases[Holder(db, id)].(releasedAt := Some(db.now), releaseReason := Some(SupersededLease))]
                 else db.leases;
    db' == db.(nextToken := db.nextToken + 1, leases := freed[lease := row],
               jobs := db.jobs[id := job.(status := Running, attemptCount := job.attemptCount + 1,
                                          currentLease := Some(lease), currentToken := Some(db.nextToken),
                                          leaseOwner := Some(worker), leaseExpiresAt := Some(db.now + duration),
                                          lastToken := Some(db.nextToken), lastError := None)])
  }

  /** An expired attempt that was the last one fails the job. */
  ghost predicate SpentAs(db: Db, db': Db, id: Id, code: string)
    requires id in db.jobs && db.jobs[id].currentLease.Some? && Holder(db, id) in db.leases
  {
    && Only(db, db', id, Holder(db, id))
    && db'.leases[Holder(db, id)] == db.leases[Holder(db, id)].(
         releasedAt := Some(db.now), releaseReason := Some(ExpiredLease), failureCode := Some(code))
    && db'.jobs[id] == Unpointed(db.jobs[id]).(status := Failed, lastError := Some(code), completedAt := Some(db.now))
  }

  lemma ClaimCommits(db: Db, id: Id, lease: Id, worker: string, duration: int)
    requires Inv(db) && lease !in db.leases
    ensures DoClaim(db, id, lease, worker, duration).Done? <==> Due(db, id) && SECOND <= duration <= 300 * SECOND
  {
    DueIsClaimable(db, id);
    ClaimPasses(db, id, lease, worker, duration);
    if Due(db, id) && ValidDuration(duration) && !(db.jobs[id].status.Running? && db.jobs[id].spec.maxAttempts <= db.jobs[id].attemptCount) {
      GrabPasses(db, id, lease, worker, duration);
      if db.jobs[id].status.Running? { ReleasePasses(db, id, SupersededLease, None); }
    }
  }

  lemma Spends(db: Db, id: Id, lease: Id, worker: string, duration: int)
    requires Inv(db) && DoClaim(db, id, lease, worker, duration).Done?
    requires id in db.jobs && db.jobs[id].status.Running? && db.jobs[id].spec.maxAttempts == db.jobs[id].attemptCount
    ensures JobOk(db, id) && SpentAs(db, DoClaim(db, id, lease, worker, duration).value, id, "LEASE_EXPIRED_ATTEMPTS_EXHAUSTED")
  {
    assert JobOk(db, id);
    ClaimWrites(db, id, lease, worker, duration);
  }

  lemma GrabbedAs(db: Db, id: Id, lease: Id, worker: string, duration: int)
    requires id in db.jobs && (db.jobs[id].status.Running? ==> ProjectsLease(db, id, db.jobs[id]))
    ensures var freed := Superseded(db, id);
            var row := NewLease(freed, id, worker, duration);
            ClaimedAs(db, Grabbed(freed, id, lease, row, ClaimedJob(db.jobs[id], lease, row)), id, lease, worker, duration)
  {
  }

  lemma Grabs(db: Db, id: Id, lease: Id, worker: string, duration: int)
    requires Inv(db) && DoClaim(db, id, lease, worker, duration).Done?
    requires id in db.jobs && !(db.jobs[id].status.Running? && db.jobs[id].spec.maxAttempts == db.jobs[id].attemptCount)
    ensures JobOk(db, id) && ClaimedAs(db, DoClaim(db, id, lease, worker, duration).value, id, lease, worker, duration)
  {
    assert JobOk(db, id);
    ClaimWrites(db, id, lease, worker, duration);
    GrabbedAs(db, id, lease, worker, duration);
  }

  /** A claim commits exactly for a due job and a duration between one second and five minutes. */
  lemma ClaimOutcome(db: Db, id: Id, lease: Id, worker: string, duration: int)
    requires Inv(db) && lease !in db.leases
    ensures var r := Execute(db, Claim(id, lease, worker, duration));
            && (r.Done? <==> Due(db, id) && SECOND <= duration <= 300 * SECOND)
            && (r.Done? ==>
                  if db.jobs[id].status.Running? && db.jobs[id].attemptCount == db.jobs[id].spec.maxAttempts
                  then SpentAs(db, r.value, id, "LEASE_EXPIRED_ATTEMPTS_EXHAUSTED")
                  else ClaimedAs(db, r.value, id, lease, worker, duration))
  {
    ClaimCommits(db, id, lease, worker, duration);
    if Due(db, id) && SECOND <= duration <= 300 * SECOND {
      if db.jobs[id].status.Running? && db.jobs[id].attemptCount == db.jobs[id].spec.maxAttempts {
        Spends(db, id, lease, worker, duration);
      } else {
        Grabs(db, id, lease, worker, duration);
      }
    }
  }

  ghost predicate Lapsed(db: Db, id: Id) {
    && id in db.jobs && db.jobs[id].status == Running
    && db.jobs[id].currentLease.Some? && Holder(db, id) in db.leases && db.leases[Holder(db, id)].expiresAt <= db.now
  }

  /** A lapsed attempt is cancelled when that was asked for, failed when it was the last, else queued again
      at once. */
  lemma RecoverOutcome(db: Db, id: Id)
    requires Inv(db)
    ensures var r := Execute(db, RecoverExpired(id));
            && (r.Done? <==> Lapsed(db, id))
            && (r.Done? ==>
                  var job := db.jobs[id];
                  var lease := db.leases[Holder(db, id)];
                  var reason := if job.cancelRequestedAt.Some? then CancelledLease else ExpiredLease;
                  var code := if job.cancelRequestedAt.Some? then "CANCELLATION_REQUESTED"
                              else if job.attemptCount == job.spec.maxAttempts then "LEASE_EXPIRED_ATTEMPTS_EXHAUSTED"
                              else "LEASE_EXPIRED";
                  var row := Unpointed(job).(lastError := Some(code));
                  && Only(db, r.value, id, Holder(db, id))
                  && r.value.leases[Holder(db, id)] == lease.(
                       releasedAt := Some(db.now), releaseReason := Some(reason), failureCode := Some(code))
                  && r.value.jobs[id] == if job.cancelRequestedAt.Some? then row.(status := Cancelled, completedAt := Some(db.now))
                                         else if job.attemptCount == job.spec.maxAttempts then row.(status := Failed, completedAt := Some(db.now))
                                         else row.(status := Queued, completedAt := None, availableAt := db.now))
  {
    if id in db.jobs { assert JobOk(db, id); }
    RecoverPasses(db, id);
    if DoRecover(db, id).Done? { RecoverWrites(db, id); }
  }
}
