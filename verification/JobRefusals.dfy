/** Each request that a trigger turns down, reached from empty tables by commands that all commit. */
module JobRefusals {
  import opened Wrappers
  import opened JobTables
  import opened JobService
  import opened JobInvariant
  import opened JobGuards

  /** Every command of the run commits. */
  ghost predicate AllCommit(db: Db, cs: seq<Command>)
    decreases |cs|
  {
    cs == [] || (Execute(db, cs[0]).Done? && AllCommit(Execute(db, cs[0]).value, cs[1..]))
  }

  /** The command comes refused after a run of commands that all commit. */
  ghost predicate RefusedAfter(db: Db, cs: seq<Command>, c: Command) {
    AllCommit(db, cs) && Execute(Run(db, cs), c).Refused?
  }

  /** The grant of the first lease of job 0, which belongs to task 0. */
  function FirstGrant(worker: string): Grant {
    Grant(0, 0, 0, worker, 1, 1)
  }

  function Started(spec: JobSpec, worker: string, duration: int): seq<Command> {
    [Schedule(0, spec, None, true), Claim(0, 0, worker, duration)]
  }

  predicate Startable(spec: JobSpec, duration: int) {
    ValidPolicy(spec) && spec.task == Some(0) && ValidDuration(duration)
  }

  function QueuedDb(now: int, spec: JobSpec): Db {
    Empty(now).(jobs := map[0 := NewJob(spec, now)])
  }

  function ClaimedDb(now: int, spec: JobSpec, worker: string, duration: int): Db {
    var job := NewJob(spec, now).(status := Running, attemptCount := 1, currentLease := Some(0), currentToken := Some(1),
                                  leaseOwner := Some(worker), leaseExpiresAt := Some(now + duration), lastToken := Some(1));
    Empty(now).(nextToken := 2, jobs := map[0 := job],
                leases := map[0 := Lease(0, worker, 1, 1, spec.scope, now, now, now + duration, 0, None, None, None, 1)])
  }

  lemma Queues(now: int, spec: JobSpec)
    requires ValidPolicy(spec) && spec.task.Some?
    ensures Execute(Empty(now), Schedule(0, spec, None, true)) == Done(QueuedDb(now, spec))
  {
  }

  lemma Claims(now: int, spec: JobSpec, worker: string, duration: int)
    requires Startable(spec, duration) && Inv(QueuedDb(now, spec))
    ensures Execute(QueuedDb(now, spec), Claim(0, 0, worker, duration)) == Done(ClaimedDb(now, spec, worker, duration))
  {
    var db := QueuedDb(now, spec);
    assert Superseded(db, 0) == db && JobOk(db, 0);
    LastAttemptIsCount(db, db, 0);
    InsertPasses(db, db, 0, 0, worker, duration);
    PointPasses(db, db, 0, 0, worker, duration);
    GrabDone(db, 0, 0, worker, duration);
    ClaimWrites(db, 0, 0, worker, duration);
    var row := NewLease(db, 0, worker, duration);
    assert db.leases[0 := row] == map[0 := row];
    assert db.jobs[0 := ClaimedJob(db.jobs[0], 0, row)] == map[0 := ClaimedJob(db.jobs[0], 0, row)];
  }

  /** The job is claimed, and its worker holds the lease until the duration is over. */
  lemma Starts(now: int, spec: JobSpec, worker: string, duration: int)
    requires Startable(spec, duration)
    ensures AllCommit(Empty(now), Started(spec, worker, duration))
    ensures Run(Empty(now), Started(spec, worker, duration)) == ClaimedDb(now, spec, worker, duration)
    ensures Inv(ClaimedDb(now, spec, worker, duration))
    ensures HoldsLease(ClaimedDb(now, spec, worker, duration), FirstGrant(worker))
  {
    var first, second := Schedule(0, spec, None, true), Claim(0, 0, worker, duration);
    EmptyInv(now);
    Queues(now, spec);
    ExecuteKeeps(Empty(now), first);
    Claims(now, spec, worker, duration);
    ExecuteKeeps(QueuedDb(now, spec), second);
    CommitAppends(Empty(now), [], first);
    CommitAppends(Empty(now), [first], second);
    assert [] + [first] == [first] && [first] + [second] == Started(spec, worker, duration);
  }

  /** Appending one committing command to a run of committing commands. */
  lemma {:induction false} CommitAppends(db: Db, cs: seq<Command>, c: Command)
    requires AllCommit(db, cs) && Execute(Run(db, cs), c).Done?
    ensures AllCommit(db, cs + [c]) && Run(db, cs + [c]) == Execute(Run(db, cs), c).value
    decreases |cs|
  {
    if cs == [] {
      assert cs + [c] == [c] && [c][1..] == [];
    } else {
      assert (cs + [c])[1..] == cs[1..] + [c];
      CommitAppends(Execute(db, cs[0]).value, cs[1..], c);
    }
  }

  /** A worker that holds its lease asks to pause the attempt. */
  lemma PauseRefusal(now: int, spec: JobSpec, worker: string, duration: int, code: string)
    requires Startable(spec, duration)
    ensures RefusedAfter(Empty(now), Started(spec, worker, duration), PauseAttempt(FirstGrant(worker), code))
  {
    Starts(now, spec, worker, duration);
    RefusedExactly(ClaimedDb(now, spec, worker, duration), PauseAttempt(FirstGrant(worker), code));
  }

  /** A worker asks for a longer lease in the instant it claimed the job. */
  lemma HeartbeatRefusal(now: int, spec: JobSpec, worker: string, duration: int, longer: int)
    requires Startable(spec, duration) && ValidDuration(longer)
    ensures RefusedAfter(Empty(now), Started(spec, worker, duration), Heartbeat(FirstGrant(worker), longer)) <==> duration < longer
  {
    Starts(now, spec, worker, duration);
    RefusedExactly(ClaimedDb(now, spec, worker, duration), Heartbeat(FirstGrant(worker), longer));
  }

  /** A task is cancelled some time after its job was claimed: refused once the lease has expired. */
  lemma CancelRefusal(now: int, spec: JobSpec, worker: string, duration: int, wait: nat)
    requires Startable(spec, duration)
    ensures RefusedAfter(Empty(now), Started(spec, worker, duration) + [Tick(wait)], CancelTask(0, [0])) <==> duration <= wait
  {
    Starts(now, spec, worker, duration);
    CancelLater(Empty(now), Started(spec, worker, duration), wait);
  }

  /** With one job in the tables, running and not marked, its task cannot be cancelled any more once its
      lease has expired. */
  lemma {:induction false} CancelLater(start: Db, cs: seq<Command>, wait: nat)
    requires AllCommit(start, cs) && Inv(Run(start, cs)) && OneRunning(Run(start, cs))
    ensures var db := Run(start, cs);
            RefusedAfter(start, cs + [Tick(wait)], CancelTask(0, [0])) <==> db.jobs[0].leaseExpiresAt.value <= db.now + wait
  {
    var db := Run(start, cs);
    Ticks(db, wait);
    CommitAppends(start, cs, Tick(wait));
    RefusedThere(start, cs + [Tick(wait)], db.(now := db.now + wait), CancelTask(0, [0]));
    CancelWaits(db, wait, db.(now := db.now + wait));
  }

  lemma Ticks(db: Db, wait: nat)
    ensures Execute(db, Tick(wait)) == Done(db.(now := db.now + wait))
  {
  }

  lemma {:induction false} RefusedThere(start: Db, cs: seq<Command>, db: Db, c: Command)
    requires AllCommit(start, cs) && Run(start, cs) == db
    ensures RefusedAfter(start, cs, c) <==> Execute(db, c).Refused?
  {
  }

  lemma CancelWaits(db: Db, wait: nat, later: Db)
    requires Inv(db) && OneRunning(db) && later == db.(now := db.now + wait)
    ensures Execute(later, CancelTask(0, [0])).Refused? <==> db.jobs[0].leaseExpiresAt.value <= later.now
  {
    TickKeeps(db, wait);
    CancelVerdict(later);
  }

  ghost predicate OneRunning(db: Db) {
    && db.jobs.Keys == {0} && db.jobs[0].spec.task == Some(0) && db.jobs[0].status.Running?
    && db.jobs[0].cancelRequestedAt.None? && db.jobs[0].leaseExpiresAt.Some?
  }

  lemma CancelVerdict(db: Db)
    requires Inv(db) && OneRunning(db)
    ensures Execute(db, CancelTask(0, [0])).Refused? <==> CancelBlocked(db, 0)
  {
    RefusedExactly(db, CancelTask(0, [0]));
    assert ListsJobsOf(db, 0, [0]);
    if CancelBlocked(db, 0) { assert CancelBlocked(db, [0][0]); }
  }
}
