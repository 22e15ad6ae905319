/** What the triggers of the job tables keep on their own: any sequence of row writes, from the service or from
    anybody else, each refused or let through by the guard of its table alone. */
module JobTriggers {
  import opened Wrappers
  import opened JobTables
  import opened JobService

  /** One row write, or the passing of time. Rows are never deleted. */
  datatype Write =
    | NewJob(id: Id, job: Job)
    | ChangeJob(id: Id, job: Job)
    | NewLease(id: Id, lease: Lease)
    | ChangeLease(id: Id, lease: Lease)
    | NewCheckpoint(id: Id, sequence: int, checkpoint: Checkpoint)
    | NewEffect(id: Id, effect: Effect)
    | ChangeEffect(id: Id, effect: Effect)
    | NewTransition(event: Id, transition: TaskTransition)
    | NewIgnored(key: string, result: IgnoredResult)
    | NewOutage(id: Id, attempt: int, outage: Outage)
    | NewCounter(next: int)
    | Wait(seconds: nat)

  function Written(db: Db, w: Write): Outcome<Db> {
    match w
    case NewJob(id, job) => InsertJob(db, id, job)
    case ChangeJob(id, job) => UpdateJob(db, id, job)
    case NewLease(id, lease) => InsertLease(db, id, lease)
    case ChangeLease(id, lease) => UpdateLease(db, id, lease)
    case NewCheckpoint(id, sequence, row) => InsertCheckpoint(db, id, sequence, row)
    case NewEffect(id, effect) => InsertEffect(db, id, effect)
    case ChangeEffect(id, effect) => UpdateEffect(db, id, effect)
    case NewTransition(event, row) => InsertTransition(db, event, row)
    case NewIgnored(key, row) => InsertIgnored(db, key, row)
    case NewOutage(id, attempt, row) => InsertOutage(db, id, attempt, row)
    case NewCounter(next) => UpdateCounter(db, next)
    case Wait(seconds) => Done(db.(now := db.now + seconds))
  }

  function After(db: Db, w: Write): Db {
    var r := Written(db, w);
    if r.Done? then r.value else db
  }

  function Writes(db: Db, ws: seq<Write>): Db
    decreases |ws|
  {
    if ws == [] then db else Writes(After(db, ws[0]), ws[1..])
  }

  // ----- what only moves on

  ghost predicate JobKept(before: Job, after: Job) {
    && after.spec == before.spec && before.attemptCount <= after.attemptCount
    && before.checkpointVersion <= after.checkpointVersion
    && (Terminal(before.status) ==> after == before)
  }

  /** A lease keeps its identity and its release; its times only grow, and not once it has expired. */
  ghost predicate LeaseKept(now: int, before: Lease, after: Lease) {
    && after.job == before.job && after.owner == before.owner && after.attempt == before.attempt
    && after.token == before.token && after.scope == before.scope && after.protocol == before.protocol
    && before.heartbeatAt <= after.heartbeatAt && before.expiresAt <= after.expiresAt
    && (before.releasedAt.Some? ==> after.releasedAt == before.releasedAt && after.releaseReason == before.releaseReason)
    && (before.releasedAt.Some? || before.expiresAt <= now ==>
          after.heartbeatAt == before.heartbeatAt && after.expiresAt == before.expiresAt)
  }

  ghost predicate EffectKept(before: Effect, after: Effect) {
    && after.job == before.job && after.kind == before.kind && after.key == before.key && after.request == before.request
    && after.startedLease == before.startedLease && after.startedToken == before.startedToken && after.scope == before.scope
    && (!before.status.Pending? ==> after == before)
  }

  ghost predicate RowsKept<K, R(!new)>(before: map<K, R>, after: map<K, R>) {
    forall k <- before :: k in after && after[k] == before[k]
  }

  ghost predicate AppendOnly(db: Db, db': Db) {
    && RowsKept(db.checkpoints, db'.checkpoints) && RowsKept(db.transitions, db'.transitions)
    && RowsKept(db.ignored, db'.ignored) && RowsKept(db.outages, db'.outages)
  }

  ghost predicate Forward(db: Db, db': Db) {
    && db.now <= db'.now && db.nextToken <= db'.nextToken && AppendOnly(db, db')
    && (forall j <- db.jobs :: j in db'.jobs && JobKept(db.jobs[j], db'.jobs[j]))
    && (forall l <- db.leases :: l in db'.leases && LeaseKept(db.now, db.leases[l], db'.leases[l]))
    && (forall e <- db.effects :: e in db'.effects && EffectKept(db.effects[e], db'.effects[e]))
  }

  lemma JobUpdateForward(db: Db, id: Id, job: Job)
    requires UpdateJob(db, id, job).Done?
    ensures Forward(db, UpdateJob(db, id, job).value)
  {
    assert JobKept(db.jobs[id], job);
  }

  lemma LeaseUpdateForward(db: Db, id: Id, lease: Lease)
    requires UpdateLease(db, id, lease).Done?
    ensures Forward(db, UpdateLease(db, id, lease).value)
  {
    assert LeaseKept(db.now, db.leases[id], lease);
  }

  lemma EffectUpdateForward(db: Db, id: Id, effect: Effect)
    requires UpdateEffect(db, id, effect).Done?
    ensures Forward(db, UpdateEffect(db, id, effect).value)
  {
    assert EffectKept(db.effects[id], effect);
  }

  /** The rows of the three tables that are updated in place stay as they are. */
  ghost predicate SameRows(db: Db, db': Db) {
    RowsKept(db.jobs, db'.jobs) && RowsKept(db.leases, db'.leases) && RowsKept(db.effects, db'.effects)
  }

  lemma SameForward(db: Db, db': Db)
    requires SameRows(db, db') && db.now <= db'.now && db.nextToken <= db'.nextToken && AppendOnly(db, db')
    ensures Forward(db, db')
  {
  }

  lemma RowInsertForward(db: Db, w: Write)
    requires w.NewJob? || w.NewLease? || w.NewEffect?
    ensures Forward(db, After(db, w))
  {
    hide Forward, JobShape;
    SameForward(db, After(db, w));
  }

  lemma AppendForward(db: Db, w: Write)
    requires w.NewCheckpoint? || w.NewTransition? || w.NewIgnored? || w.NewOutage?
    ensures Forward(db, After(db, w))
  {
    SameForward(db, After(db, w));
  }

  lemma WriteForward(db: Db, w: Write)
    ensures Forward(db, After(db, w))
  {
    if Written(db, w).Done? {
      match w
      case ChangeJob(id, job) => JobUpdateForward(db, id, job);
      case ChangeLease(id, lease) => LeaseUpdateForward(db, id, lease);
      case ChangeEffect(id, effect) => EffectUpdateForward(db, id, effect);
      case NewCounter(_) => SameForward(db, After(db, w));
      case Wait(_) => SameForward(db, After(db, w));
      case _ => if w.NewJob? || w.NewLease? || w.NewEffect? { RowInsertForward(db, w); } else { AppendForward(db, w); }
    }
  }

  lemma ForwardTransitive(a: Db, b: Db, c: Db)
    requires Forward(a, b) && Forward(b, c)
    ensures Forward(a, c)
  {
    forall j <- a.jobs ensures j in c.jobs && JobKept(a.jobs[j], c.jobs[j]) {
      assert JobKept(a.jobs[j], b.jobs[j]) && JobKept(b.jobs[j], c.jobs[j]);
    }
    forall l <- a.leases ensures l in c.leases && LeaseKept(a.now, a.leases[l], c.leases[l]) {
      assert LeaseKept(a.now, a.leases[l], b.leases[l]) && LeaseKept(b.now, b.leases[l], c.leases[l]);
    }
    forall e <- a.effects ensures e in c.effects && EffectKept(a.effects[e], c.effects[e]) {
      assert EffectKept(a.effects[e], b.effects[e]) && EffectKept(b.effects[e], c.effects[e]);
    }
  }

  /** Whoever writes: finished jobs, released leases, finished effects and the appended tables are final, and
      attempts, versions, tokens and times only grow. */
  lemma {:induction false} OnlyForward(db: Db, ws: seq<Write>)
    ensures Forward(db, Writes(db, ws))
    decreases |ws|
  {
    if ws != [] {
      WriteForward(db, ws[0]);
      OnlyForward(After(db, ws[0]), ws[1..]);
      ForwardTransitive(db, After(db, ws[0]), Writes(db, ws));
    }
  }

  // ----- a lease that is over

  ghost predicate Spent(db: Db, l: Id) {
    l in db.leases && (db.leases[l].releasedAt.Some? || db.leases[l].expiresAt <= db.now)
  }

  /** The lease gets no checkpoint, starts no effect, finishes no pending one and moves no task. */
  ghost predicate NothingUnder(db: Db, db': Db, l: Id) {
    && (forall k <- db'.checkpoints :: db'.checkpoints[k].lease == l ==> k in db.checkpoints)
    && (forall e <- db'.transitions :: db'.transitions[e].lease == l ==> e in db.transitions)
    && (forall e <- db'.effects :: db'.effects[e].startedLease == l ==> e in db.effects)
    && (forall e <- db'.effects :: e in db.effects && db'.effects[e].completionLease == Some(l) ==> db'.effects[e] == db.effects[e])
  }

  lemma SpentStep(db: Db, w: Write, l: Id)
    requires Spent(db, l)
    ensures Spent(After(db, w), l) && NothingUnder(db, After(db, w), l)
  {
    WriteForward(db, w);
    assert LeaseKept(db.now, db.leases[l], After(db, w).leases[l]);
    SpentWrites(db, w, l);
  }

  lemma SpentWrites(db: Db, w: Write, l: Id)
    requires Spent(db, l)
    ensures NothingUnder(db, After(db, w), l)
  {
    hide Spent;
    if Written(db, w).Done? {
      match w
      case NewCheckpoint(id, sequence, row) => SpentCheckpoint(db, id, sequence, row, l);
      case NewEffect(id, effect) => SpentEffect(db, id, effect, l);
      case ChangeEffect(id, effect) => FinishedElsewhere(db, id, effect, l);
      case NewTransition(event, row) => SpentTransition(db, event, row, l);
      case _ => NothingWritten(db, After(db, w), l);
    }
  }

  lemma NothingWritten(db: Db, db': Db, l: Id)
    requires db'.checkpoints == db.checkpoints && db'.effects == db.effects && db'.transitions == db.transitions
    ensures NothingUnder(db, db', l)
  {
  }

  lemma SpentCheckpoint(db: Db, id: Id, sequence: int, row: Checkpoint, l: Id)
    requires Spent(db, l) && InsertCheckpoint(db, id, sequence, row).Done?
    ensures NothingUnder(db, InsertCheckpoint(db, id, sequence, row).value, l)
  {
  }

  lemma SpentEffect(db: Db, id: Id, effect: Effect, l: Id)
    requires Spent(db, l) && InsertEffect(db, id, effect).Done?
    ensures NothingUnder(db, InsertEffect(db, id, effect).value, l)
  {
  }

  lemma SpentTransition(db: Db, event: Id, row: TaskTransition, l: Id)
    requires Spent(db, l) && InsertTransition(db, event, row).Done?
    ensures NothingUnder(db, InsertTransition(db, event, row).value, l)
  {
  }

  lemma FinishedElsewhere(db: Db, id: Id, effect: Effect, l: Id)
    requires Spent(db, l) && UpdateEffect(db, id, effect).Done?
    ensures NothingUnder(db, UpdateEffect(db, id, effect).value, l)
  {
  }

  lemma NothingUnderTransitive(a: Db, b: Db, c: Db, l: Id)
    requires NothingUnder(a, b, l) && NothingUnder(b, c, l) && Forward(a, b) && Forward(b, c)
    ensures NothingUnder(a, c, l)
  {
    forall e <- a.effects ensures c.effects[e].completionLease == Some(l) ==> c.effects[e] == a.effects[e] {
      assert e in b.effects && e in c.effects;
    }
  }

  /** Whoever writes: nothing is ever recorded again under a lease that was released or has expired. */
  lemma {:induction false} SpentForever(db: Db, ws: seq<Write>, l: Id)
    requires Spent(db, l)
    ensures Spent(Writes(db, ws), l) && NothingUnder(db, Writes(db, ws), l)
    decreases |ws|
  {
    if ws != [] {
      SpentStep(db, ws[0], l);
      SpentForever(After(db, ws[0]), ws[1..], l);
      WriteForward(db, ws[0]);
      OnlyForward(After(db, ws[0]), ws[1..]);
      NothingUnderTransitive(db, After(db, ws[0]), Writes(db, ws), l);
    }
  }

  /** The guards look at the lease that starts an effect only: whenever one may be inserted as pending, it may be
      inserted as finished under any lease of its job, even a spent one. */
  lemma BornFinished(db: Db, id: Id, effect: Effect, l: Id, result: string)
    requires effect.status.Pending? && InsertEffect(db, id, effect).Done?
    requires l in db.leases && db.leases[l].job == effect.job
    ensures InsertEffect(db, id, effect.(status := EffectSucceeded, completionLease := Some(l),
                                         completionToken := Some(db.leases[l].token), result := Some(result))).Done?
  {
  }

  // ----- what is distinct

  ghost predicate LeaseDistinct(db: Db, l: Id, m: Id)
    requires l in db.leases && m in db.leases
  {
    l != m ==>
      && db.leases[l].token != db.leases[m].token
      && (db.leases[l].job == db.leases[m].job ==> db.leases[l].attempt != db.leases[m].attempt)
  }

  ghost predicate LeaseNumbered(db: Db, l: Id)
    requires l in db.leases
  {
    var row := db.leases[l];
    && 0 < row.token && row.heartbeatAt < row.expiresAt && (row.releasedAt.Some? <==> row.releaseReason.Some?)
    && row.job in db.jobs && row.scope == db.jobs[row.job].spec.scope && db.jobs[row.job].spec.task.Some?
    && 1 <= row.attempt <= db.jobs[row.job].attemptCount + 1 && row.attempt <= db.jobs[row.job].spec.maxAttempts
  }

  ghost predicate Keyed(db: Db) {
    && (forall i, j :: i in db.jobs && j in db.jobs && i != j ==> db.jobs[i].spec.key != db.jobs[j].spec.key)
    && (forall i, j :: i in db.effects && j in db.effects && i != j ==> db.effects[i].key != db.effects[j].key)
    && (forall i, j :: i in db.checkpoints && j in db.checkpoints && i != j ==> db.checkpoints[i].key != db.checkpoints[j].key)
  }

  ghost predicate Ordered(db: Db) {
    && Keyed(db)
    && (forall j <- db.jobs :: JobShape(db.jobs[j]))
    && (forall l <- db.leases :: LeaseNumbered(db, l))
    && (forall l, m :: l in db.leases && m in db.leases ==> LeaseDistinct(db, l, m))
    && (forall e <- db.effects :: CompletionShape(db.effects[e]))
    && (forall k <- db.checkpoints :: 0 < k.1 && 0 < db.checkpoints[k].token)
  }

  lemma JobUpdateShaped(db: Db, id: Id, job: Job)
    requires id in db.jobs && JobShape(db.jobs[id]) && JobUpdateGuard(db, id, db.jobs[id], job)
    ensures JobShape(job) && job.spec == db.jobs[id].spec && db.jobs[id].attemptCount <= job.attemptCount
  {
  }

  lemma JobUpdateOrdered(db: Db, id: Id, job: Job)
    requires Ordered(db) && UpdateJob(db, id, job).Done?
    ensures Ordered(UpdateJob(db, id, job).value)
  {
    hide JobUpdateGuard;
    var db' := UpdateJob(db, id, job).value;
    JobUpdateShaped(db, id, job);
    forall l <- db'.leases ensures LeaseNumbered(db', l) { assert LeaseNumbered(db, l); }
    forall l, m | l in db'.leases && m in db'.leases ensures LeaseDistinct(db', l, m) { assert LeaseDistinct(db, l, m); }
  }

  lemma JobInsertOrdered(db: Db, id: Id, job: Job)
    requires Ordered(db) && InsertJob(db, id, job).Done?
    ensures Ordered(InsertJob(db, id, job).value)
  {
    var db' := InsertJob(db, id, job).value;
    forall l <- db'.leases ensures LeaseNumbered(db', l) { assert LeaseNumbered(db, l); }
    forall l, m | l in db'.leases && m in db'.leases ensures LeaseDistinct(db', l, m) { assert LeaseDistinct(db, l, m); }
  }

  lemma LeaseInsertOrdered(db: Db, id: Id, lease: Lease)
    requires Ordered(db) && InsertLease(db, id, lease).Done?
    ensures Ordered(InsertLease(db, id, lease).value)
  {
    var db' := InsertLease(db, id, lease).value;
    forall l <- db'.leases ensures LeaseNumbered(db', l) { if l != id { assert LeaseNumbered(db, l); } }
    forall l, m | l in db'.leases && m in db'.leases ensures LeaseDistinct(db', l, m) {
      if l != id && m != id { assert LeaseDistinct(db, l, m); }
    }
  }

  lemma LeaseUpdateOrdered(db: Db, id: Id, lease: Lease)
    requires Ordered(db) && UpdateLease(db, id, lease).Done?
    ensures Ordered(UpdateLease(db, id, lease).value)
  {
    var db' := UpdateLease(db, id, lease).value;
    LeaseUpdateForward(db, id, lease);
    assert LeaseKept(db.now, db.leases[id], lease);
    forall l <- db'.leases ensures LeaseNumbered(db', l) { assert LeaseNumbered(db, l); }
    forall l, m | l in db'.leases && m in db'.leases ensures LeaseDistinct(db', l, m) { assert LeaseDistinct(db, l, m); }
  }

  /** Other writes leave jobs and leases alone. */
  lemma SameOrdered(db: Db, db': Db)
    requires Ordered(db) && db'.jobs == db.jobs && db'.leases == db.leases && Keyed(db')
    requires forall e <- db'.effects :: CompletionShape(db'.effects[e])
    requires forall k <- db'.checkpoints :: 0 < k.1 && 0 < db'.checkpoints[k].token
    ensures Ordered(db')
  {
    forall l <- db'.leases ensures LeaseNumbered(db', l) { assert LeaseNumbered(db, l); }
    forall l, m | l in db'.leases && m in db'.leases ensures LeaseDistinct(db', l, m) { assert LeaseDistinct(db, l, m); }
  }

  lemma CheckpointOrdered(db: Db, id: Id, sequence: int, row: Checkpoint)
    requires Ordered(db) && InsertCheckpoint(db, id, sequence, row).Done?
    ensures Ordered(InsertCheckpoint(db, id, sequence, row).value)
  {
    SameOrdered(db, InsertCheckpoint(db, id, sequence, row).value);
  }

  lemma EffectInsertOrdered(db: Db, id: Id, effect: Effect)
    requires Ordered(db) && InsertEffect(db, id, effect).Done?
    ensures Ordered(InsertEffect(db, id, effect).value)
  {
    SameOrdered(db, InsertEffect(db, id, effect).value);
  }

  lemma EffectUpdateOrdered(db: Db, id: Id, effect: Effect)
    requires Ordered(db) && UpdateEffect(db, id, effect).Done?
    ensures Ordered(UpdateEffect(db, id, effect).value)
  {
    SameOrdered(db, UpdateEffect(db, id, effect).value);
  }

  lemma OtherSame(db: Db, w: Write)
    requires w.NewTransition? || w.NewIgnored? || w.NewOutage? || w.NewCounter? || w.Wait?
    ensures var db' := After(db, w);
            db'.jobs == db.jobs && db'.leases == db.leases && db'.effects == db.effects && db'.checkpoints == db.checkpoints
  {
  }

  lemma OtherOrdered(db: Db, w: Write)
    requires Ordered(db) && (w.NewTransition? || w.NewIgnored? || w.NewOutage? || w.NewCounter? || w.Wait?)
    ensures Ordered(After(db, w))
  {
    hide LeaseDistinct, LeaseNumbered, JobShape, After;
    OtherSame(db, w);
    SameOrdered(db, After(db, w));
  }

  lemma WriteOrdered(db: Db, w: Write)
    requires Ordered(db)
    ensures Ordered(After(db, w))
  {
    hide Ordered;
    if Written(db, w).Done? {
      match w
      case NewJob(id, job) => JobInsertOrdered(db, id, job);
      case ChangeJob(id, job) => JobUpdateOrdered(db, id, job);
      case NewLease(id, lease) => LeaseInsertOrdered(db, id, lease);
      case ChangeLease(id, lease) => LeaseUpdateOrdered(db, id, lease);
      case NewCheckpoint(id, sequence, row) => CheckpointOrdered(db, id, sequence, row);
      case NewEffect(id, effect) => EffectInsertOrdered(db, id, effect);
      case ChangeEffect(id, effect) => EffectUpdateOrdered(db, id, effect);
      case _ => OtherOrdered(db, w);
    }
  }

  /** Whoever writes, from empty tables: no two leases share a token or an attempt of a job, no job uses more
      attempts than it has, every key is unique and every row keeps its shape. */
  lemma {:induction false} OrderedAlways(db: Db, ws: seq<Write>)
    requires Ordered(db)
    ensures Ordered(Writes(db, ws))
    decreases |ws|
  {
    if ws != [] {
      WriteOrdered(db, ws[0]);
      OrderedAlways(After(db, ws[0]), ws[1..]);
    }
  }

  lemma {:induction false} OrderedFromEmpty(now: int, ws: seq<Write>)
    ensures Ordered(Writes(Empty(now), ws))
  {
    OrderedAlways(Empty(now), ws);
  }

  // ----- what the rows name

  /** A job, and a lease of it with this token. */
  ghost predicate Names(db: Db, j: Id, l: Id, token: int) {
    j in db.jobs && l in db.leases && db.leases[l].job == j && db.leases[l].token == token
  }

  ghost predicate CheckpointBound(db: Db, k: (Id, int))
    requires k in db.checkpoints
  {
    var row := db.checkpoints[k];
    Names(db, k.0, row.lease, row.token) && row.scope == db.jobs[k.0].spec.scope
  }

  ghost predicate EffectBound(db: Db, e: Id)
    requires e in db.effects
  {
    var row := db.effects[e];
    Names(db, row.job, row.startedLease, row.startedToken) && row.scope == db.jobs[row.job].spec.scope
  }

  ghost predicate TransitionBound(db: Db, e: Id)
    requires e in db.transitions
  {
    var row := db.transitions[e];
    && Names(db, row.job, row.lease, row.token)
    && row.scope == db.jobs[row.job].spec.scope && db.jobs[row.job].spec.task == Some(row.task)
  }

  ghost predicate IgnoredBound(db: Db, key: string)
    requires key in db.ignored
  {
    var row := db.ignored[key];
    Names(db, row.job, row.lease, row.token) && (row.effect.Some? ==> row.effect.value in db.effects)
  }

  ghost predicate OutageBound(db: Db, k: (Id, int))
    requires k in db.outages
  {
    var row := db.outages[k];
    Names(db, k.0, row.lease, row.token) && db.leases[row.lease].attempt == k.1
  }

  ghost predicate Bound(db: Db) {
    && (forall k <- db.checkpoints :: CheckpointBound(db, k)) && (forall e <- db.effects :: EffectBound(db, e))
    && (forall e <- db.transitions :: TransitionBound(db, e)) && (forall key <- db.ignored :: IgnoredBound(db, key))
    && (forall k <- db.outages :: OutageBound(db, k))
  }

  lemma NamesKept(db: Db, db': Db, j: Id, l: Id, token: int)
    requires Names(db, j, l, token) && Forward(db, db')
    ensures Names(db', j, l, token) && db'.jobs[j].spec == db.jobs[j].spec && db'.leases[l].attempt == db.leases[l].attempt
  {
    assert JobKept(db.jobs[j], db'.jobs[j]) && LeaseKept(db.now, db.leases[l], db'.leases[l]);
  }

  /** What a row names stays. */
  lemma BoundKept(db: Db, db': Db)
    requires Bound(db) && Forward(db, db')
    ensures forall k <- db.checkpoints :: k in db'.checkpoints && CheckpointBound(db', k)
    ensures forall e <- db.effects :: e in db'.effects && EffectBound(db', e)
    ensures forall e <- db.transitions :: e in db'.transitions && TransitionBound(db', e)
    ensures forall key <- db.ignored :: key in db'.ignored && IgnoredBound(db', key)
    ensures forall k <- db.outages :: k in db'.outages && OutageBound(db', k)
  {
    hide JobKept, LeaseKept, Names;
    forall k <- db.checkpoints ensures k in db'.checkpoints && CheckpointBound(db', k) {
      assert CheckpointBound(db, k);
      NamesKept(db, db', k.0, db.checkpoints[k].lease, db.checkpoints[k].token);
    }
    forall e <- db.effects ensures e in db'.effects && EffectBound(db', e) {
      assert EffectBound(db, e) && EffectKept(db.effects[e], db'.effects[e]);
      NamesKept(db, db', db.effects[e].job, db.effects[e].startedLease, db.effects[e].startedToken);
    }
    forall e <- db.transitions ensures e in db'.transitions && TransitionBound(db', e) {
      assert TransitionBound(db, e);
      NamesKept(db, db', db.transitions[e].job, db.transitions[e].lease, db.transitions[e].token);
    }
    forall key <- db.ignored ensures key in db'.ignored && IgnoredBound(db', key) {
      assert IgnoredBound(db, key);
      NamesKept(db, db', db.ignored[key].job, db.ignored[key].lease, db.ignored[key].token);
    }
    forall k <- db.outages ensures k in db'.outages && OutageBound(db', k) {
      assert OutageBound(db, k);
      NamesKept(db, db', k.0, db.outages[k].lease, db.outages[k].token);
    }
  }

  /** Only the row of this write is new. */
  lemma NewRows(db: Db, w: Write)
    requires Written(db, w).Done?
    ensures var db' := After(db, w);
            && (forall k <- db'.checkpoints :: k in db.checkpoints || (w.NewCheckpoint? && k == (w.id, w.sequence)))
            && (forall e <- db'.effects :: e in db.effects || (w.NewEffect? && e == w.id))
            && (forall e <- db'.transitions :: e in db.transitions || (w.NewTransition? && e == w.event))
            && (forall key <- db'.ignored :: key in db.ignored || (w.NewIgnored? && key == w.key))
            && (forall k <- db'.outages :: k in db.outages || (w.NewOutage? && k == (w.id, w.attempt)))
  {
  }

  lemma NewRowBound(db: Db, w: Write)
    requires Written(db, w).Done?
    ensures var db' := After(db, w);
            && (w.NewCheckpoint? ==> (w.id, w.sequence) in db'.checkpoints && CheckpointBound(db', (w.id, w.sequence)))
            && (w.NewEffect? ==> w.id in db'.effects && EffectBound(db', w.id))
            && (w.NewTransition? ==> w.event in db'.transitions && TransitionBound(db', w.event))
            && (w.NewIgnored? ==> w.key in db'.ignored && IgnoredBound(db', w.key))
            && (w.NewOutage? ==> (w.id, w.attempt) in db'.outages && OutageBound(db', (w.id, w.attempt)))
  {
  }

  lemma WriteBound(db: Db, w: Write)
    requires Bound(db)
    ensures Bound(After(db, w))
  {
    hide Forward, CheckpointBound, EffectBound, TransitionBound, IgnoredBound, OutageBound;
    if Written(db, w).Done? {
      WriteForward(db, w);
      BoundKept(db, After(db, w));
      NewRows(db, w);
      NewRowBound(db, w);
    }
  }

  /** Whoever writes, from empty tables: every row names a lease of its own job by its token, and has the scope,
      the task and the attempt of what it names. */
  lemma {:induction false} BoundAlways(db: Db, ws: seq<Write>)
    requires Bound(db)
    ensures Bound(Writes(db, ws))
    decreases |ws|
  {
    if ws != [] {
      WriteBound(db, ws[0]);
      BoundAlways(After(db, ws[0]), ws[1..]);
    }
  }

  lemma {:induction false} BoundFromEmpty(now: int, ws: seq<Write>)
    ensures Bound(Writes(Empty(now), ws))
  {
    BoundAlways(Empty(now), ws);
  }

  // ----- how a job may move

  /** The release that lets a job leave its lease for this status. */
  predicate LeavesAs(now: int, status: Status, cancelled: bool, lease: Lease) {
    match status
    case Queued =>
      || (lease.releaseReason == Some(RetryLease) && now < lease.expiresAt)
      || (lease.releaseReason == Some(ExpiredLease) && lease.expiresAt <= now && !cancelled)
    case Succeeded => lease.releaseReason == Some(SucceededLease) && now < lease.expiresAt
    case Failed =>
      || (lease.releaseReason == Some(FailedLease) && now < lease.expiresAt)
      || (lease.releaseReason == Some(ExpiredLease) && lease.expiresAt <= now)
    case Cancelled => lease.releaseReason == Some(CancelledLease) && cancelled
    case Running => lease.releasedAt.None? && now < lease.expiresAt
  }

  /** Whoever updates a job row: it is queued or running before; a new attempt starts it from the queue or takes it
      from an expired holder under a later token; otherwise a queued job is cancelled on request and a running one
      stays in its lease or leaves it as that lease was released; and a running job projects a lease of its own. */
  lemma JobEdgeTable(db: Db, id: Id, job: Job)
    requires UpdateJob(db, id, job).Done?
    ensures var prior := db.jobs[id];
            && !Terminal(prior.status)
            && (job.attemptCount != prior.attemptCount ==>
                  && job.attemptCount == prior.attemptCount + 1 && job.status.Running? && job.lastToken == job.currentToken
                  && (prior.status.Running? ==>
                        && prior.leaseExpiresAt.Some? && prior.leaseExpiresAt.value <= db.now
                        && prior.currentToken.Some? && prior.currentToken.value < job.currentToken.value))
            && (job.attemptCount == prior.attemptCount && prior.status.Queued? ==>
                  job.status.Cancelled? && job.cancelRequestedAt.Some? && job.lastToken == prior.lastToken)
            && (job.attemptCount == prior.attemptCount && prior.status.Running? ==>
                  && prior.currentLease.Some? && prior.currentLease.value in db.leases && job.lastToken == prior.currentToken
                  && LeavesAs(db.now, job.status, job.cancelRequestedAt.Some?, db.leases[prior.currentLease.value]))
    ensures job.currentLease.Some? <==> job.status.Running?
    ensures job.completedAt.Some? <==> Terminal(job.status)
    ensures job.status.Running? ==>
              && job.currentLease.value in db.leases
              && var lease := db.leases[job.currentLease.value];
                 lease.job == id && lease.releasedAt.None? && job.currentToken == Some(lease.token)
                 && job.leaseOwner == Some(lease.owner) && job.leaseExpiresAt == Some(lease.expiresAt)
  {
    var prior := db.jobs[id];
    assert JobEdge(db, id, prior, job) && StatusShape(job) && LeaseColumnsShape(job);
  }

  /** Whoever inserts a lease: it is the next attempt of a job that is due, has attempts left and was not cancelled,
      and it is not over yet. */
  lemma LeaseBorn(db: Db, id: Id, lease: Lease)
    requires InsertLease(db, id, lease).Done?
    ensures lease.job in db.jobs && lease.heartbeatAt < lease.expiresAt && db.now < lease.expiresAt
    ensures var job := db.jobs[lease.job];
            && lease.attempt == job.attemptCount + 1 <= job.spec.maxAttempts
            && job.cancelRequestedAt.None? && !Terminal(job.status)
            && (job.status.Queued? ==> job.availableAt <= db.now)
            && (job.status.Running? ==> job.leaseExpiresAt.Some? && job.leaseExpiresAt.value <= db.now)
  {
  }

  /** Whoever extends a lease: it is the unreleased, unexpired lease that its running job points at, and it beats. */
  lemma LeaseExtended(db: Db, id: Id, lease: Lease)
    requires UpdateLease(db, id, lease).Done? && lease.expiresAt != db.leases[id].expiresAt
    ensures var prior := db.leases[id];
            && prior.releasedAt.None? && db.now < prior.expiresAt < lease.expiresAt && prior.heartbeatAt < lease.heartbeatAt
            && prior.job in db.jobs && db.jobs[prior.job].status.Running? && db.jobs[prior.job].currentLease == Some(id)
            && db.jobs[prior.job].currentToken == Some(prior.token) && db.jobs[prior.job].leaseOwner == Some(prior.owner)
  {
  }
}
