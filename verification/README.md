# Control-plane protocols, modelled and proved

A Dafny model of the state-carrying protocols of the control plane and of the pure codecs and checks beside
them, with proofs of what they keep over every run.

- `JobTables`, `JobService`, `JobStore`: the tables of the background-job loop with the trigger of each row
  write, the transactions of the service as chains of guarded writes, and the same transactions as methods of a
  store that updates its tables in place. `JobInvariant`, `JobFencing`, `JobGuards`: what every transaction keeps,
  fencing over whole runs, and exactly which requests a trigger refuses. `JobPointers`: how little of the
  invariant fencing needs. `JobRefusals`: the refused requests reached from empty tables. `JobOutcomes`,
  `JobProgress`: what each transaction leaves, column by column. `JobTriggers`: what the triggers keep on their own,
  against any writer. `JobMigration`: the rewrite of legacy rows, and runs from the tables it leaves; a lease row's
  protocol version tells legacy rows (0) from those the loop inserts (1).
- `JsonText`, `JsonRoundTrip`, `JsonBounds`, `HostMessages`, `HostProtocol`: canonical JSON (RFC 8259 sections 6
  and 7, integers and Unicode scalar values only), the strict reader, the bounded copy, the typed messages, signed
  envelopes, the semantic fingerprint and signatures. `JsonForm`, `JsonGrammar`, `JsonReading`: what is printed and
  what is read, said without printer and reader. `JsonLimits`, `HostWire`: bounds and messages field by field.
- `ArtifactStore`, `ArtifactSafety`, `ArtifactMap`: any number of callers putting, getting and deleting in one
  directory, one file operation at a time, and the atomic map they appear to share. `ArtifactOutcomes`: what a call
  comes to.
- `AuthStore`, `AuthService`, `AuthThrottle`, `AuthHistory`: sessions and the login throttle. `AuthOutcomes`: what
  each call does, by the password check and the columns.
- `TaskLifecycle`, `TaskHistory`, `TaskRuns`: the twelve-state task lifecycle, its triggers, its engine, its event
  log, and which logs the service can write. `TaskGates`: when a command is accepted, gate by gate.
- `AssertionContract`, `AssertionContractJson`, `RepositoryPaths`, `BriefPolicy`, `Redaction`: contract compilation,
  path boundaries, the approval policy of briefs, and redaction; `ContractRules`, `PathRules`, `PolicyRules` and
  `RedactionForm` say what is accepted without naming the code. `Text`, `Basics` and `Wrappers` lie below them.

Conventions. A SQL guard is read two-valued: a comparison with NULL is false. Times are microseconds (host
messages: milliseconds) and one transaction sees one instant. Hashes, the keyed digest, password verification, the
UUID parser and random identifiers are parameters; where a property needs it, two texts are assumed not to collide
and random values to be new. A claim is one transaction: the token is `next_token`, the counter moves by one, the
lease is inserted and the job is pointed at it. A checkpoint sets the job's version to its sequence.
Automatic induction is off in every lemma (`{:induction false}`): each induction is written out.

Where code and intent part ways the model follows the code, and a lemma says exactly when:

- Pausing an attempt always fails at the job guard, and two other requests are refused in corner cases: a second
  extending heartbeat at one instant, and cancelling a task while a running job's lease has expired. The last is
  so because the pending cancellation mark is flushed before the lease is looked up (`JobGuards.RefusedExactly`,
  with a reachable case of each in `JobRefusals`).
- A migrated queued job whose recorded leases do not end at its attempt count can never be claimed
  (`JobMigration.MigratedClaim`), and the upgraded tables meet the loop's invariant only if the legacy leases tell
  the attempts of their jobs (`JobMigration.MigratedExactly`).
- Deleting an artifact is documented as idempotent, but a delete may end with the bare missing-file exception
  exactly when somebody else may remove the artifact meanwhile (`ArtifactMap.LostExactly`).
- A task steered out of a repair reaches merge-readiness without a revalidation, by validating the new work
  instead (`TaskHistory.GatesAfterRepair`, `TaskHistory.SteeredOutOfRepair`, `TaskRuns.SteeredTask`).
- The path `.` passes as a brief scope, contains every path and overlaps only itself (`RepositoryPaths.BriefOverlap`, `BriefPolicy.AcceptedAvoids`).
- The trigger of new effect rows looks at the lease that starts the effect only. The service always inserts pending
  effects; another writer may insert one as finished under a spent lease (`JobTriggers.BornFinished`).
- Redaction removes a secret from every text if and only if the secret cannot overlap the marker
  (`Redaction.GoneExactly`; `Redaction.EdgeLeaks` is a short leak, `Redaction.MarkerLeaks` a family of them).

`dafny verify dfyconfig.toml` checks the whole project.

## Model

| member | source | states |
|---|---|---|
| `JobInvariant.ExecuteKeeps` | services/control-plane/migrations/versions/0008_cancellation_outage_recovery.py:92-224 | every transaction of the service that commits keeps the whole invariant of the job tables: projections, tokens, attempts, checkpoints, effects, transitions, ignored results, outages |
| `JobInvariant.RunKeeps` | services/control-plane/migrations/versions/0006_background_job_loop.py:263-463 | the invariant holds after any sequence of transactions, clock ticks, errors and refusals |
| `JobInvariant.PauseRefused` | services/control-plane/src/mathews_control_plane/background_jobs.py:1688-1720 | a pause by the current lease holder is always refused by the job guard, which wants the attempt count unchanged; by anybody else it raises |
| `JobFencing.ExecuteStep` | services/control-plane/migrations/versions/0006_background_job_loop.py:361-463 | a committed transaction adds rows and finishes effects only under a lease that is current, unreleased and unexpired before it, and moves job and lease rows only forward |
| `JobFencing.NoLateWrites` | services/control-plane/migrations/versions/0006_background_job_loop.py:361-505 | once the current lease of a job is not L it never is L again, and no later checkpoint, effect start, effect completion, task transition or outage is recorded under L, over any run |
| `JobFencing.UsableWindow` | services/control-plane/migrations/versions/0006_background_job_loop.py:299-350 | whenever a lease can write, the clock is between its creation and its final expiry and not after its release |
| `JobFencing.UsableOrdered` | services/control-plane/migrations/versions/0006_background_job_loop.py:263-350 | of two leases of one job that are usable at two moments, the earlier one has the smaller attempt and token and was released before the later one was created |
| `JobFencing.TokenOrder` | services/control-plane/migrations/versions/0006_background_job_loop.py:263-297 | a job's leases carry exactly the attempts 1 to attempt_count, at most max_attempts, tokens increase with attempts, every token is below next_token and no two leases share one |
| `JobFencing.CheckpointOrder` | services/control-plane/migrations/versions/0006_background_job_loop.py:361-404 | a job's checkpoints are numbered 1 to its version without gaps, under tokens that never decrease |
| `JobFencing.FinishedOnce` | services/control-plane/migrations/versions/0006_background_job_loop.py:405-465 | a finished effect keeps its row over any run and was finished under a token no smaller than its start token |
| `JobFencing.TerminalFreeze` | services/control-plane/migrations/versions/0008_cancellation_outage_recovery.py:92-224 | after SUCCEEDED, FAILED or CANCELLED the job row, its leases, checkpoints and effects never change again |
| `JobFencing.OutagesBounded` | services/control-plane/migrations/versions/0008_cancellation_outage_recovery.py:463-498 | a job has at most max_attempts outage records, and an exhausted one carries the final attempt of a failed job, so there is at most one |
| `JobFencing.AcceptOrIgnore` | services/control-plane/migrations/versions/0008_cancellation_outage_recovery.py:431-462 | for every lease a job ever had, a result received now is admitted by exactly one of the write guard and the ignored-result guard |
| `JobFencing.WriteGuards` | services/control-plane/migrations/versions/0006_background_job_loop.py:361-404 | the full checkpoint guard of a worker's next checkpoint holds exactly when its lease may write |
| `JobFencing.EffectsSettled` | services/control-plane/src/mathews_control_plane/background_jobs.py:2425-2440 | a job never has two pending effects and a succeeded one has none |
| `JobFencing.EveryReachable` | services/control-plane/migrations/versions/0006_background_job_loop.py:263-505 | from empty tables every run reaches only databases with all of this: unique tokens below the counter, dense checkpoints, and for every lease exactly one of accept and ignore |
| `JobPointers.RetiredForever` | services/control-plane/migrations/versions/0006_background_job_loop.py:361-505 | of the whole invariant, only that jobs point at leases of their own is needed for it: every run keeps that, and a lease its job does not point at keeps its row and gets nothing written under it |
| `JobGuards.RefusedExactly` | services/control-plane/migrations/versions/0008_cancellation_outage_recovery.py:92-224 | a trigger refuses a transaction of the service if and only if it is a pause by the holder, a heartbeat that would extend a lease again at the instant of its last heartbeat, or the cancellation of a task with an unmarked running job whose lease expired |
| `JobRefusals.PauseRefusal` | services/control-plane/src/mathews_control_plane/background_jobs.py:1688-1720 | from empty tables: after scheduling and claiming a job, the holder's pause is refused |
| `JobRefusals.HeartbeatRefusal` | services/control-plane/src/mathews_control_plane/background_jobs.py:1210-1236 | from empty tables: in the instant of the claim a heartbeat is refused if and only if it asks for a longer lease |
| `JobRefusals.CancelRefusal` | services/control-plane/src/mathews_control_plane/reliability.py:591-660 | from empty tables: some time after the claim the cancellation of the task is refused if and only if the lease has expired |
| `JobOutcomes.HeldExactly` | services/control-plane/src/mathews_control_plane/background_jobs.py:2305-2345 | the service's comparisons of job, lease and grant pass if and only if the grant names the unexpired current lease, with its owner, attempt and token, of a running job nobody cancelled |
| `JobOutcomes.ScheduleOutcome` | services/control-plane/src/mathews_control_plane/background_jobs.py:556-670 | a new key adds one queued job with the given columns, due at the given time or at once; a taken key stands for the same command only; a bad policy or a job without task raises |
| `JobOutcomes.ClaimOutcome` | services/control-plane/src/mathews_control_plane/background_jobs.py:671-882 | a claim commits if and only if the job is due and the lease is for one second to five minutes, and then, column by column, a lease of the next attempt and token, or the final failure of a job whose last attempt lapsed |
| `JobOutcomes.RecoverOutcome` | services/control-plane/src/mathews_control_plane/background_jobs.py:883-971 | recovery commits if and only if the holder's lease lapsed, and cancels, fails or queues the job again with reason, code and times as stated |
| `JobOutcomes.RetryWithin` | services/control-plane/src/mathews_control_plane/background_jobs.py:431-453 | the wait after the n-th attempt is a whole number of milliseconds up to the base doubled n-1 times, or the policy's maximum, and every such number is possible |
| `JobOutcomes.FailOutcome` | services/control-plane/src/mathews_control_plane/background_jobs.py:2243-2303 | the holder's failure always commits, and queues the job again, within the wait, if and only if it is retryable and attempts are left; else the job fails now |
| `JobOutcomes.FailedForGood` | services/control-plane/src/mathews_control_plane/background_jobs.py:2243-2303 | after a failure that is not retryable no run ever changes the failed job or writes under any of its leases again |
| `JobOutcomes.FailDependencyOutcome` | services/control-plane/src/mathews_control_plane/background_jobs.py:1721-1814 | the same for a dependency failure, with its outage row, exhausted exactly on the last attempt |
| `JobProgress.HeartbeatOutcome` | services/control-plane/src/mathews_control_plane/background_jobs.py:1210-1236 | lease and job get the later of the old expiry and now plus the duration, and nothing else changes |
| `JobProgress.CheckpointOutcome` | services/control-plane/src/mathews_control_plane/background_jobs.py:2358-2424 | a checkpoint is appended under the expected version only; the same key again returns or raises as its row agrees |
| `JobProgress.PrepareEffectOutcome` | services/control-plane/src/mathews_control_plane/background_jobs.py:1271-1359 | an effect starts pending if and only if none waits and the key is new; the same request is a no-op, another one raises |
| `JobProgress.RecordEffectOutcome` | services/control-plane/src/mathews_control_plane/background_jobs.py:1360-1426 | a pending effect of the job gets its result, completion lease and checkpoint together; a finished one only repeats its own |
| `JobProgress.IgnoreOutcome` | services/control-plane/src/mathews_control_plane/background_jobs.py:1427-1607 | a late result is stored, once, if and only if the lease is one of the job's and not current |
| `JobProgress.CompleteOutcome` | services/control-plane/src/mathews_control_plane/background_jobs.py:1608-1661 | a job succeeds if and only if no effect waits and the version is the expected one, after the final checkpoint |
| `JobProgress.TransitionOutcome` | services/control-plane/src/mathews_control_plane/background_jobs.py:2142-2233 | a task event is linked under the lease once, while no effect waits |
| `JobProgress.CancelOutcome` | services/control-plane/src/mathews_control_plane/reliability.py:591-660 | all of the task's jobs end cancelled with the stated columns, or the trigger stops the whole transaction |
| `JobTriggers.OnlyForward` | services/control-plane/migrations/versions/0006_background_job_loop.py:115-541 | whoever writes single rows past the triggers: finished jobs, releases, finished effects and appended rows never change; attempts, versions, lease times and tokens only grow |
| `JobTriggers.SpentForever` | services/control-plane/migrations/versions/0006_background_job_loop.py:361-505 | whoever writes: a released or expired lease stays so, and no checkpoint, effect start, completion of a pending effect or task transition is ever recorded under it again |
| `JobTriggers.BornFinished` | services/control-plane/migrations/versions/0006_background_job_loop.py:405-430 | the one gap: an effect that may be inserted as pending may be inserted as finished under any lease of its job |
| `JobTriggers.OrderedFromEmpty` | services/control-plane/migrations/versions/0006_background_job_loop.py:52-465 | whoever writes, from empty tables: tokens and attempts of leases are distinct, attempts stay within the budget, keys are unique, rows keep their shape |
| `JobTriggers.BoundFromEmpty` | services/control-plane/migrations/versions/0006_background_job_loop.py:361-505 | whoever writes, from empty tables: every checkpoint, effect, transition, late result and outage names a lease of its own job by its token, with the scope, task and attempt of what it names |
| `JobTriggers.LeaseBorn` | services/control-plane/migrations/versions/0006_background_job_loop.py:263-297 | whoever inserts a lease: it is the next attempt of a due, uncancelled job with attempts left, and not over yet |
| `JobTriggers.LeaseExtended` | services/control-plane/migrations/versions/0006_background_job_loop.py:299-350 | whoever moves a lease's expiry: it grows, with a later heartbeat, on the unexpired lease its running job points at |
| `JobTriggers.JobEdgeTable` | services/control-plane/migrations/versions/0008_cancellation_outage_recovery.py:89-224 | whoever updates a job row: where it may come from, when an attempt may be added, and under which release it may leave its lease for which status |
| `JobStore.TransactionKeeps` | services/control-plane/src/mathews_control_plane/background_jobs.py:456-460 | a transaction of the store, committed, raised or rolled back, is one step of the run and keeps the invariant |
| `JobStore.Store.Schedule` | services/control-plane/src/mathews_control_plane/background_jobs.py:556-670 | the tables after scheduling are those of the transaction function, or unchanged when it raises or a guard refuses |
| `JobStore.Store.Claim` | services/control-plane/src/mathews_control_plane/background_jobs.py:671-882 | claiming takes the next token, bumps the counter, inserts the lease and points the job at it as one transaction, superseding or failing an expired holder |
| `JobStore.Store.RecoverExpired` | services/control-plane/src/mathews_control_plane/background_jobs.py:883-971 | an expired holder's job is requeued, failed or cancelled together with its lease |
| `JobStore.Store.Heartbeat` | services/control-plane/src/mathews_control_plane/background_jobs.py:1210-1236 | the lease and the job's projected expiry are extended together or not at all |
| `JobStore.Store.SaveCheckpoint` | services/control-plane/src/mathews_control_plane/background_jobs.py:2358-2424 | the checkpoint row, the job version and the lease version move together; the same key and payload again changes nothing |
| `JobStore.Store.PrepareEffect` | services/control-plane/src/mathews_control_plane/background_jobs.py:1271-1359 | an effect starts only when no other is pending; the same request again changes nothing |
| `JobStore.Store.RecordEffect` | services/control-plane/src/mathews_control_plane/background_jobs.py:1360-1426 | the effect is finished and its checkpoint appended in one transaction |
| `JobStore.Store.RecordIgnored` | services/control-plane/src/mathews_control_plane/background_jobs.py:1427-1607 | a late result is recorded once, and only when its lease can no longer write |
| `JobStore.Store.Complete` | services/control-plane/src/mathews_control_plane/background_jobs.py:1608-1661 | the final checkpoint, the released lease and the succeeded job row commit together |
| `JobStore.Store.FailDependency` | services/control-plane/src/mathews_control_plane/background_jobs.py:1721-1814 | the failed attempt and its outage record commit together |
| `JobStore.Store.TransitionTask` | services/control-plane/src/mathews_control_plane/background_jobs.py:2142-2233 | a task transition is linked to the lease once |
| `JobStore.Store.CancelTask` | services/control-plane/src/mathews_control_plane/reliability.py:591-660 | all jobs of a task are cancelled in one transaction, running ones marked first and then taken out of their lease |
| `JobMigration.UpgradedShape` | services/control-plane/migrations/versions/0006_background_job_loop.py:1084-1125 | the rewrite of any legacy row satisfies the job guard's shape, a row left QUEUED has a task and attempts left, and exactly the unfinished rows without task or with a spent budget are failed |
| `JobMigration.UpgradedColumns` | services/control-plane/migrations/versions/0006_background_job_loop.py:1084-1125 | attempts are cut at 100, the budget is the least of 5 to 100 that holds them and one more for a queued row, and times, identity and error code are as stated |
| `JobMigration.UpgradeJobs` | services/control-plane/migrations/versions/0006_background_job_loop.py:1084-1125 | the whole table is rewritten row by row |
| `JobMigration.SeedCounter` | services/control-plane/migrations/versions/0006_background_job_loop.py:1256-1262 | the seeded counter exceeds every existing token, by one over the greatest |
| `JobMigration.MigratedClaim` | services/control-plane/migrations/versions/0006_background_job_loop.py:263-297 | a migrated queued job can be claimed if and only if its last recorded lease attempt equals its attempt count |
| `JobMigration.StrandedExample` | services/control-plane/migrations/versions/0006_background_job_loop.py:1084-1125 | a legacy queued job with one attempt and no lease row is refused at every claim |
| `JobMigration.MigratedExactly` | services/control-plane/migrations/versions/0006_background_job_loop.py:1084-1262 | the upgraded tables meet the invariant of the job loop if and only if the legacy leases carry every attempt of every job once, with distinct tokens that rise with the attempts, and sane times |
| `JobMigration.SoundAfterUpgrade` | services/control-plane/migrations/versions/0006_background_job_loop.py:1084-1262 | from such tables every run keeps the invariant |
| `JobMigration.FencedAfterUpgrade` | services/control-plane/migrations/versions/0006_background_job_loop.py:263-505 | from every upgraded database, whatever the legacy rows: no legacy lease is ever current, written under or changed, although the upgrade releases none; and once a job points away from any lease, nothing is ever written under that lease again |
| `JobMigration.ClaimableAfterUpgrade` | services/control-plane/migrations/versions/0006_background_job_loop.py:1084-1262 | from such tables every job left QUEUED can be claimed once it is due |
| `JsonRoundTrip.ReadPrint` | libraries/configuration/src/mathews_configuration/host_protocol.py:612-646 | the strict reader gives back every printed value whose integers are signed 64-bit |
| `JsonRoundTrip.IntTextLength` | libraries/configuration/src/mathews_configuration/host_protocol.py:665-674 | every integer in [-2^63, 2^63) prints in at most 20 characters, so the reader's length test never refuses one |
| `JsonRoundTrip.PrintInjective` | libraries/configuration/src/mathews_configuration/host_protocol.py:612-622 | canonical texts of different values differ |
| `JsonRoundTrip.PrintAscii` | libraries/configuration/src/mathews_configuration/host_protocol.py:612-622 | canonical text is printable ASCII, so bytes and characters agree |
| `JsonForm.BeforeIsSmaller` | libraries/configuration/src/mathews_configuration/host_protocol.py:612-620 | keys are ordered by the first character that differs, by code point, and a prefix comes first |
| `JsonForm.CharFormIs` | libraries/configuration/src/mathews_configuration/host_protocol.py:612-620 | which escape a character gets: the short ones, lower-case \u, surrogate pairs, or itself |
| `JsonForm.FormIsPrint` | libraries/configuration/src/mathews_configuration/host_protocol.py:612-620 | a text is printed for a value if and only if it is its canonical form: no spaces, items in order, members in rising order of keys, shortest decimal integers |
| `JsonReading.ReadsExactly` | libraries/configuration/src/mathews_configuration/host_protocol.py:624-674 | the strict reader takes a text as a value if and only if the text spells it by the grammar of RFC 8259: any spacing, any escapes, any member order, 64-bit integers only, no key twice |
| `JsonBounds.CopyValue` | libraries/configuration/src/mathews_configuration/host_protocol.py:685-731 | the traversal with one shared node counter succeeds exactly when all bounds hold and the nodes, added to what the counter held, stay within the budget; it returns the plain value and leaves the counter at the sum |
| `JsonBounds.CopyObject` | libraries/configuration/src/mathews_configuration/host_protocol.py:677-682 | an object is copied exactly when it is a mapping, within the bounds and of at most 4096 nodes |
| `JsonBounds.CopyIdempotent` | libraries/configuration/src/mathews_configuration/host_protocol.py:677-731 | what was accepted is within the bounds and has the same node count as a plain value, is accepted again and comes back unchanged |
| `JsonBounds.AcceptedObjects` | libraries/configuration/src/mathews_configuration/host_protocol.py:677-731 | a plain value has an accepted form exactly when it is within the bounds and the node budget |
| `JsonLimits.NormalExactly` | libraries/configuration/src/mathews_configuration/host_protocol.py:677-731 | an object is within the bounds if and only if it has at most 4096 nodes and everything inside is plain and at most sixteen levels deep |
| `HostMessages.RequestForm` | libraries/configuration/src/mathews_configuration/host_protocol.py:447-471 | an object reads as a request if and only if the request is valid and the object is its dictionary form |
| `HostMessages.ResponseForm` | libraries/configuration/src/mathews_configuration/host_protocol.py:474-516 | the same for responses |
| `HostMessages.AuthorityForm` | libraries/configuration/src/mathews_configuration/host_protocol.py:519-578 | the same for the three kinds of authority |
| `HostProtocol.RequestAccepted` | libraries/configuration/src/mathews_configuration/host_protocol.py:382-395 | a payload decodes to an envelope if and only if it is non-empty, within a mebibyte, reads as that envelope's form, and message and signature are valid |
| `HostProtocol.ResponseAccepted` | libraries/configuration/src/mathews_configuration/host_protocol.py:405-418 | the same for responses |
| `HostProtocol.RequestRoundTrip` | libraries/configuration/src/mathews_configuration/host_protocol.py:375-395 | decoding an encoded request gives back the envelope, for every valid envelope within the byte limit |
| `HostProtocol.ResponseRoundTrip` | libraries/configuration/src/mathews_configuration/host_protocol.py:398-418 | the same for responses |
| `HostProtocol.CollectUnique` | libraries/configuration/src/mathews_configuration/host_protocol.py:648-654 | the pair hook returns the object, or nothing once a key comes twice |
| `HostProtocol.UniqueKeys` | libraries/configuration/src/mathews_configuration/host_protocol.py:648-654 | an object is built exactly when no key is repeated, and then holds exactly the pairs |
| `HostProtocol.WithoutLease` | libraries/configuration/src/mathews_configuration/host_protocol.py:598-609 | taking the lease fields out one by one leaves the subject fields |
| `HostProtocol.SemanticIdentity` | libraries/configuration/src/mathews_configuration/host_protocol.py:193-199 | two valid requests hash the same text exactly when kind, non-lease authority fields and operation agree |
| `HostProtocol.SignatureBindsRequest` | libraries/configuration/src/mathews_configuration/host_protocol.py:325-346 | a signature made for one request verifies for exactly that request, within its lifetime and lease, unless two texts collide |
| `HostProtocol.DomainsSeparate` | libraries/configuration/src/mathews_configuration/host_protocol.py:363-369 | a request signature never verifies for a response |
| `HostWire.RequestDecodesExactly` | libraries/configuration/src/mathews_configuration/host_protocol.py:375-395 | a payload decodes as a request if and only if every field, spelled out one by one, is in order |
| `HostWire.ResponseDecodesExactly` | libraries/configuration/src/mathews_configuration/host_protocol.py:405-418 | and as a response |
| `HostWire.SignedTexts` | libraries/configuration/src/mathews_configuration/host_protocol.py:325-369 | what is signed is the domain, a zero character and the canonical form of the message |
| `HostWire.SignatureBindsResponse` | libraries/configuration/src/mathews_configuration/host_protocol.py:348-360 | a response is believed if and only if it carries the key's id and, unless two texts collide, was itself signed |
| `ArtifactSafety.NextKeeps` | services/control-plane/src/mathews_control_plane/artifacts.py:70-247 | every single file operation of any caller, an I/O error or a crash at any of them included, keeps the directory, the callers and the abstract map in agreement |
| `ArtifactSafety.RunKeeps` | services/control-plane/src/mathews_control_plane/artifacts.py:70-247 | so does every interleaving |
| `ArtifactMap.Linearizable` | services/control-plane/src/mathews_control_plane/artifacts.py:70-247 | every interleaving is a legal sequence of atomic operations on one map that equals the directory, and each finished call took effect in it exactly once, inside its own interval and with its own answer, or failed and took effect at most once |
| `ArtifactMap.LogExtends` | services/control-plane/src/mathews_control_plane/artifacts.py:70-247 | operations are never undone or reordered |
| `ArtifactMap.RightBytes` | services/control-plane/src/mathews_control_plane/artifacts.py:366-394 | no finished call saw corruption; a get returns the whole payload of an earlier put with that digest |
| `ArtifactMap.OnlyItself` | services/control-plane/src/mathews_control_plane/artifacts.py:70-165 | without two colliding payloads an address holds exactly the payload put there, and every put of it reports its size |
| `ArtifactMap.ContentionPaid` | services/control-plane/src/mathews_control_plane/artifacts.py:109-139 | the extra turns of a put's install loop are at most the removals of its address since it began; a delete that lost its target was beaten by a removal |
| `ArtifactMap.LostExactly` | services/control-plane/src/mathews_control_plane/artifacts.py:187-247 | from any state that meets the invariant, a delete of a present artifact can end with the bare missing-file exception if and only if somebody else may remove the artifact meanwhile |
| `ArtifactMap.Unopposed` | services/control-plane/src/mathews_control_plane/artifacts.py:187-247 | with no removal by anybody else a delete that finishes says removed, absent or I/O error, and absent only of an artifact that was absent at first |
| `ArtifactMap.NothingLeftBehind` | services/control-plane/src/mathews_control_plane/artifacts.py:152-163 | every temporary name belongs to a put still at work if and only if no caller died holding one and none failed to remove its own |
| `ArtifactOutcomes.PutAlone` | services/control-plane/src/mathews_control_plane/artifacts.py:90-165 | from every state that meets the invariant a put that runs alone ends stored, its payload or the bytes that were there under the address, and changes nothing else |
| `ArtifactOutcomes.GetAlone` | services/control-plane/src/mathews_control_plane/artifacts.py:167-185 | a get alone finds the bytes that the address holds, or says that there are none |
| `ArtifactOutcomes.DeleteAlone` | services/control-plane/src/mathews_control_plane/artifacts.py:187-247 | a delete alone takes away its address and nothing else, or says that it was absent |
| `ArtifactOutcomes.FailsForAReason` | services/control-plane/src/mathews_control_plane/artifacts.py:90-165 | a call clashes only if one of its steps was offered a temporary name in use, and fails only if one had an I/O error |
| `ArtifactOutcomes.PutAnswers` | services/control-plane/src/mathews_control_plane/artifacts.py:90-165 | in every interleaving a finished put is stored, or clashed or failed for that reason |
| `AuthThrottle.ThrottleBound` | services/control-plane/src/mathews_control_plane/authentication.py:569-578 | in any stretch of T seconds without a right password or bootstrap at most 12 + T/300 unblocked wrong passwords are evaluated by login and reauthentication, from any failure count and block |
| `AuthThrottle.SlackSpent` | services/control-plane/src/mathews_control_plane/authentication.py:569-578 | each further failure earns a delay that pays for it against one check in 300 seconds |
| `AuthHistory.TokenProves` | services/control-plane/src/mathews_control_plane/authentication.py:334-357 | after any run a token authenticates exactly when the history says it was issued, was not ended or replaced since, and every gap between issue, successful uses and now is below the idle lifetime, within the absolute one |
| `AuthHistory.NextAgrees` | services/control-plane/src/mathews_control_plane/authentication.py:300-420 | every call keeps session rows and history in agreement |
| `AuthHistory.OverForever` | services/control-plane/src/mathews_control_plane/authentication.py:551-566 | a revoked token never works again |
| `AuthHistory.LoginRotates` | services/control-plane/src/mathews_control_plane/authentication.py:316-330 | a right password resets the throttle, the new token proves its session at once, and the replaced token never proves one again |
| `AuthHistory.ReauthenticationRotates` | services/control-plane/src/mathews_control_plane/authentication.py:395-407 | the same for reauthentication and the session it was asked in |
| `AuthOutcomes.LoginOutcome` | services/control-plane/src/mathews_control_plane/authentication.py:300-332 | a login that is judged opens a session, with its columns, if and only if the stored hash verifies the password; otherwise one failure is counted and nothing else changes |
| `AuthOutcomes.ReauthenticationOutcome` | services/control-plane/src/mathews_control_plane/authentication.py:359-413 | so it is for reauthentication of a live session, which it replaces; a stale one is deleted |
| `AuthOutcomes.BootstrapOutcome` | services/control-plane/src/mathews_control_plane/authentication.py:271-298 | bootstrap stores the hash and opens a session if and only if there is no user, the token is right and the password is in bounds |
| `AuthOutcomes.LoginAfterBootstrap` | services/control-plane/src/mathews_control_plane/authentication.py:271-332 | whatever happens in between, a login that is judged works exactly when its password verifies against the bootstrap's hash |
| `AuthOutcomes.ContextExactly` | services/control-plane/src/mathews_control_plane/authentication.py:514-537 | what authenticating tells of a session: expiries, and a recent password exactly for the reauthentication lifetime |
| `AuthOutcomes.PlainOutcomes` | services/control-plane/src/mathews_control_plane/authentication.py:415-490 | logout, CSRF rotation and cleanup change exactly the rows they should |
| `AuthService.AuthenticationService.Login` | services/control-plane/src/mathews_control_plane/authentication.py:300-332 | throttle row and session rows after a login, and the issued session, as the verdict on the password demands |
| `AuthService.AuthenticationService.Authenticate` | services/control-plane/src/mathews_control_plane/authentication.py:334-357 | the session is extended, deleted when expired, or left alone, and returned exactly when the token proves it |
| `AuthService.AuthenticationService.Reauthenticate` | services/control-plane/src/mathews_control_plane/authentication.py:359-413 | a right password revokes the session and issues a new one; a wrong one is counted; an expired session is deleted |
| `AuthService.AuthenticationService.Bootstrap` | services/control-plane/src/mathews_control_plane/authentication.py:271-298 | the one-time token creates the user and the first session, else one of four errors and no change |
| `AuthService.AuthenticationService.Logout` | services/control-plane/src/mathews_control_plane/authentication.py:415-420 | the session row is revoked once |
| `AuthService.AuthenticationService.RotateCsrf` | services/control-plane/src/mathews_control_plane/authentication.py:453-466 | the token of a usable session is replaced; otherwise the transaction is undone |
| `AuthService.AuthenticationService.IssueSession` | services/control-plane/src/mathews_control_plane/authentication.py:492-512 | stale rows go and one session is added |
| `AuthService.AuthenticationService.RecordLoginFailure` | services/control-plane/src/mathews_control_plane/authentication.py:569-578 | counter and block after a failure |
| `TaskLifecycle.EngineIsTrigger` | services/control-plane/src/mathews_control_plane/task_state_machine.py:297-450 | the engine moves a task from one row to another if and only if the triggers know that edge for the kind and the kind's own gates are open |
| `TaskLifecycle.EventEdgeLegal` | services/control-plane/migrations/versions/0005_task_state_machine.py:56-151 | every event edge is a legal edge, and kind and old row determine the new row |
| `TaskLifecycle.LegalIsSomeEvent` | services/control-plane/migrations/versions/0005_task_state_machine.py:56-151 | the trigger on states and the trigger on events know the same edges: a change is legal if and only if some kind of event makes it |
| `TaskLifecycle.UpdateExactly` | services/control-plane/migrations/versions/0005_task_state_machine.py:224-303 | the update trigger lets a row change if and only if the last event tells exactly that edge |
| `TaskLifecycle.TerminalFinal` | services/control-plane/migrations/versions/0005_task_state_machine.py:224-303 | no admitted update moves a terminal task |
| `TaskLifecycle.TaskRecord.Apply` | services/control-plane/src/mathews_control_plane/task_state_machine.py:672-866 | the event is appended and the row updated together, a known command is answered from its event, and a refused one changes nothing |
| `TaskGates.MarkMergeReadyExactly` | services/control-plane/src/mathews_control_plane/task_state_machine.py:203-270 | merge-readiness is logged if and only if the pull request is active, checks are green, no review blocks, repairs are authorized, every draft flag is set, and all heads are the latest logged one |
| `TaskGates.AcknowledgeHandoffExactly` | services/control-plane/src/mathews_control_plane/task_state_machine.py:203-270 | the same for the hand-off, once acknowledged |
| `TaskGates.OpenDraftExactly` | services/control-plane/src/mathews_control_plane/task_state_machine.py:203-258 | a draft is opened if and only if the task validates and all its heads agree and flags are set |
| `TaskGates.StepExactlyInRuns` | services/control-plane/src/mathews_control_plane/task_state_machine.py:672-866 | after any run, a command appends its event, with row, head, bindings and retry count as stated, if and only if it is new, timely and its gate is open |
| `TaskHistory.TransitionKeeps` | services/control-plane/src/mathews_control_plane/task_state_machine.py:672-866 | a transition keeps row and log in agreement, and no trigger refuses what the engine accepted |
| `TaskHistory.AuditReplay` | services/control-plane/migrations/versions/0005_task_state_machine.py:187-303 | in every reachable state folding the events from INTAKE gives state, resume state, outcome and retry count, the projection shape holds, nothing follows a terminal event, and readiness was recorded only for the head of the latest verified draft |
| `TaskHistory.Idempotent` | services/control-plane/src/mathews_control_plane/task_state_machine.py:574-616 | an accepted command sent again under any gates returns its receipt and changes nothing; another command under its id is a conflict |
| `TaskHistory.EscalationErased` | services/control-plane/migrations/versions/0005_task_state_machine.py:56-151 | deleting ESCALATE and RESUME from any run gives a legal run with the same effective state and outcome |
| `TaskHistory.GatesAfterBriefing` | services/control-plane/migrations/versions/0005_task_state_machine.py:94-151 | in a run that ends merge-ready or handed off, after every entry to BRIEFING there are BEGIN_VALIDATION, OPEN_VERIFIED_DRAFT_PR and MARK_MERGE_READY in this order |
| `TaskHistory.GatesAfterRepair` | services/control-plane/migrations/versions/0005_task_state_machine.py:94-151 | after the last BEGIN_REPAIR there are REVALIDATE, OPEN and MARK in order if and only if the task did not leave that repair by SCOPE_STEER |
| `TaskHistory.SteeredOutOfRepair` | services/control-plane/migrations/versions/0005_task_state_machine.py:147-150 | a merge-ready run whose last repair was never revalidated |
| `TaskHistory.OfferedTask` | services/control-plane/migrations/versions/0005_task_state_machine.py:94-151 | every task the service brings, effectively, to merge-readiness or hand-off passed the gates in order after every entry to BRIEFING, and again after its last repair if and only if scope steering did not end that repair |
| `TaskRuns.LogsAreWalks` | services/control-plane/src/mathews_control_plane/task_state_machine.py:672-866 | the service, gates included, can log a sequence of kinds if and only if the sequence walks the lifecycle |
| `TaskRuns.SteeredTask` | services/control-plane/migrations/versions/0005_task_state_machine.py:147-150 | and so some run of the service, every gate passed, ends merge-ready with its last repair never revalidated |
| `AssertionContract.ForConfiguration` | libraries/configuration/src/mathews_configuration/simulator.py:378-465 | the compiling loops compute the contract of the specification, or its first refusal |
| `AssertionContract.ValidateAgainst` | libraries/configuration/src/mathews_configuration/simulator.py:467-537 | the validating loop accepts exactly the contracts that agree with configuration, catalog and brief |
| `AssertionContract.OrderIndependent` | libraries/configuration/src/mathews_configuration/simulator.py:378-465 | two orders of the same selections compile to the identical contract or both fail |
| `AssertionContract.BindsExactly` | libraries/configuration/src/mathews_configuration/simulator.py:378-465 | a compiled contract is well formed, validates, and binds exactly the brief's criterion/assertion pairs |
| `AssertionContract.AlwaysValid` | libraries/configuration/src/mathews_configuration/simulator.py:464-465 | the final validation of a compiled contract never fails |
| `AssertionContract.CompilesExactly` | libraries/configuration/src/mathews_configuration/simulator.py:392-463 | selections compile exactly when they list the brief's pairs, each once, every criterion has some, the catalog offers all, one well-formed flow is configured, and counts, identifiers, versions and digests of the inputs are in range |
| `ContractRules.ValidExactly` | libraries/configuration/src/mathews_configuration/simulator.py:467-537 | a contract is valid if and only if it repeats configuration and brief, and its bindings repeat the catalog and pair exactly what the brief asks for |
| `ContractRules.CompiledInOrder` | libraries/configuration/src/mathews_configuration/simulator.py:392-463 | compiled bindings come in rising order |
| `AssertionContractJson.DictRoundTrip` | libraries/configuration/src/mathews_configuration/simulator.py:543-657 | from_dict of to_dict gives back every well-formed contract that validates |
| `AssertionContractJson.CompiledSurvives` | libraries/configuration/src/mathews_configuration/simulator.py:573-657 | every compiled contract survives the round trip, and whatever reads back validates and is stable |
| `RepositoryPaths.CanonicalIsClean` | libraries/configuration/src/mathews_configuration/repository.py:1887-1900 | the round-trip test of a relative path accepts exactly the texts without empty, dot or dot-dot components |
| `RepositoryPaths.OverlapIsComparable` | services/control-plane/src/mathews_control_plane/briefing.py:951-956 | on such paths the string overlap test says exactly that one component list is a prefix of the other |
| `RepositoryPaths.BriefOverlap` | services/control-plane/src/mathews_control_plane/briefing.py:906-917 | between brief paths the string test is right if and only if the paths are equal or neither is the whole repository |
| `RepositoryPaths.WholeRepositoryScope` | services/control-plane/src/mathews_control_plane/briefing.py:906-917 | the whole repository is an accepted brief path and overlaps no path inside it |
| `RepositoryPaths.ArtifactsApart` | libraries/configuration/src/mathews_configuration/repository.py:1378-1472 | in every accepted configuration no artifact path equals, contains or lies under a pinned trust file or the harness source root |
| `RepositoryPaths.HarnessProtected` | libraries/configuration/src/mathews_configuration/repository.py:1399-1453 | every harness file is a named control file or lies under the source root, and no prohibited path contains the workspace |
| `PathRules.BriefPathExactly` | services/control-plane/src/mathews_control_plane/briefing.py:906-949 | which texts a brief takes as a path, and what it makes of them |
| `PathRules.AcceptedExactly` | libraries/configuration/src/mathews_configuration/repository.py:1378-1472 | a configuration is accepted if and only if artifacts and workspace meet no prohibited path and the harness, its files and the pinned files lie where they must |
| `BriefPolicy.Evaluate` | services/control-plane/src/mathews_control_plane/briefing.py:727-793 | the loops collect every flag, each once in order of appearance, and accept exactly when there is none; the approval lifetime is the policy's or 24 hours |
| `BriefPolicy.AcceptedExactly` | services/control-plane/src/mathews_control_plane/briefing.py:727-793 | a brief passes without a human exactly when it has no ambiguity or expansion, configuration and policy are complete, every path avoids every sensitive one, and all operations and risks are allowed and low |
| `BriefPolicy.AcceptedAvoids` | services/control-plane/src/mathews_control_plane/briefing.py:767-774 | a scope path of an accepted brief is comparable to no prohibited path of the repository if and only if it is not the whole repository |
| `PolicyRules.PassesExactly` | services/control-plane/src/mathews_control_plane/briefing.py:727-793 | no human is needed if and only if the stored policy, read field by field, is sound and nothing in the brief meets a sensitive path, an unlisted or risky operation, or a risk above low |
| `PolicyRules.FlagExactly` | services/control-plane/src/mathews_control_plane/briefing.py:727-793 | a flag is raised if and only if the brief gives that reason |
| `BriefPolicy.ValidateBindings` | services/control-plane/src/mathews_control_plane/briefing.py:246-257 | the growing set accepts exactly the test plans that stay inside the scope and prove every criterion and no other |
| `Redaction.RedactText` | libraries/configuration/src/mathews_configuration/secrets.py:106-113 | the loop replaces the secrets longest first; no secret clear of the marker remains, and a text without secrets is returned unchanged |
| `RedactionForm.ReplaceExactly` | libraries/configuration/src/mathews_configuration/secrets.py:106-113 | replacing keeps every piece between the occurrences, taken from the left, and puts the marker for each |
| `Redaction.AllGone` | libraries/configuration/src/mathews_configuration/secrets.py:106-113 | whatever the order, a secret clear of the marker is gone after the replacements, and never reappears |
| `Redaction.DisjointIsClear` | libraries/configuration/src/mathews_configuration/secrets.py:106-113 | a secret that shares no character with the marker is clear of it |
| `Redaction.GoneExactly` | libraries/configuration/src/mathews_configuration/secrets.py:106-113 | whatever the text and the other secrets, a secret never survives redaction if and only if it cannot overlap the marker |
| `Redaction.SomeCharLeft` | libraries/configuration/src/mathews_configuration/secrets.py:106-113 | what that theorem asks for, a character outside the secret, exists for every secret below 55296 characters |
| `Redaction.MarkerLeaks` | libraries/configuration/src/mathews_configuration/secrets.py:106-113 | a secret that is a piece of the marker, replaced last, is put back by its own marker |
| `Redaction.EdgeLeaks` | libraries/configuration/src/mathews_configuration/secrets.py:106-113 | the secret ]a is put back by the marker and the letter behind it |

## Left out

- Eligibility of a claim by task state, outage decisions and repository pause: the model lets every claim through that the job and lease columns allow, so its runs include the real ones.
- Resumed outage job generations, outage escalation and decisions, reconciliation targets, tool grants and owned host processes.
- The scan of several rows in one claim call is split into one step per row; two clock readings inside one transaction are one instant.
- Steering's own cancellation of jobs, whose write order the object-relational mapper chooses; the downgrade of the migrations.
- Decoding of bytes that are not UTF-8, the parser's recursion limit, and lone surrogates, which the model's strings cannot hold.
- The classes of the artifact store's directory handling (creation, redirection, permissions, detached directories): one stable shard directory is modelled, and a failed fsync or close is an I/O error like any other. What survives a power loss is not modelled. The store is modelled as steps of interleaved callers, not as methods of one object.
- ArtifactMap.OnlyItself: assumes that no put payload collides with this one, since a digest is uninterpreted.
- Password hashing, rehashing on login, cookies, double-submit checks of CSRF tokens, and failure counts below zero.
- The policy, evidence and principal checks of a task transition, the service's retry after a uniqueness violation, and the normalisation of Git object ids; transition fingerprints are the commands themselves.
- The typed constructors behind an accepted brief and a repository configuration beyond the fields that compiling and path checks read; all refusals of the contract module are one error class in the source, so only success and failure are compared.
- Storing briefs and decisions, and the field validators of a draft beyond its paths; a policy value is taken as JSON without floats.
- Secret references, HTTP routing, middleware, the web application, the remaining migrations and services.
