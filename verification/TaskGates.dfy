/** Exactly when a command appends an event to a task, gate by gate, and what it leaves. */
module TaskGates {
  import opened Wrappers
  import opened TaskLifecycle
  import opened TaskHistory

  // ----- what a command must be

  /** A new command that expects the state the task is in, with a candidate exactly for a validation. */
  ghost predicate Timely(t: Task, c: Command) {
    && (forall n :: 0 <= n < |t.events| ==> t.events[n].command.transitionId != c.transitionId)
    && c.expected == t.row.state
    && (c.candidate.Some? <==> c.kind == BeginValidation || c.kind == Revalidate)
  }

  predicate GitObjectId(s: string) {
    (|s| == 40 || |s| == 64) && forall c <- s :: c in "0123456789abcdef"
  }

  /** The four other heads are the head, which is a Git object id, and every flag of the draft is set. */
  predicate DraftComplete(f: DraftFacts) {
    && GitObjectId(f.head)
    && f.validated == f.head && f.local == f.head && f.remote == f.head && f.pullRequest == f.head
    && f.validationPassed == true && f.artifactsPresent == true && f.branchClean == true
    && f.isDraft == true && f.noUnresolvedApproval == true && f.cancellationClear == true
  }

  /** The last event that recorded a head recorded this one. */
  ghost predicate LatestLogged(events: seq<Event>, head: string) {
    exists n :: 0 <= n < |events| && events[n].gateHead == Some(head)
                && forall m :: n < m < |events| ==> events[m].gateHead == None
  }

  lemma {:induction false} LatestLoggedIs(events: seq<Event>, head: string)
    ensures LatestLogged(events, head) <==> LatestHead(events) == Some(head)
    decreases |events|
  {
    if events != [] {
      var init := events[..|events| - 1];
      LatestLoggedIs(init, head);
      if events[|events| - 1].gateHead.None? {
        if n :| 0 <= n < |events| && events[n].gateHead == Some(head) && forall m :: n < m < |events| ==> events[m].gateHead == None {
          assert n < |init| && init[n] == events[n];
        }
        if n :| 0 <= n < |init| && init[n].gateHead == Some(head) && forall m :: n < m < |init| ==> init[m].gateHead == None {
          assert events[n] == init[n];
          forall m | n < m < |events| ensures events[m].gateHead == None { if m < |init| { assert events[m] == init[m]; } }
        }
      } else {
        var last := |events| - 1;
        if events[last].gateHead == Some(head) { assert LatestLogged(events, head); }
        forall n | 0 <= n < |events| && events[n].gateHead == Some(head) && forall m :: n < m < |events| ==> events[m].gateHead == None
          ensures n == last
        {
          assert !(n < last < |events|);
        }
      }
    }
  }

  // ----- merge readiness and hand-off

  /** Readiness facts for a complete draft at the head that was logged last, with green checks, no blocking
      review and authorized repairs. */
  ghost predicate ReadyFor(t: Task, g: Guards) {
    && g.readiness.Some?
    && g.readiness.value.ciGreen == true && g.readiness.value.noBlockingReview == true && g.readiness.value.repairsAuthorized == true
    && DraftComplete(g.readiness.value.draft) && LatestLogged(t.events, g.readiness.value.draft.head)
  }

  lemma DraftCompleteIs(f: DraftFacts)
    ensures DraftComplete(f) <==> VerifiedDraft(f)
  {
    assert forall c: char :: c in "0123456789abcdef" <==> '0' <= c <= '9' || 'a' <= c <= 'f';
  }

  lemma ReadyForIs(t: Task, g: Guards)
    ensures ReadyFor(t, g) <==> g.readiness.Some? && VerifiedReady(LatestHead(t.events), g.readiness.value)
  {
    if g.readiness.Some? {
      DraftCompleteIs(g.readiness.value.draft);
      LatestLoggedIs(t.events, g.readiness.value.draft.head);
    }
  }

  /** The command is appended as one more event, from the state to the next. */
  ghost predicate Appends(t: Task, t': Task, c: Command, next: Row, head: Option<string>) {
    && t'.row == next && t'.events == t.events + [Event(c, c.kind, t.row.state, next.state, head)]
    && t'.retryCount == t.retryCount + (if c.kind == BeginRepair then 1 else 0)
    && t'.bindings == if c.kind == ScopeSteer then Bindings(None, None, None) else t.bindings
  }

  /** Marking merge-ready succeeds if and only if the pull request is active and everything about it is
      in order; otherwise the task stays as it is. */
  lemma MarkMergeReadyExactly(t: Task, c: Command, g: Guards)
    requires Inv(t) && c.kind == MarkMergeReady
    ensures var t' := Step(t, Request(c, g));
            if Timely(t, c) && t.row.state == PrActive && ReadyFor(t, g)
            then Appends(t, t', c, Row(ReadyForHumanMerge, None, None), Some(g.readiness.value.draft.head))
            else t' == t
  {
    StepExactly(t, c, g);
  }

  /** So does the hand-off from merge-readiness, once it is acknowledged too. */
  lemma AcknowledgeHandoffExactly(t: Task, c: Command, g: Guards)
    requires Inv(t) && c.kind == AcknowledgeHandoff
    ensures var t' := Step(t, Request(c, g));
            if Timely(t, c) && t.row.state == ReadyForHumanMerge && g.handoffAcknowledged == true && ReadyFor(t, g)
            then Appends(t, t', c, Row(HandedOff, None, Some(AutomationHandedOff)), Some(g.readiness.value.draft.head))
            else t' == t
  {
    StepExactly(t, c, g);
  }

  /** A draft is opened if and only if the task validates and the draft is complete. */
  lemma OpenDraftExactly(t: Task, c: Command, g: Guards)
    requires Inv(t) && c.kind == OpenVerifiedDraftPr
    ensures var t' := Step(t, Request(c, g));
            if Timely(t, c) && t.row.state == Validating && g.draft.Some? && DraftComplete(g.draft.value)
            then Appends(t, t', c, Row(PrActive, None, None), Some(g.draft.value.head))
            else t' == t
  {
    StepExactly(t, c, g);
  }

  // ----- every kind

  predicate Over(s: State) { s == HandedOff || s == State.Failed || s == State.Cancelled }

  /** The gate of every kind, for the state the task is in. */
  ghost predicate Open(t: Task, kind: Kind, g: Guards) {
    var s := t.row.state;
    match kind
    case StartBriefing => s == Intake
    case AutoAcceptBrief => s == Briefing && g.briefBypass
    case RequestBriefApproval => s == Briefing && g.briefApprovalRequired
    case ReviseBrief => s == BriefPendingApproval && g.briefRevisionRequested
    case ApproveExactBrief => s == BriefPendingApproval && g.exactBriefApproval
    case BeginValidation => s == Implementing
    case BeginRepair => (s == Validating || s == PrActive) && g.repairAuthorized
    case Revalidate => s == Repairing
    case OpenVerifiedDraftPr => s == Validating && g.draft.Some? && DraftComplete(g.draft.value)
    case MarkMergeReady => s == PrActive && ReadyFor(t, g)
    case InvalidateReadiness => s == ReadyForHumanMerge && g.invalidationCurrent
    case AcknowledgeHandoff => s == ReadyForHumanMerge && g.handoffAcknowledged && ReadyFor(t, g)
    case Escalate => !Over(s) && s != Escalated
    case Resume => s == Escalated && g.resumeDecided && g.resumeCurrent && g.resumeRechecked
    case Cancel => !Over(s)
    case Fail => !Over(s)
    case ScopeSteer => !Over(s) && s != Escalated && g.workFenced && g.scopeInvalidated
  }

  function Target(row: Row, kind: Kind): Row {
    match kind
    case StartBriefing => Row(Briefing, None, None)
    case AutoAcceptBrief => Row(Implementing, None, None)
    case RequestBriefApproval => Row(BriefPendingApproval, None, None)
    case ReviseBrief => Row(Briefing, None, None)
    case ApproveExactBrief => Row(Implementing, None, None)
    case BeginValidation => Row(Validating, None, None)
    case BeginRepair => Row(Repairing, None, None)
    case Revalidate => Row(Validating, None, None)
    case OpenVerifiedDraftPr => Row(PrActive, None, None)
    case MarkMergeReady => Row(ReadyForHumanMerge, None, None)
    case InvalidateReadiness => Row(PrActive, None, None)
    case AcknowledgeHandoff => Row(HandedOff, None, Some(AutomationHandedOff))
    case Escalate => Row(Escalated, Some(row.state), None)
    case Resume => Row(if row.resume.Some? then row.resume.value else Intake, None, None)
    case Cancel => Row(State.Cancelled, None, Some(CancelledOutcome))
    case Fail => Row(State.Failed, None, Some(FailedOutcome))
    case ScopeSteer => Row(Briefing, None, None)
  }

  function HeadOf(kind: Kind, g: Guards): Option<string> {
    if kind == OpenVerifiedDraftPr && g.draft.Some? then Some(g.draft.value.head)
    else if (kind == MarkMergeReady || kind == AcknowledgeHandoff) && g.readiness.Some? then Some(g.readiness.value.draft.head)
    else None
  }

  predicate AnyTime(kind: Kind) {
    kind == Cancel || kind == Fail || kind == Escalate || kind == Resume || kind == ScopeSteer
  }

  ghost function Planned(t: Task, kind: Kind, g: Guards): Result<Plan, Refusal> {
    if Open(t, kind, g)
    then Ok(Plan(Target(t.row, kind), HeadOf(kind, g), if kind == BeginRepair then 1 else 0, kind == ScopeSteer))
    else Err(Invalid)
  }

  lemma PlannedAnyTime(t: Task, kind: Kind, g: Guards)
    requires Projection(t.row) && AnyTime(kind)
    ensures Evaluate(t.row, LatestHead(t.events), kind, g) == Planned(t, kind, g)
  {
  }

  lemma PlannedAdvance(t: Task, kind: Kind, g: Guards)
    requires !AnyTime(kind)
    requires ReadyFor(t, g) <==> g.readiness.Some? && VerifiedReady(LatestHead(t.events), g.readiness.value)
    requires g.draft.Some? ==> (DraftComplete(g.draft.value) <==> VerifiedDraft(g.draft.value))
    ensures Advance(t.row.state, LatestHead(t.events), kind, g) == Planned(t, kind, g)
  {
  }

  lemma EvaluatesExactly(t: Task, kind: Kind, g: Guards)
    requires Projection(t.row)
    ensures Evaluate(t.row, LatestHead(t.events), kind, g) == Planned(t, kind, g)
  {
    if AnyTime(kind) {
      PlannedAnyTime(t, kind, g);
    } else {
      ReadyForIs(t, g);
      if g.draft.Some? { DraftCompleteIs(g.draft.value); }
      PlannedAdvance(t, kind, g);
      NothingFromOver(t, kind, g);
    }
  }

  lemma NothingFromOver(t: Task, kind: Kind, g: Guards)
    requires !AnyTime(kind)
    ensures Over(t.row.state) ==> Planned(t, kind, g) == Err(Invalid)
  {
  }

  lemma TimelyIs(t: Task, c: Command)
    ensures Timely(t, c) <==> CandidateOk(c) && Find(t.events, c.transitionId).None? && c.expected == t.row.state
  {
  }

  /** In every reachable state a command appends its event if and only if it is timely and its gate is open;
      otherwise the task stays as it is. */
  lemma StepExactly(t: Task, c: Command, g: Guards)
    requires Inv(t)
    ensures var t' := Step(t, Request(c, g));
            if Timely(t, c) && Open(t, c.kind, g) then Appends(t, t', c, Target(t.row, c.kind), HeadOf(c.kind, g)) else t' == t
  {
    TimelyIs(t, c);
    EvaluatesExactly(t, c.kind, g);
    if Timely(t, c) && Open(t, c.kind, g) { PlanFacts(t, c, g); }
  }

  /** So it is after every run of the service. */
  lemma {:induction false} StepExactlyInRuns(bindings: Bindings, requests: seq<Request>, q: Request)
    ensures var t := Run(New(bindings), requests);
            var t' := Step(t, q);
            if Timely(t, q.command) && Open(t, q.command.kind, q.guards)
            then Appends(t, t', q.command, Target(t.row, q.command.kind), HeadOf(q.command.kind, q.guards)) else t' == t
  {
    RunKeeps(New(bindings), requests);
    StepExactly(Run(New(bindings), requests), q.command, q.guards);
  }
}
