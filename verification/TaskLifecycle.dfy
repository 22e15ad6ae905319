/** The task lifecycle: the triggers that guard a task row, the pure transition engine above them, and
    the task row with its append-only event log. */
module TaskLifecycle {
  import opened Wrappers

  datatype State =
    | Intake | Briefing | BriefPendingApproval | Implementing | Validating | Repairing | PrActive
    | ReadyForHumanMerge | HandedOff | Escalated | Failed | Cancelled

  datatype Kind =
    | StartBriefing | AutoAcceptBrief | RequestBriefApproval | ReviseBrief | ApproveExactBrief | BeginValidation
    | BeginRepair | Revalidate | OpenVerifiedDraftPr | MarkMergeReady | InvalidateReadiness | AcknowledgeHandoff
    | Escalate | Resume | Cancel | Fail | ScopeSteer

  datatype Outcome = AutomationHandedOff | FailedOutcome | CancelledOutcome

  /** The lifecycle columns of a task row. */
  datatype Row = Row(state: State, resume: Option<State>, outcome: Option<Outcome>)

  const INITIAL := Row(Intake, None, None)

  predicate Terminal(s: State) { s.HandedOff? || s.Failed? || s.Cancelled? }

  predicate Working(s: State) { !Terminal(s) && !s.Escalated? }

  // ----- the triggers

  predicate Projection(row: Row) {
    match row.state
    case Escalated => row.resume.Some? && Working(row.resume.value) && row.outcome.None?
    case HandedOff => row.resume.None? && row.outcome == Some(AutomationHandedOff)
    case Failed => row.resume.None? && row.outcome == Some(FailedOutcome)
    case Cancelled => row.resume.None? && row.outcome == Some(CancelledOutcome)
    case _ => row.resume.None? && row.outcome.None?
  }

  predicate LegalEdge(prior: Row, row: Row) {
    || (!Terminal(prior.state) && (row.state.Failed? || row.state.Cancelled?))
    || (Working(prior.state) && row.state.Escalated? && row.resume == Some(prior.state))
    || (prior.state.Escalated? && prior.resume == Some(row.state))
    || (Working(prior.state) && row.state.Briefing?)
    || (prior.state.Briefing? && (row.state.BriefPendingApproval? || row.state.Implementing?))
    || (prior.state.BriefPendingApproval? && (row.state.Briefing? || row.state.Implementing?))
    || (prior.state.Implementing? && row.state.Validating?)
    || ((prior.state.Validating? || prior.state.PrActive?) && row.state.Repairing?)
    || (prior.state.Repairing? && row.state.Validating?)
    || (prior.state.Validating? && row.state.PrActive?)
    || (prior.state.PrActive? && row.state.ReadyForHumanMerge?)
    || (prior.state.ReadyForHumanMerge? && (row.state.PrActive? || row.state.HandedOff?))
  }

  predicate EventEdge(kind: Kind, prior: Row, row: Row) {
    match kind
    case StartBriefing => prior.state.Intake? && row.state.Briefing?
    case AutoAcceptBrief => prior.state.Briefing? && row.state.Implementing?
    case RequestBriefApproval => prior.state.Briefing? && row.state.BriefPendingApproval?
    case ReviseBrief => prior.state.BriefPendingApproval? && row.state.Briefing?
    case ApproveExactBrief => prior.state.BriefPendingApproval? && row.state.Implementing?
    case BeginValidation => prior.state.Implementing? && row.state.Validating?
    case BeginRepair => (prior.state.Validating? || prior.state.PrActive?) && row.state.Repairing?
    case Revalidate => prior.state.Repairing? && row.state.Validating?
    case OpenVerifiedDraftPr => prior.state.Validating? && row.state.PrActive?
    case MarkMergeReady => prior.state.PrActive? && row.state.ReadyForHumanMerge?
    case InvalidateReadiness => prior.state.ReadyForHumanMerge? && row.state.PrActive?
    case AcknowledgeHandoff => prior.state.ReadyForHumanMerge? && row.state.HandedOff?
    case Escalate => Working(prior.state) && row.state.Escalated? && row.resume == Some(prior.state)
    case Resume => prior.state.Escalated? && prior.resume == Some(row.state)
    case Cancel => !Terminal(prior.state) && row.state.Cancelled?
    case Fail => !Terminal(prior.state) && row.state.Failed?
    case ScopeSteer => Working(prior.state) && row.state.Briefing?
  }

  /** The state trigger and the event trigger know the same edges: a change is legal if and only if some kind
      of event makes it. */
  lemma LegalIsSomeEvent(prior: Row, row: Row)
    ensures LegalEdge(prior, row) <==> exists kind :: EventEdge(kind, prior, row)
  {
    if LegalEdge(prior, row) {
      var kind := match row.state
        case Failed => Fail
        case Cancelled => Cancel
        case Escalated => if Working(prior.state) then Escalate else Resume
        case _ =>
          if prior.state.Escalated? then Resume
          else match row.state
            case Briefing => ScopeSteer
            case BriefPendingApproval => RequestBriefApproval
            case Implementing => if prior.state.Briefing? then AutoAcceptBrief else ApproveExactBrief
            case Validating => if prior.state.Implementing? then BeginValidation else Revalidate
            case Repairing => BeginRepair
            case PrActive => if prior.state.Validating? then OpenVerifiedDraftPr else InvalidateReadiness
            case ReadyForHumanMerge => MarkMergeReady
            case _ => AcknowledgeHandoff;
      assert EventEdge(kind, prior, row);
    }
  }

  /** The command that an event records, as its fingerprint covers it. */
  datatype Command = Command(
    transitionId: nat, expected: State, kind: Kind, reason: string, evidence: seq<nat>, candidate: Option<(string, string)>)

  datatype Event = Event(command: Command, kind: Kind, from: State, to: State, gateHead: Option<string>)

  /** The update trigger: a lifecycle change needs the latest event to describe exactly this edge. */
  predicate UpdateAdmitted(events: seq<Event>, prior: Row, row: Row) {
    && Projection(row)
    && (row == prior ||
        (&& LegalEdge(prior, row) && events != []
         && var e := events[|events| - 1];
            e.from == prior.state && e.to == row.state && EventEdge(e.kind, prior, row)))
  }

  // ----- the pure engine

  datatype DraftFacts = DraftFacts(
    head: string, validated: string, local: string, remote: string, pullRequest: string,
    validationPassed: bool, artifactsPresent: bool, branchClean: bool, isDraft: bool,
    noUnresolvedApproval: bool, cancellationClear: bool)

  datatype ReadinessFacts = ReadinessFacts(draft: DraftFacts, ciGreen: bool, noBlockingReview: bool, repairsAuthorized: bool)

  datatype Guards = Guards(
    briefBypass: bool, briefApprovalRequired: bool, briefRevisionRequested: bool, exactBriefApproval: bool,
    repairAuthorized: bool, draft: Option<DraftFacts>, readiness: Option<ReadinessFacts>, invalidationCurrent: bool,
    handoffAcknowledged: bool, resumeDecided: bool, resumeCurrent: bool, resumeRechecked: bool,
    workFenced: bool, scopeInvalidated: bool)

  datatype Refusal = Invalid | Conflict | TriggerRefused

  datatype Plan = Plan(row: Row, gateHead: Option<string>, retryDelta: nat, invalidateBindings: bool)

  predicate Sha(s: string) {
    (|s| == 40 || |s| == 64) && forall c <- s :: '0' <= c <= '9' || 'a' <= c <= 'f'
  }

  predicate VerifiedDraft(f: DraftFacts) {
    && Sha(f.head) && f.validated == f.head && f.local == f.head && f.remote == f.head && f.pullRequest == f.head
    && f.validationPassed && f.artifactsPresent && f.branchClean && f.isDraft && f.noUnresolvedApproval && f.cancellationClear
  }

  predicate VerifiedReady(verifiedHead: Option<string>, f: ReadinessFacts) {
    && VerifiedDraft(f.draft) && verifiedHead == Some(f.draft.head)
    && f.ciGreen && f.noBlockingReview && f.repairsAuthorized
  }

  function Go(row: Row): Result<Plan, Refusal> {
    Ok(Plan(row, None, 0, false))
  }

  function At(s: State): Row { Row(s, None, None) }

  function Evaluate(row: Row, verifiedHead: Option<string>, kind: Kind, g: Guards): Result<Plan, Refusal> {
    var s := row.state;
    if Terminal(s) then Err(Invalid)
    else if kind.Cancel? then Go(Row(Cancelled, None, Some(CancelledOutcome)))
    else if kind.Fail? then Go(Row(Failed, None, Some(FailedOutcome)))
    else if kind.Escalate? then (if s.Escalated? then Err(Invalid) else Go(Row(Escalated, Some(s), None)))
    else if kind.Resume? then
      if !s.Escalated? || row.resume.None? || !Working(row.resume.value)
         || !g.resumeDecided || !g.resumeCurrent || !g.resumeRechecked then Err(Invalid)
      else Go(At(row.resume.value))
    else if kind.ScopeSteer? then
      if s.Escalated? || !g.workFenced || !g.scopeInvalidated then Err(Invalid)
      else Ok(Plan(At(Briefing), None, 0, true))
    else Advance(s, verifiedHead, kind, g)
  }

  /** The transitions with one source state and one gate each. */
  function Advance(s: State, verifiedHead: Option<string>, kind: Kind, g: Guards): Result<Plan, Refusal> {
    match kind
    case StartBriefing => if s.Intake? then Go(At(Briefing)) else Err(Invalid)
    case AutoAcceptBrief => if s.Briefing? && g.briefBypass then Go(At(Implementing)) else Err(Invalid)
    case RequestBriefApproval => if s.Briefing? && g.briefApprovalRequired then Go(At(BriefPendingApproval)) else Err(Invalid)
    case ReviseBrief => if s.BriefPendingApproval? && g.briefRevisionRequested then Go(At(Briefing)) else Err(Invalid)
    case ApproveExactBrief => if s.BriefPendingApproval? && g.exactBriefApproval then Go(At(Implementing)) else Err(Invalid)
    case BeginValidation => if s.Implementing? then Go(At(Validating)) else Err(Invalid)
    case BeginRepair =>
      if (s.Validating? || s.PrActive?) && g.repairAuthorized then Ok(Plan(At(Repairing), None, 1, false)) else Err(Invalid)
    case Revalidate => if s.Repairing? then Go(At(Validating)) else Err(Invalid)
    case OpenVerifiedDraftPr =>
      if s.Validating? && g.draft.Some? && VerifiedDraft(g.draft.value)
      then Ok(Plan(At(PrActive), Some(g.draft.value.head), 0, false)) else Err(Invalid)
    case MarkMergeReady =>
      if s.PrActive? && g.readiness.Some? && VerifiedReady(verifiedHead, g.readiness.value)
      then Ok(Plan(At(ReadyForHumanMerge), Some(g.readiness.value.draft.head), 0, false)) else Err(Invalid)
    case InvalidateReadiness => if s.ReadyForHumanMerge? && g.invalidationCurrent then Go(At(PrActive)) else Err(Invalid)
    case AcknowledgeHandoff =>
      if s.ReadyForHumanMerge? && g.handoffAcknowledged && g.readiness.Some? && VerifiedReady(verifiedHead, g.readiness.value)
      then Ok(Plan(Row(HandedOff, None, Some(AutomationHandedOff)), Some(g.readiness.value.draft.head), 0, false))
      else Err(Invalid)
    case _ => Err(Invalid)
  }

  /** The gates of a kind, apart from where the task stands. */
  predicate GatesOpen(kind: Kind, verifiedHead: Option<string>, g: Guards) {
    match kind
    case AutoAcceptBrief => g.briefBypass
    case RequestBriefApproval => g.briefApprovalRequired
    case ReviseBrief => g.briefRevisionRequested
    case ApproveExactBrief => g.exactBriefApproval
    case BeginRepair => g.repairAuthorized
    case OpenVerifiedDraftPr => g.draft.Some? && VerifiedDraft(g.draft.value)
    case MarkMergeReady => g.readiness.Some? && VerifiedReady(verifiedHead, g.readiness.value)
    case InvalidateReadiness => g.invalidationCurrent
    case AcknowledgeHandoff => g.handoffAcknowledged && g.readiness.Some? && VerifiedReady(verifiedHead, g.readiness.value)
    case Resume => g.resumeDecided && g.resumeCurrent && g.resumeRechecked
    case ScopeSteer => g.workFenced && g.scopeInvalidated
    case _ => true
  }

  lemma EngineMoves(row: Row, verifiedHead: Option<string>, kind: Kind, g: Guards, plan: Plan)
    requires Projection(row) && Evaluate(row, verifiedHead, kind, g) == Ok(plan)
    ensures Projection(plan.row) && EventEdge(kind, row, plan.row) && GatesOpen(kind, verifiedHead, g)
  {
  }

  lemma TriggerMoves(row: Row, next: Row, verifiedHead: Option<string>, kind: Kind, g: Guards)
    requires Projection(row) && Projection(next) && EventEdge(kind, row, next) && GatesOpen(kind, verifiedHead, g)
    ensures Evaluate(row, verifiedHead, kind, g).Ok? && Evaluate(row, verifiedHead, kind, g).value.row == next
  {
  }

  /** The engine takes a task from one row to another exactly when the triggers know such an edge for
      this kind and the kind's own gates are open. */
  lemma EngineIsTrigger(row: Row, next: Row, verifiedHead: Option<string>, kind: Kind, g: Guards)
    requires Projection(row)
    ensures (exists plan :: Evaluate(row, verifiedHead, kind, g) == Ok(plan) && plan.row == next)
            <==> Projection(next) && EventEdge(kind, row, next) && GatesOpen(kind, verifiedHead, g)
  {
    if plan :| Evaluate(row, verifiedHead, kind, g) == Ok(plan) && plan.row == next {
      EngineMoves(row, verifiedHead, kind, g, plan);
    }
    if Projection(next) && EventEdge(kind, row, next) && GatesOpen(kind, verifiedHead, g) {
      TriggerMoves(row, next, verifiedHead, kind, g);
      assert Evaluate(row, verifiedHead, kind, g) == Ok(Evaluate(row, verifiedHead, kind, g).value);
    }
  }

  /** An event edge is a legal edge or changes nothing, and leads to one row only. */
  lemma EventEdgeLegal(kind: Kind, prior: Row, row: Row)
    requires Projection(prior) && EventEdge(kind, prior, row)
    ensures LegalEdge(prior, row)
    ensures forall other :: EventEdge(kind, prior, other) && Projection(other) && Projection(row) ==> other == row
  {
  }

  /** The update trigger lets a row change if and only if the last event tells that edge. */
  lemma UpdateExactly(events: seq<Event>, prior: Row, row: Row)
    requires Projection(row) && row != prior
    ensures UpdateAdmitted(events, prior, row)
            <==> exists e :: events != [] && e == events[|events| - 1] && e.from == prior.state && e.to == row.state
                             && EventEdge(e.kind, prior, row)
  {
    LegalIsSomeEvent(prior, row);
  }

  /** No admitted update moves a terminal task. */
  lemma TerminalFinal(events: seq<Event>, prior: Row, row: Row)
    requires Projection(prior) && Terminal(prior.state) && UpdateAdmitted(events, prior, row)
    ensures row == prior
  {
  }

  // ----- the task and its log

  /** The bindings that scope steering clears. */
  datatype Bindings = Bindings(brief: Option<nat>, approval: Option<nat>, contract: Option<nat>)

  datatype Task = Task(row: Row, retryCount: int, bindings: Bindings, events: seq<Event>)

  datatype Receipt = Receipt(sequence: nat, from: State, to: State, replayed: bool)

  function LatestHead(events: seq<Event>): Option<string>
    decreases |events|
  {
    if events == [] then None
    else if events[|events| - 1].gateHead.Some? then events[|events| - 1].gateHead
    else LatestHead(events[..|events| - 1])
  }

  /** The position of the event with this transition id. */
  function Find(events: seq<Event>, id: nat): (r: Option<nat>)
    ensures r.Some? ==> r.value < |events| && events[r.value].command.transitionId == id
    ensures r.None? ==> forall n :: 0 <= n < |events| ==> events[n].command.transitionId != id
    decreases |events|
  {
    if events == [] then None
    else if events[|events| - 1].command.transitionId == id then Some(|events| - 1)
    else Find(events[..|events| - 1], id)
  }

  predicate CandidateOk(c: Command) {
    c.candidate.Some? <==> c.kind.BeginValidation? || c.kind.Revalidate?
  }

  function Applied(t: Task, c: Command, plan: Plan): Task {
    var e := Event(c, c.kind, t.row.state, plan.row.state, plan.gateHead);
    Task(plan.row, t.retryCount + plan.retryDelta,
         if plan.invalidateBindings then Bindings(None, None, None) else t.bindings, t.events + [e])
  }

  function Transition(t: Task, c: Command, g: Guards): Result<(Task, Receipt), Refusal> {
    if !CandidateOk(c) then Err(Invalid)
    else
      var existing := Find(t.events, c.transitionId);
      if existing.Some? then
        var e := t.events[existing.value];
        if e.command == c then Ok((t, Receipt(existing.value + 1, e.from, e.to, true))) else Err(Conflict)
      else if t.row.state != c.expected then Err(Conflict)
      else
        var plan :- Evaluate(t.row, LatestHead(t.events), c.kind, g);
        var t' := Applied(t, c, plan);
        if !UpdateAdmitted(t'.events, t.row, t'.row) then Err(TriggerRefused)
        else Ok((t', Receipt(|t'.events|, t.row.state, t'.row.state, false)))
  }

  /** The task row and its events, updated in place. */
  class TaskRecord {
    var state: State
    var escalationResumeState: Option<State>
    var terminalOutcome: Option<Outcome>
    var retryCount: int
    var bindings: Bindings
    var events: seq<Event>

    function Snapshot(): Task
      reads this
    {
      Task(Row(state, escalationResumeState, terminalOutcome), retryCount, bindings, events)
    }

    constructor (bindings: Bindings)
      ensures Snapshot() == Task(INITIAL, 0, bindings, [])
    {
      state, escalationResumeState, terminalOutcome, retryCount := Intake, None, None, 0;
      this.bindings, events := bindings, [];
    }

    /** Appends the event, then updates the row, as one transaction. */
    method Apply(c: Command, g: Guards) returns (r: Result<Receipt, Refusal>)
      modifies this
      ensures var after := Transition(old(Snapshot()), c, g);
              match after
              case Ok((t, receipt)) => r == Ok(receipt) && Snapshot() == t
              case Err(e) => r == Err(e) && Snapshot() == old(Snapshot())
    {
      if !CandidateOk(c) { return Err(Invalid); }
      var existing := Find(events, c.transitionId);
      if existing.Some? {
        var e := events[existing.value];
        if e.command != c { return Err(Conflict); }
        return Ok(Receipt(existing.value + 1, e.from, e.to, true));
      }
      if state != c.expected { return Err(Conflict); }
      var prior := Row(state, escalationResumeState, terminalOutcome);
      var evaluated := Evaluate(prior, LatestHead(events), c.kind, g);
      if evaluated.Err? { return Err(evaluated.error); }
      var plan := evaluated.value;
      var appended := events + [Event(c, c.kind, state, plan.row.state, plan.gateHead)];
      if !UpdateAdmitted(appended, prior, plan.row) { return Err(TriggerRefused); }
      events := appended;
      state, escalationResumeState, terminalOutcome := plan.row.state, plan.row.resume, plan.row.outcome;
      retryCount := retryCount + plan.retryDelta;
      if plan.invalidateBindings { bindings := Bindings(None, None, None); }
      return Ok(Receipt(|events|, prior.state, state, false));
    }
  }
}
