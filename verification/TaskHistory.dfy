/** What the event log of a task says about its row, over every run. */
module TaskHistory {
  import opened Wrappers
  import opened TaskLifecycle

  // ----- runs

  datatype Request = Request(command: Command, guards: Guards)

  function Step(t: Task, q: Request): Task {
    var r := Transition(t, q.command, q.guards);
    if r.Ok? then r.value.0 else t
  }

  function Run(t: Task, requests: seq<Request>): Task
    decreases |requests|
  {
    if requests == [] then t else Run(Step(t, requests[0]), requests[1..])
  }

  function New(bindings: Bindings): Task {
    Task(INITIAL, 0, bindings, [])
  }

  // ----- replaying the audit log

  /** The row that an event leads to, read off its two state columns. */
  function RowOf(e: Event): Row {
    match e.to
    case Escalated => Row(Escalated, Some(e.from), None)
    case HandedOff => Row(HandedOff, None, Some(AutomationHandedOff))
    case Failed => Row(Failed, None, Some(FailedOutcome))
    case Cancelled => Row(Cancelled, None, Some(CancelledOutcome))
    case _ => Row(e.to, None, None)
  }

  /** Folds the events from the initial row; None when one does not follow from the row before it. */
  function Replay(events: seq<Event>): Option<Row>
    decreases |events|
  {
    if events == [] then Some(INITIAL)
    else
      var row :- Replay(events[..|events| - 1]);
      var e := events[|events| - 1];
      if e.from == row.state && EventEdge(e.kind, row, RowOf(e)) then Some(RowOf(e)) else None
  }

  function Repairs(events: seq<Event>): nat
    decreases |events|
  {
    if events == [] then 0
    else Repairs(events[..|events| - 1]) + if events[|events| - 1].kind.BeginRepair? then 1 else 0
  }

  /** The head of the latest draft pull request that was opened. */
  function OpenedHead(events: seq<Event>): Option<string>
    decreases |events|
  {
    if events == [] then None
    else if events[|events| - 1].kind.OpenVerifiedDraftPr? then events[|events| - 1].gateHead
    else OpenedHead(events[..|events| - 1])
  }

  /** Merge readiness and hand-off are recorded for the head of the latest opened draft only. */
  ghost predicate HeadsPinned(events: seq<Event>) {
    forall n :: 0 <= n < |events| && (events[n].kind.MarkMergeReady? || events[n].kind.AcknowledgeHandoff?) ==>
      events[n].gateHead.Some? && events[n].gateHead == OpenedHead(events[..n])
  }

  ghost predicate IdsDistinct(events: seq<Event>) {
    forall n, m :: 0 <= n < m < |events| ==> events[n].command.transitionId != events[m].command.transitionId
  }

  ghost predicate Inv(t: Task) {
    && Projection(t.row)
    && Replay(t.events) == Some(t.row)
    && t.retryCount == Repairs(t.events)
    && HeadsPinned(t.events) && LatestHead(t.events) == OpenedHead(t.events)
    && IdsDistinct(t.events)
    && (forall n :: 0 <= n < |t.events| ==> !Terminal(t.events[n].from) && t.events[n].kind == t.events[n].command.kind)
  }

  /** The heads and the retries that a plan records. */
  lemma PlanHeads(row: Row, head: Option<string>, kind: Kind, g: Guards)
    requires Evaluate(row, head, kind, g).Ok?
    ensures var plan := Evaluate(row, head, kind, g).value;
            && plan.retryDelta == (if kind.BeginRepair? then 1 else 0)
            && (kind.MarkMergeReady? || kind.AcknowledgeHandoff? ==> plan.gateHead.Some? && plan.gateHead == head)
            && (plan.gateHead.Some? <==> kind.OpenVerifiedDraftPr? || kind.MarkMergeReady? || kind.AcknowledgeHandoff?)
  {
  }

  lemma PlanRow(row: Row, head: Option<string>, kind: Kind, g: Guards)
    requires Projection(row) && Evaluate(row, head, kind, g).Ok?
    ensures var next := Evaluate(row, head, kind, g).value.row;
            !Terminal(row.state) && Projection(next) && EventEdge(kind, row, next) && LegalEdge(row, next)
  {
    var next := Evaluate(row, head, kind, g).value.row;
    EngineIsTrigger(row, next, head, kind, g);
    EventEdgeLegal(kind, row, next);
  }

  lemma RowRead(e: Event, row: Row, next: Row)
    requires Projection(row) && Projection(next) && EventEdge(e.kind, row, next) && e.from == row.state && e.to == next.state
    ensures RowOf(e) == next
  {
  }

  /** What an accepted plan tells about its event. */
  lemma PlanFacts(t: Task, c: Command, g: Guards)
    requires Inv(t) && Evaluate(t.row, LatestHead(t.events), c.kind, g).Ok?
    ensures var plan := Evaluate(t.row, LatestHead(t.events), c.kind, g).value;
            var e := Event(c, c.kind, t.row.state, plan.row.state, plan.gateHead);
            && !Terminal(t.row.state) && Projection(plan.row) && RowOf(e) == plan.row && EventEdge(c.kind, t.row, plan.row)
            && UpdateAdmitted(t.events + [e], t.row, plan.row)
  {
    var plan := Evaluate(t.row, LatestHead(t.events), c.kind, g).value;
    PlanRow(t.row, LatestHead(t.events), c.kind, g);
    RowRead(Event(c, c.kind, t.row.state, plan.row.state, plan.gateHead), t.row, plan.row);
  }

  lemma Appended(t: Task, c: Command, g: Guards)
    requires Inv(t) && Find(t.events, c.transitionId).None? && Evaluate(t.row, LatestHead(t.events), c.kind, g).Ok?
    ensures Inv(Applied(t, c, Evaluate(t.row, LatestHead(t.events), c.kind, g).value))
  {
    PlanFacts(t, c, g);
    PlanHeads(t.row, LatestHead(t.events), c.kind, g);
    var plan := Evaluate(t.row, LatestHead(t.events), c.kind, g).value;
    var e := Event(c, c.kind, t.row.state, plan.row.state, plan.gateHead);
    var events := t.events + [e];
    assert events[..|t.events|] == t.events;
    forall n | 0 <= n < |events| && (events[n].kind.MarkMergeReady? || events[n].kind.AcknowledgeHandoff?)
      ensures events[n].gateHead.Some? && events[n].gateHead == OpenedHead(events[..n])
    {
      if n < |t.events| { assert events[..n] == t.events[..n]; }
    }
  }

  /** A transition keeps row and log in agreement, and no trigger ever turns down what the engine
      accepted. */
  lemma TransitionKeeps(t: Task, c: Command, g: Guards)
    requires Inv(t)
    ensures Transition(t, c, g) != Err(TriggerRefused)
    ensures Inv(Step(t, Request(c, g)))
  {
    if Find(t.events, c.transitionId).None? && Evaluate(t.row, LatestHead(t.events), c.kind, g).Ok? {
      PlanFacts(t, c, g);
      Appended(t, c, g);
    }
  }

  lemma {:induction false} RunKeeps(t: Task, requests: seq<Request>)
    requires Inv(t)
    ensures Inv(Run(t, requests))
    decreases |requests|
  {
    if requests != [] {
      TransitionKeeps(t, requests[0].command, requests[0].guards);
      RunKeeps(Step(t, requests[0]), requests[1..]);
    }
  }

  /** In every reachable state the log alone gives the lifecycle columns and the retry count, the
      projection shape holds, nothing follows a terminal transition, and readiness and hand-off were
      recorded for the head of the latest verified draft. */
  lemma {:induction false} AuditReplay(bindings: Bindings, requests: seq<Request>)
    ensures var t := Run(New(bindings), requests);
            && Replay(t.events) == Some(t.row) && Projection(t.row) && t.retryCount == Repairs(t.events)
            && HeadsPinned(t.events)
            && forall n :: 0 <= n < |t.events| - 1 ==> !Terminal(t.events[n].to)
  {
    RunKeeps(New(bindings), requests);
    var t := Run(New(bindings), requests);
    forall n | 0 <= n < |t.events| - 1 ensures !Terminal(t.events[n].to) {
      EventsChain(t.events, n);
    }
  }

  lemma {:induction false} EventsChain(events: seq<Event>, n: nat)
    requires Replay(events).Some? && n + 1 < |events|
    ensures events[n + 1].from == events[n].to
    decreases |events|
  {
    var init := events[..|events| - 1];
    if n + 1 < |init| {
      EventsChain(init, n);
    } else {
      assert init[..|init| - 1] == events[..n];
    }
  }

  lemma {:induction false} FindUnique(events: seq<Event>, n: nat)
    requires IdsDistinct(events) && n < |events|
    ensures Find(events, events[n].command.transitionId) == Some(n)
    decreases |events|
  {
    if n < |events| - 1 {
      assert events[..|events| - 1][n] == events[n];
      FindUnique(events[..|events| - 1], n);
    }
  }

  /** Sending an accepted command again, at any later time and under any gates, changes nothing and
      returns the first receipt; sending another command under its id is a conflict. */
  lemma Idempotent(t: Task, n: nat, c: Command, g: Guards)
    requires Inv(t) && n < |t.events| && c.transitionId == t.events[n].command.transitionId && CandidateOk(c)
    ensures Transition(t, c, g) == if c == t.events[n].command
                                   then Ok((t, Receipt(n + 1, t.events[n].from, t.events[n].to, true))) else Err(Conflict)
  {
    FindUnique(t.events, n);
  }

  // ----- escalation erased

  /** The row after one transition of a kind, when there is one. */
  function Next(row: Row, kind: Kind): Option<Row> {
    var s := row.state;
    match kind
    case StartBriefing => if s.Intake? then Some(At(Briefing)) else None
    case AutoAcceptBrief => if s.Briefing? then Some(At(Implementing)) else None
    case RequestBriefApproval => if s.Briefing? then Some(At(BriefPendingApproval)) else None
    case ReviseBrief => if s.BriefPendingApproval? then Some(At(Briefing)) else None
    case ApproveExactBrief => if s.BriefPendingApproval? then Some(At(Implementing)) else None
    case BeginValidation => if s.Implementing? then Some(At(Validating)) else None
    case BeginRepair => if s.Validating? || s.PrActive? then Some(At(Repairing)) else None
    case Revalidate => if s.Repairing? then Some(At(Validating)) else None
    case OpenVerifiedDraftPr => if s.Validating? then Some(At(PrActive)) else None
    case MarkMergeReady => if s.PrActive? then Some(At(ReadyForHumanMerge)) else None
    case InvalidateReadiness => if s.ReadyForHumanMerge? then Some(At(PrActive)) else None
    case AcknowledgeHandoff => if s.ReadyForHumanMerge? then Some(Row(HandedOff, None, Some(AutomationHandedOff))) else None
    case Escalate => if Working(s) then Some(Row(Escalated, Some(s), None)) else None
    case Resume => if s.Escalated? && row.resume.Some? then Some(At(row.resume.value)) else None
    case Cancel => if Terminal(s) then None else Some(Row(Cancelled, None, Some(CancelledOutcome)))
    case Fail => if Terminal(s) then None else Some(Row(Failed, None, Some(FailedOutcome)))
    case ScopeSteer => if Working(s) then Some(At(Briefing)) else None
  }

  /** Next is the one row an event edge of the kind leads to. */
  lemma NextIsEdge(row: Row, kind: Kind, next: Row)
    requires Projection(row)
    ensures Next(row, kind) == Some(next) <==> Projection(next) && EventEdge(kind, row, next)
  {
  }

  function Walk(kinds: seq<Kind>): Option<Row>
    decreases |kinds|
  {
    if kinds == [] then Some(INITIAL)
    else
      var row :- Walk(kinds[..|kinds| - 1]);
      Next(row, kinds[|kinds| - 1])
  }

  function Kinds(events: seq<Event>): (ks: seq<Kind>)
    ensures |ks| == |events| && forall n :: 0 <= n < |events| ==> ks[n] == events[n].kind
  {
    seq(|events|, n requires 0 <= n < |events| => events[n].kind)
  }

  /** A log that replays is a walk of its kinds. */
  lemma {:induction false} ReplayIsWalk(events: seq<Event>)
    requires Replay(events).Some? && forall n :: 0 <= n < |events| ==> !Terminal(events[n].from)
    ensures Walk(Kinds(events)) == Replay(events) && Projection(Replay(events).value)
    decreases |events|
  {
    if events != [] {
      var init, e := events[..|events| - 1], events[|events| - 1];
      ReplayIsWalk(init);
      assert Kinds(events)[..|events| - 1] == Kinds(init);
      NextIsEdge(Replay(init).value, e.kind, RowOf(e));
    }
  }

  predicate Detour(k: Kind) { k.Escalate? || k.Resume? }

  function Erased(kinds: seq<Kind>): (ks: seq<Kind>)
    ensures forall n :: 0 <= n < |ks| ==> !Detour(ks[n])
    decreases |kinds|
  {
    if kinds == [] then []
    else if Detour(kinds[|kinds| - 1]) then Erased(kinds[..|kinds| - 1])
    else Erased(kinds[..|kinds| - 1]) + [kinds[|kinds| - 1]]
  }

  /** The row with a pending escalation looked through. */
  function Effective(row: Row): Row {
    if row.state.Escalated? && row.resume.Some? then At(row.resume.value) else row
  }

  /** Without its escalations and resumptions, a run is still a run, with the same effective state
      and the same outcome. */
  lemma {:induction false} EscalationErased(kinds: seq<Kind>)
    requires Walk(kinds).Some?
    ensures Projection(Walk(kinds).value)
    ensures Walk(Erased(kinds)) == Some(Effective(Walk(kinds).value))
    decreases |kinds|
  {
    if kinds != [] {
      var init, k := kinds[..|kinds| - 1], kinds[|kinds| - 1];
      EscalationErased(init);
      NextIsEdge(Walk(init).value, k, Walk(kinds).value);
      if !Detour(k) { assert Erased(kinds)[..|Erased(kinds)| - 1] == Erased(init); }
    }
  }

  // ----- the order of the gates

  /** The state after n transitions. */
  function StateAt(kinds: seq<Kind>, n: nat): State
    requires n <= |kinds|
  {
    var row := Walk(kinds[..n]);
    if row.Some? then row.value.state else Intake
  }

  lemma {:induction false} WalkPrefix(kinds: seq<Kind>, n: nat)
    requires Walk(kinds).Some? && n <= |kinds|
    ensures Walk(kinds[..n]).Some?
    decreases |kinds|
  {
    if n < |kinds| {
      WalkPrefix(kinds[..|kinds| - 1], n);
      assert kinds[..|kinds| - 1][..n] == kinds[..n];
    } else {
      assert kinds[..n] == kinds;
    }
  }

  lemma {:induction false} StepAt(kinds: seq<Kind>, n: nat)
    requires Walk(kinds).Some? && n < |kinds|
    ensures Walk(kinds[..n]).Some? && Next(Walk(kinds[..n]).value, kinds[n]) == Walk(kinds[..n + 1])
    ensures Walk(kinds[..n + 1]).Some?
  {
    WalkPrefix(kinds, n);
    WalkPrefix(kinds, n + 1);
    assert kinds[..n + 1][..n] == kinds[..n];
  }

  /** From outside the states, only this kind leads inside. */
  ghost predicate OnlyWayIn(states: set<State>, k: Kind) {
    forall row: Row, j: Kind :: !Detour(j) && row.state !in states && Next(row, j).Some? && Next(row, j).value.state in states ==> j == k
  }

  ghost predicate Smooth(kinds: seq<Kind>) {
    Walk(kinds).Some? && forall n :: 0 <= n < |kinds| ==> !Detour(kinds[n])
  }

  /** A run that gets inside goes through the only way in. */
  lemma {:induction false} MustEnter(kinds: seq<Kind>, lo: nat, hi: nat, states: set<State>, k: Kind) returns (n: nat)
    requires Smooth(kinds) && lo <= hi <= |kinds| && OnlyWayIn(states, k)
    requires StateAt(kinds, lo) !in states && StateAt(kinds, hi) in states
    ensures lo <= n < hi && kinds[n] == k
    decreases hi
  {
    StepAt(kinds, hi - 1);
    var inside := StateAt(kinds, hi - 1) in states;
    if inside {
      n := MustEnter(kinds, lo, hi - 1, states, k);
    } else {
      n := hi - 1;
    }
  }

  /** Merge readiness may be offered or was acknowledged. */
  predicate Offered(s: State) { s.ReadyForHumanMerge? || s.HandedOff? }

  ghost predicate Before(kinds: seq<Kind>, a: nat, v: nat, o: nat, m: nat) {
    a < v < o < m < |kinds| && kinds[o] == OpenVerifiedDraftPr && kinds[m] == MarkMergeReady
  }

  /** Whoever starts from validation still has to open a draft and mark it ready. */
  lemma ThenOpenAndMark(kinds: seq<Kind>, v: nat) returns (o: nat, m: nat)
    requires Smooth(kinds) && v < |kinds| && StateAt(kinds, v + 1).Validating? && Offered(StateAt(kinds, |kinds|))
    ensures v < o < m < |kinds| && kinds[o] == OpenVerifiedDraftPr && kinds[m] == MarkMergeReady
  {
    o := MustEnter(kinds, v + 1, |kinds|, {PrActive, ReadyForHumanMerge, HandedOff}, OpenVerifiedDraftPr);
    StepAt(kinds, o);
    m := MustEnter(kinds, o + 1, |kinds|, {ReadyForHumanMerge, HandedOff}, MarkMergeReady);
  }

  predicate EntersBriefing(k: Kind) { k.StartBriefing? || k.ReviseBrief? || k.ScopeSteer? }

  /** After every entry to briefing, and so after the last one, the gates come in order: validation
      begins, a verified draft is opened, it is marked ready. */
  lemma GatesAfterBriefing(kinds: seq<Kind>, b: nat) returns (v: nat, o: nat, m: nat)
    requires Smooth(kinds) && Offered(StateAt(kinds, |kinds|)) && b < |kinds| && EntersBriefing(kinds[b])
    ensures Before(kinds, b, v, o, m) && kinds[v] == BeginValidation
  {
    StepAt(kinds, b);
    v := MustEnter(kinds, b + 1, |kinds|, {Validating, Repairing, PrActive, ReadyForHumanMerge, HandedOff}, BeginValidation);
    StepAt(kinds, v);
    o, m := ThenOpenAndMark(kinds, v);
  }

  /** Never briefed, or ended. */
  predicate Unbriefed(s: State) { s.Intake? || s.Failed? || s.Cancelled? }

  /** Whoever got anywhere entered briefing at some point. */
  lemma {:induction false} BriefedBefore(kinds: seq<Kind>, n: nat) returns (b: nat)
    requires Smooth(kinds) && n <= |kinds| && !Unbriefed(StateAt(kinds, n))
    ensures b < n && EntersBriefing(kinds[b])
    decreases n
  {
    assert Walk(kinds[..0]) == Some(INITIAL);
    StepAt(kinds, n - 1);
    if Unbriefed(StateAt(kinds, n - 1)) {
      b := n - 1;
    } else {
      b := BriefedBefore(kinds, n - 1);
    }
  }

  ghost predicate LastRepair(kinds: seq<Kind>, r: nat) {
    r < |kinds| && kinds[r] == BeginRepair && forall n :: r < n < |kinds| ==> kinds[n] != BeginRepair
  }

  /** Something was revalidated after the repair, then opened, then marked ready. */
  ghost predicate Rechecked(kinds: seq<Kind>, r: nat) {
    exists v: nat, o: nat, m: nat :: Before(kinds, r, v, o, m) && kinds[v] == Revalidate
  }

  lemma {:induction false} NoRepairLeft(kinds: seq<Kind>, r: nat, n: nat)
    requires Smooth(kinds) && LastRepair(kinds, r) && r + 2 <= n <= |kinds|
    requires r + 1 < |kinds| && !StateAt(kinds, r + 2).Repairing?
    ensures !StateAt(kinds, n).Repairing?
    decreases n
  {
    if n > r + 2 {
      NoRepairLeft(kinds, r, n - 1);
      StepAt(kinds, n - 1);
    }
  }

  lemma AfterRepair(kinds: seq<Kind>, r: nat)
    requires Smooth(kinds) && Offered(StateAt(kinds, |kinds|)) && LastRepair(kinds, r)
    ensures r + 1 < |kinds| && (kinds[r + 1] == Revalidate || kinds[r + 1] == ScopeSteer)
    ensures StateAt(kinds, r + 2) == if kinds[r + 1] == Revalidate then Validating else Briefing
  {
    StepAt(kinds, r);
    NotEnded(kinds, r + 1);
    assert r + 1 < |kinds|;
    StepAt(kinds, r + 1);
    NotEnded(kinds, r + 2);
  }

  lemma SteeredNotRechecked(kinds: seq<Kind>, r: nat)
    requires Smooth(kinds) && LastRepair(kinds, r) && r + 1 < |kinds| && kinds[r + 1] == ScopeSteer
    requires StateAt(kinds, r + 2).Briefing?
    ensures !Rechecked(kinds, r)
  {
    forall v | r < v < |kinds| ensures kinds[v] != Revalidate {
      if v > r + 1 {
        NoRepairLeft(kinds, r, v);
        StepAt(kinds, v);
      }
    }
  }

  /** After the last repair the gates come in order if and only if the task did not leave the repair
      by scope steering, which goes back to briefing and validates the new work instead. */
  lemma GatesAfterRepair(kinds: seq<Kind>, r: nat)
    requires Smooth(kinds) && Offered(StateAt(kinds, |kinds|)) && LastRepair(kinds, r)
    ensures r + 1 < |kinds| && (kinds[r + 1] == Revalidate || kinds[r + 1] == ScopeSteer)
    ensures Rechecked(kinds, r) <==> kinds[r + 1] != ScopeSteer
  {
    AfterRepair(kinds, r);
    if kinds[r + 1] == Revalidate {
      var o, m := ThenOpenAndMark(kinds, r + 1);
      assert Before(kinds, r, r + 1, o, m);
    } else {
      SteeredNotRechecked(kinds, r);
    }
  }

  /** A run that ends with an offer was never failed or cancelled on the way. */
  lemma {:induction false} NotEnded(kinds: seq<Kind>, n: nat)
    requires Smooth(kinds) && n <= |kinds| && Offered(StateAt(kinds, |kinds|))
    ensures !StateAt(kinds, n).Failed? && !StateAt(kinds, n).Cancelled?
    decreases |kinds| - n
  {
    if n < |kinds| {
      NotEnded(kinds, n + 1);
      StepAt(kinds, n);
    }
  }

  const STEERED := [
    StartBriefing, AutoAcceptBrief, BeginValidation, BeginRepair, ScopeSteer, AutoAcceptBrief, BeginValidation,
    OpenVerifiedDraftPr, MarkMergeReady]

  lemma WalkMore(kinds: seq<Kind>, n: nat, row: Row, next: Row)
    requires n < |kinds| && Walk(kinds[..n]) == Some(row) && Next(row, kinds[n]) == Some(next)
    ensures Walk(kinds[..n + 1]) == Some(next)
  {
    assert kinds[..n + 1][..n] == kinds[..n];
  }

  lemma {:induction false} SteeredWalks(ks: seq<Kind>)
    requires |ks| == 9 && ks[0] == StartBriefing && ks[1] == AutoAcceptBrief && ks[2] == BeginValidation
    requires ks[3] == BeginRepair && ks[4] == ScopeSteer && ks[5] == AutoAcceptBrief && ks[6] == BeginValidation
    requires ks[7] == OpenVerifiedDraftPr && ks[8] == MarkMergeReady
    ensures Walk(ks) == Some(At(ReadyForHumanMerge))
  {
    WalkMore(ks, 0, INITIAL, At(Briefing));
    WalkMore(ks, 1, At(Briefing), At(Implementing));
    WalkMore(ks, 2, At(Implementing), At(Validating));
    WalkMore(ks, 3, At(Validating), At(Repairing));
    WalkMore(ks, 4, At(Repairing), At(Briefing));
    WalkMore(ks, 5, At(Briefing), At(Implementing));
    WalkMore(ks, 6, At(Implementing), At(Validating));
    WalkMore(ks, 7, At(Validating), At(PrActive));
    WalkMore(ks, 8, At(PrActive), At(ReadyForHumanMerge));
    assert ks[..9] == ks;
  }

  /** Such a run exists: merge-ready although nothing was revalidated after its last repair. */
  lemma SteeredOutOfRepair()
    ensures Smooth(STEERED) && Offered(StateAt(STEERED, |STEERED|)) && LastRepair(STEERED, 3) && !Rechecked(STEERED, 3)
  {
    SteeredWalks(STEERED);
    assert STEERED[..|STEERED|] == STEERED;
    GatesAfterRepair(STEERED, 3);
  }

  /** Validation, opening and marking came in this order after position b. */
  ghost predicate Passed(kinds: seq<Kind>, b: nat) {
    exists v: nat, o: nat, m: nat :: Before(kinds, b, v, o, m) && kinds[v] == BeginValidation
  }

  /** Briefing was entered, and the gates were passed after every entry. */
  ghost predicate GatesInOrder(kinds: seq<Kind>) {
    && (exists b: nat :: b < |kinds| && EntersBriefing(kinds[b]))
    && (forall b: nat :: b < |kinds| && EntersBriefing(kinds[b]) ==> Passed(kinds, b))
  }

  lemma OfferedKinds(kinds: seq<Kind>)
    requires Smooth(kinds) && Offered(StateAt(kinds, |kinds|))
    ensures GatesInOrder(kinds)
  {
    var b := BriefedBefore(kinds, |kinds|);
    forall b: nat | b < |kinds| && EntersBriefing(kinds[b]) ensures Passed(kinds, b) {
      var v, o, m := GatesAfterBriefing(kinds, b);
    }
  }

  /** After the last repair the gates were passed again unless scope steering ended it. */
  ghost predicate RepairGates(kinds: seq<Kind>) {
    forall r: nat :: LastRepair(kinds, r) ==>
      r + 1 < |kinds| && (Rechecked(kinds, r) <==> kinds[r + 1] != ScopeSteer)
  }

  lemma ErasedSmooth(t: Task)
    requires Inv(t) && Offered(Effective(t.row).state)
    ensures var kinds := Erased(Kinds(t.events)); Smooth(kinds) && Offered(StateAt(kinds, |kinds|))
  {
    ReplayIsWalk(t.events);
    EscalationErased(Kinds(t.events));
    var kinds := Erased(Kinds(t.events));
    assert kinds[..|kinds|] == kinds;
  }

  /** For a task as the service runs it: whenever it is, effectively, ready for merge or handed off, it
      entered briefing, the gates after every such entry were passed in order, and after the last repair
      they were passed again unless scope steering ended the repair; escalations looked through. */
  lemma {:induction false} OfferedTask(bindings: Bindings, requests: seq<Request>)
    requires Offered(Effective(Run(New(bindings), requests).row).state)
    ensures GatesInOrder(Erased(Kinds(Run(New(bindings), requests).events)))
    ensures RepairGates(Erased(Kinds(Run(New(bindings), requests).events)))
  {
    RunKeeps(New(bindings), requests);
    ErasedSmooth(Run(New(bindings), requests));
    var kinds := Erased(Kinds(Run(New(bindings), requests).events));
    OfferedKinds(kinds);
    forall r: nat | LastRepair(kinds, r)
      ensures r + 1 < |kinds| && (Rechecked(kinds, r) <==> kinds[r + 1] != ScopeSteer)
    {
      GatesAfterRepair(kinds, r);
    }
  }
}
