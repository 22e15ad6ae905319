/** Which logs the service can write: every walk of the lifecycle is the log of some run whose gates
    are all open. */
module TaskRuns {
  import opened Wrappers
  import opened TaskLifecycle
  import opened TaskHistory

  const HEAD := "0000000000000000000000000000000000000000"

  lemma HeadIsSha()
    ensures Sha(HEAD)
  {
  }

  function Facts(head: string): DraftFacts {
    DraftFacts(head, head, head, head, head, true, true, true, true, true, true)
  }

  /** Every gate open, for one head. */
  function Open(head: string): Guards {
    Guards(true, true, true, true, true, Some(Facts(head)), Some(ReadinessFacts(Facts(head), true, true, true)), true,
           true, true, true, true, true, true)
  }

  /** The next command of the kind, with a fresh id and every gate open. */
  function Ask(t: Task, kind: Kind, head: string): Request {
    var candidate := if kind.BeginValidation? || kind.Revalidate? then Some(("", "")) else None;
    Request(Command(|t.events|, t.row.state, kind, "", [], candidate), Open(head))
  }

  function Asked(bindings: Bindings, kinds: seq<Kind>, head: string): seq<Request>
    decreases |kinds|
  {
    if kinds == [] then []
    else
      var before := Asked(bindings, kinds[..|kinds| - 1], head);
      before + [Ask(Run(New(bindings), before), kinds[|kinds| - 1], head)]
  }

  lemma {:induction false} RunAppends(t: Task, requests: seq<Request>, q: Request)
    ensures Run(t, requests + [q]) == Step(Run(t, requests), q)
    decreases |requests|
  {
    if requests == [] {
      assert requests + [q] == [q] && [q][1..] == [];
    } else {
      assert (requests + [q])[1..] == requests[1..] + [q];
      RunAppends(Step(t, requests[0]), requests[1..], q);
    }
  }

  predicate Pinned(row: Row) { Effective(row).state.PrActive? || Effective(row).state.ReadyForHumanMerge? }

  /** Numbered from zero, and the head is known wherever it is needed. */
  ghost predicate Orderly(t: Task, head: string) {
    && Inv(t)
    && (forall n :: 0 <= n < |t.events| ==> t.events[n].command.transitionId == n)
    && (Pinned(t.row) ==> LatestHead(t.events) == Some(head))
  }

  lemma GatesStand(row: Row, kind: Kind, next: Row, verifiedHead: Option<string>, head: string)
    requires Sha(head) && Projection(row) && EventEdge(kind, row, next) && (Pinned(row) ==> verifiedHead == Some(head))
    ensures GatesOpen(kind, verifiedHead, Open(head))
  {
    assert VerifiedDraft(Facts(head));
  }

  lemma OneHead(row: Row, verifiedHead: Option<string>, kind: Kind, plan: Plan, head: string)
    requires Evaluate(row, verifiedHead, kind, Open(head)) == Ok(plan)
    requires Pinned(row) ==> verifiedHead == Some(head)
    ensures plan.gateHead.Some? ==> plan.gateHead.value == head
    ensures Pinned(plan.row) ==> plan.gateHead == Some(head) || verifiedHead == Some(head)
  {
  }

  lemma Granted(t: Task, kind: Kind, next: Row, head: string) returns (plan: Plan)
    requires Sha(head) && Orderly(t, head) && Next(t.row, kind) == Some(next)
    ensures Evaluate(t.row, LatestHead(t.events), kind, Open(head)) == Ok(plan) && plan.row == next
    ensures plan.gateHead.Some? ==> plan.gateHead.value == head
    ensures Pinned(next) ==> plan.gateHead == Some(head) || LatestHead(t.events) == Some(head)
  {
    var row, latest := t.row, LatestHead(t.events);
    NextIsEdge(row, kind, next);
    GatesStand(row, kind, next, latest, head);
    EngineIsTrigger(row, next, latest, kind, Open(head));
    plan :| Evaluate(row, latest, kind, Open(head)) == Ok(plan) && plan.row == next;
    OneHead(row, latest, kind, plan, head);
  }

  lemma Accepted(t: Task, kind: Kind, plan: Plan, head: string)
    requires Orderly(t, head) && Evaluate(t.row, LatestHead(t.events), kind, Open(head)) == Ok(plan)
    ensures Step(t, Ask(t, kind, head)) == Applied(t, Ask(t, kind, head).command, plan)
    ensures Inv(Applied(t, Ask(t, kind, head).command, plan))
  {
    var q := Ask(t, kind, head);
    assert Find(t.events, |t.events|).None?;
    PlanFacts(t, q.command, q.guards);
    Appended(t, q.command, q.guards);
  }

  lemma Steps(t: Task, kind: Kind, next: Row, head: string)
    requires Sha(head) && Orderly(t, head) && Next(t.row, kind) == Some(next)
    ensures Orderly(Step(t, Ask(t, kind, head)), head) && Step(t, Ask(t, kind, head)).row == next
    ensures Kinds(Step(t, Ask(t, kind, head)).events) == Kinds(t.events) + [kind]
  {
    var plan := Granted(t, kind, next, head);
    Accepted(t, kind, plan, head);
    var t' := Step(t, Ask(t, kind, head));
    assert t'.events[..|t.events|] == t.events;
  }

  ghost predicate Follows(t: Task, kinds: seq<Kind>, head: string) {
    Orderly(t, head) && Kinds(t.events) == kinds && Some(t.row) == Walk(kinds)
  }

  lemma FollowsAtStart(bindings: Bindings, head: string)
    ensures Follows(New(bindings), [], head)
  {
  }

  lemma {:induction false} FollowsOn(t: Task, init: seq<Kind>, k: Kind, head: string)
    requires Sha(head) && Follows(t, init, head) && Walk(init + [k]).Some?
    ensures Follows(Step(t, Ask(t, k, head)), init + [k], head)
  {
    assert (init + [k])[..|init|] == init;
    Steps(t, k, Walk(init + [k]).value, head);
  }

  lemma {:induction false} Realized(bindings: Bindings, kinds: seq<Kind>, head: string)
    requires Walk(kinds).Some? && Sha(head)
    ensures Follows(Run(New(bindings), Asked(bindings, kinds, head)), kinds, head)
    decreases |kinds|
  {
    if kinds == [] {
      FollowsAtStart(bindings, head);
    } else {
      var init, k := kinds[..|kinds| - 1], kinds[|kinds| - 1];
      var before := Asked(bindings, init, head);
      Realized(bindings, init, head);
      assert kinds == init + [k];
      FollowsOn(Run(New(bindings), before), init, k, head);
      RunAppends(New(bindings), before, Ask(Run(New(bindings), before), k, head));
    }
  }

  ghost predicate Logs(bindings: Bindings, requests: seq<Request>, kinds: seq<Kind>) {
    Kinds(Run(New(bindings), requests).events) == kinds
  }

  lemma {:induction false} WalkIsLogged(bindings: Bindings, kinds: seq<Kind>)
    requires Walk(kinds).Some?
    ensures exists requests :: Logs(bindings, requests, kinds) && Run(New(bindings), requests).row == Walk(kinds).value
  {
    HeadIsSha();
    Realized(bindings, kinds, HEAD);
    assert Logs(bindings, Asked(bindings, kinds, HEAD), kinds);
  }

  /** The service can log a sequence of kinds if and only if the sequence walks the lifecycle. */
  lemma {:induction false} LogsAreWalks(bindings: Bindings, kinds: seq<Kind>)
    ensures Walk(kinds).Some? <==> exists requests :: Logs(bindings, requests, kinds)
  {
    if Walk(kinds).Some? { WalkIsLogged(bindings, kinds); }
    forall requests | Logs(bindings, requests, kinds) ensures Walk(kinds).Some? {
      RunKeeps(New(bindings), requests);
      ReplayIsWalk(Run(New(bindings), requests).events);
    }
  }

  ghost predicate ReadyWith(bindings: Bindings, requests: seq<Request>, kinds: seq<Kind>) {
    Logs(bindings, requests, kinds) && Run(New(bindings), requests).row == At(ReadyForHumanMerge)
  }

  lemma {:induction false} ReadyIsLogged(bindings: Bindings, kinds: seq<Kind>)
    requires Walk(kinds) == Some(At(ReadyForHumanMerge))
    ensures exists requests :: ReadyWith(bindings, requests, kinds)
  {
    WalkIsLogged(bindings, kinds);
    var requests :| Logs(bindings, requests, kinds) && Run(New(bindings), requests).row == Walk(kinds).value;
    assert ReadyWith(bindings, requests, kinds);
  }

  /** And so a task that the service runs can be ready for merge although nothing was revalidated after
      its last repair. */
  lemma SteeredTask(bindings: Bindings)
    ensures exists requests :: ReadyWith(bindings, requests, STEERED)
    ensures LastRepair(STEERED, 3) && !Rechecked(STEERED, 3)
  {
    SteeredOutOfRepair();
    SteeredWalks(STEERED);
    ReadyIsLogged(bindings, STEERED);
  }
}
