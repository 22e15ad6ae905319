/** A session token works exactly as long as the history of its uses says it should. */
module AuthHistory {
  import opened Basics
  import opened Wrappers
  import opened AuthStore
  import opened AuthThrottle

  /** What happened to sessions, without looking at any row: a session was issued, someone presented a
      token, a login replaced a token, a logout or reauthentication ended a session. */
  datatype Mark = Issued(id: Id, token: string, at: int) | Attempted(token: string, at: int) | Replaced(token: string) | Ended(id: Id)

  /** Where a token stands: its session, when that was issued and when it was last used with success. */
  datatype Standing = Unissued | Active(id: Id, issued: int, used: int) | Over

  /** Every use must come before the idle lifetime since the last one, and before the absolute
      lifetime since the session was issued. */
  predicate InTime(ttl: Ttl, s: Standing, at: int) {
    s.Active? && at < s.used + ttl.idle && at < s.issued + ttl.absolute
  }

  function Marked(ttl: Ttl, prior: Standing, token: string, m: Mark): Standing {
    match m
    case Issued(i, t, at) => if t == token then Active(i, at, at) else prior
    case Attempted(t, at) => if t == token && InTime(ttl, prior, at) then prior.(used := at) else prior
    case Replaced(t) => if t == token && prior.Active? then Over else prior
    case Ended(i) => if prior.Active? && prior.id == i then Over else prior
  }

  function StandingOf(history: seq<Mark>, ttl: Ttl, token: string): Standing
    decreases |history|
  {
    if history == [] then Unissued
    else Marked(ttl, StandingOf(history[..|history| - 1], ttl, token), token, history[|history| - 1])
  }

  lemma {:induction false} StandingNext(history: seq<Mark>, ttl: Ttl, token: string, m: Mark)
    ensures StandingOf(history + [m], ttl, token) == Marked(ttl, StandingOf(history, ttl, token), token, m)
  {
    assert (history + [m])[..|history|] == history;
  }

  datatype World = World(store: Store, history: seq<Mark>, clock: int)

  function MarksOf(cfg: Config, st: Store, e: Event): seq<Mark> {
    match e.command
    case Login(password, existing, minted) =>
      if !LoginVerdict(st, cfg.verify, password, e.at).RightPassword? then []
      else (if existing.Some? then [Replaced(existing.value)] else []) + [Issued(minted.id, minted.token, e.at)]
    case Reauthenticate(id, password, minted) =>
      if !ReauthVerdict(st, cfg.verify, id, password, e.at).RightPassword? then []
      else [Ended(id), Issued(minted.id, minted.token, e.at)]
    case Bootstrap(token, password, hash, minted) =>
      if BootstrapCheck(st, token, password).Some? then [] else [Issued(minted.id, minted.token, e.at)]
    case Authenticate(token) => [Attempted(token, e.at)]
    case Logout(id) => [Ended(id)]
    case _ => []
  }

  /** The identity and the token are canonical and were never issued. */
  predicate Unused(history: seq<Mark>, minted: Minted) {
    Canonical(minted.token)
    && forall n :: 0 <= n < |history| && history[n].Issued? ==> history[n].id != minted.id && history[n].token != minted.token
  }

  /** The clock does not go back, and random values are new. */
  predicate Allowed(w: World, e: Event) {
    w.clock <= e.at
    && match e.command
       case Login(_, _, minted) => Unused(w.history, minted)
       case Reauthenticate(_, _, minted) => Unused(w.history, minted)
       case Bootstrap(_, _, _, minted) => Unused(w.history, minted)
       case _ => true
  }

  ghost function Next(cfg: Config, w: World, e: Event): World {
    World(After(cfg, w.store, e), w.history + MarksOf(cfg, w.store, e), e.at)
  }

  ghost function Run(cfg: Config, w: World, events: seq<Event>): World
    decreases |events|
  {
    if events == [] then w
    else Run(cfg, if Allowed(w, events[0]) then Next(cfg, w, events[0]) else w, events[1..])
  }

  // ----- the invariant

  ghost predicate IssuedAs(history: seq<Mark>, i: Id, token: string) {
    exists n :: 0 <= n < |history| && history[n].Issued? && history[n].id == i && history[n].token == token
  }

  /** No identity and no token was issued twice. */
  ghost predicate IssuedOnce(history: seq<Mark>) {
    forall n, m :: 0 <= n < m < |history| && history[n].Issued? && history[m].Issued? ==>
      history[n].id != history[m].id && history[n].token != history[m].token
  }

  function Deadline(ttl: Ttl, s: Standing): int
    requires s.Active?
  {
    Min(s.used + ttl.idle, s.issued + ttl.absolute)
  }

  ghost predicate RowOk(ttl: Ttl, history: seq<Mark>, i: Id, row: Session) {
    && Canonical(row.token) && IssuedAs(history, i, row.token)
    && var s := StandingOf(history, ttl, row.token);
    if row.revokedAt.Some? then s == Over
    else s.Active? && s.id == i && row.absoluteExpiresAt == s.issued + ttl.absolute && row.expiresAt == Deadline(ttl, s)
         && row.reauthenticatedAt == s.issued
  }

  /** An active token has its row, unless its deadline passed. */
  ghost predicate TokenOk(ttl: Ttl, sessions: map<Id, Session>, history: seq<Mark>, clock: int, token: string) {
    var s := StandingOf(history, ttl, token);
    s.Active? ==>
      || (HasToken(sessions, token, s.id) && sessions[s.id].revokedAt.None?)
      || Deadline(ttl, s) <= clock
  }

  ghost predicate RowsOk(ttl: Ttl, sessions: map<Id, Session>, history: seq<Mark>) {
    forall i <- sessions :: RowOk(ttl, history, i, sessions[i])
  }

  ghost predicate TokensOk(ttl: Ttl, sessions: map<Id, Session>, history: seq<Mark>, clock: int) {
    forall token :: TokenOk(ttl, sessions, history, clock, token)
  }

  ghost predicate Agrees(ttl: Ttl, sessions: map<Id, Session>, history: seq<Mark>, clock: int) {
    RowsOk(ttl, sessions, history) && TokensOk(ttl, sessions, history, clock) && IssuedOnce(history)
  }

  lemma IssuedUnique(history: seq<Mark>, i: Id, j: Id, token: string)
    requires IssuedOnce(history) && IssuedAs(history, i, token) && IssuedAs(history, j, token)
    ensures i == j
  {
    var n :| 0 <= n < |history| && history[n].Issued? && history[n].id == i && history[n].token == token;
    var m :| 0 <= m < |history| && history[m].Issued? && history[m].id == j && history[m].token == token;
    assert n == m;
  }

  lemma RowsUnique(ttl: Ttl, sessions: map<Id, Session>, history: seq<Mark>)
    requires RowsOk(ttl, sessions, history) && IssuedOnce(history)
    ensures UniqueTokens(sessions)
  {
    forall i, j, token | HasToken(sessions, token, i) && HasToken(sessions, token, j) ensures i == j {
      IssuedUnique(history, i, j, token);
    }
  }

  lemma {:induction false} IssuedFirst(history: seq<Mark>, ttl: Ttl, token: string)
    ensures StandingOf(history, ttl, token).Active? ==> IssuedAs(history, StandingOf(history, ttl, token).id, token)
    ensures StandingOf(history, ttl, token) != Unissued ==> exists i :: IssuedAs(history, i, token)
    decreases |history|
  {
    if history != [] {
      var init, m := history[..|history| - 1], history[|history| - 1];
      IssuedFirst(init, ttl, token);
      forall i | IssuedAs(init, i, token) ensures IssuedAs(history, i, token) { IssuedLater(init, [m], i, token); assert init + [m] == history; }
      if m.Issued? && m.token == token { assert IssuedAs(history, m.id, token); }
    }
  }

  lemma IssuedLater(history: seq<Mark>, more: seq<Mark>, i: Id, token: string)
    requires IssuedAs(history, i, token)
    ensures IssuedAs(history + more, i, token)
  {
    var n :| 0 <= n < |history| && history[n].Issued? && history[n].id == i && history[n].token == token;
    assert (history + more)[n] == history[n];
  }

  // ----- one mark at a time

  ghost predicate Prunes(sessions: map<Id, Session>, after: map<Id, Session>, at: int) {
    && (forall i <- after :: i in sessions && after[i].(csrf := "") == sessions[i].(csrf := ""))
    && (forall i <- sessions :: i in after || !Usable(sessions[i], at))
  }

  /** Rows that are no longer usable may go, and rows may change in what no mark speaks of. */
  lemma Pruned(ttl: Ttl, sessions: map<Id, Session>, after: map<Id, Session>, history: seq<Mark>, clock: int, at: int)
    requires Agrees(ttl, sessions, history, clock) && clock <= at
    requires Prunes(sessions, after, at)
    ensures Agrees(ttl, after, history, at)
  {
    forall i <- after ensures RowOk(ttl, history, i, after[i]) { assert RowOk(ttl, history, i, sessions[i]); }
    forall token ensures TokenOk(ttl, after, history, at, token) {
      assert TokenOk(ttl, sessions, history, clock, token);
      var s := StandingOf(history, ttl, token);
      if s.Active? && HasToken(sessions, token, s.id) { assert RowOk(ttl, history, s.id, sessions[s.id]); }
    }
  }

  lemma OnceMore(history: seq<Mark>, m: Mark)
    requires IssuedOnce(history)
    requires m.Issued? ==> forall n :: 0 <= n < |history| && history[n].Issued? ==> history[n].id != m.id && history[n].token != m.token
    ensures IssuedOnce(history + [m])
  {
  }

  lemma EndMarked(ttl: Ttl, sessions: map<Id, Session>, history: seq<Mark>, clock: int, i: Id, now: int)
    requires Agrees(ttl, sessions, history, clock) && clock <= now
    ensures Agrees(ttl, Revoke(sessions, i, now), history + [Ended(i)], now)
  {
    var m := Ended(i);
    var after := Revoke(sessions, i, now);
    OnceMore(history, m);
    forall j <- after ensures RowOk(ttl, history + [m], j, after[j]) {
      assert RowOk(ttl, history, j, sessions[j]);
      StandingNext(history, ttl, sessions[j].token, m);
      IssuedLater(history, [m], j, sessions[j].token);
    }
    forall token ensures TokenOk(ttl, after, history + [m], now, token) {
      StandingNext(history, ttl, token, m);
      assert TokenOk(ttl, sessions, history, clock, token);
    }
  }

  lemma ReplaceMarked(ttl: Ttl, sessions: map<Id, Session>, history: seq<Mark>, clock: int, token: string, now: int)
    requires Agrees(ttl, sessions, history, clock) && clock <= now
    ensures Agrees(ttl, RevokeToken(sessions, Some(token), now), history + [Replaced(token)], now)
  {
    var m := Replaced(token);
    var after := RevokeToken(sessions, Some(token), now);
    OnceMore(history, m);
    RowsUnique(ttl, sessions, history);
    forall j <- after ensures RowOk(ttl, history + [m], j, after[j]) {
      assert RowOk(ttl, history, j, sessions[j]);
      StandingNext(history, ttl, sessions[j].token, m);
      IssuedLater(history, [m], j, sessions[j].token);
      if sessions[j].token == token { assert HasToken(sessions, token, j); }
    }
    forall t ensures TokenOk(ttl, after, history + [m], now, t) {
      StandingNext(history, ttl, t, m);
      assert TokenOk(ttl, sessions, history, clock, t);
      var s := StandingOf(history, ttl, t);
      if s.Active? && t != token && HasToken(sessions, t, s.id) { assert HasToken(after, t, s.id); }
    }
  }

  lemma AttemptMarkedRows(ttl: Ttl, st: Store, history: seq<Mark>, clock: int, token: string, now: int)
    requires Agrees(ttl, st.sessions, history, clock) && clock <= now && UniqueTokens(st.sessions)
    ensures RowsOk(ttl, AfterAuthenticate(st, ttl, token, now).sessions, history + [Attempted(token, now)])
  {
    hide TokenOk;
    var m := Attempted(token, now);
    var sessions, after := st.sessions, AfterAuthenticate(st, ttl, token, now).sessions;
    forall j <- after ensures RowOk(ttl, history + [m], j, after[j]) {
      assert RowOk(ttl, history, j, sessions[j]);
      StandingNext(history, ttl, sessions[j].token, m);
      IssuedLater(history, [m], j, sessions[j].token);
      if sessions[j].token == token { assert HasToken(sessions, token, j); }
    }
  }

  lemma AttemptMarked(ttl: Ttl, st: Store, history: seq<Mark>, clock: int, token: string, now: int)
    requires Agrees(ttl, st.sessions, history, clock) && clock <= now
    ensures Agrees(ttl, AfterAuthenticate(st, ttl, token, now).sessions, history + [Attempted(token, now)], now)
  {
    var m := Attempted(token, now);
    var sessions, after := st.sessions, AfterAuthenticate(st, ttl, token, now).sessions;
    OnceMore(history, m);
    RowsUnique(ttl, sessions, history);
    AttemptMarkedRows(ttl, st, history, clock, token, now);
    forall t ensures TokenOk(ttl, after, history + [m], now, t) {
      StandingNext(history, ttl, t, m);
      assert TokenOk(ttl, sessions, history, clock, t);
      var s := StandingOf(history, ttl, t);
      if s.Active? && HasToken(sessions, t, s.id) { assert RowOk(ttl, history, s.id, sessions[s.id]); }
    }
  }

  lemma IssueMarkedRows(ttl: Ttl, kept: map<Id, Session>, history: seq<Mark>, minted: Minted, now: int)
    requires RowsOk(ttl, kept, history) && Unused(history, minted)
    ensures RowsOk(ttl, kept[minted.id := NewSession(ttl, minted, now)], history + [Issued(minted.id, minted.token, now)])
  {
    var m := Issued(minted.id, minted.token, now);
    var after := kept[minted.id := NewSession(ttl, minted, now)];
    assert (history + [m])[|history|] == m;
    forall j <- after ensures RowOk(ttl, history + [m], j, after[j]) {
      StandingNext(history, ttl, after[j].token, m);
      if j != minted.id {
        assert RowOk(ttl, history, j, kept[j]);
        IssuedLater(history, [m], j, kept[j].token);
      }
    }
  }

  lemma IssueMarkedTokens(ttl: Ttl, kept: map<Id, Session>, history: seq<Mark>, minted: Minted, now: int)
    requires TokensOk(ttl, kept, history, now) && Unused(history, minted)
    ensures TokensOk(ttl, kept[minted.id := NewSession(ttl, minted, now)], history + [Issued(minted.id, minted.token, now)], now)
  {
    var m := Issued(minted.id, minted.token, now);
    var after := kept[minted.id := NewSession(ttl, minted, now)];
    forall t ensures TokenOk(ttl, after, history + [m], now, t) {
      StandingNext(history, ttl, t, m);
      IssuedFirst(history, ttl, t);
      assert TokenOk(ttl, kept, history, now, t);
    }
  }

  lemma IssueMarked(ttl: Ttl, sessions: map<Id, Session>, history: seq<Mark>, clock: int, minted: Minted, now: int)
    requires Agrees(ttl, sessions, history, clock) && clock <= now && Unused(history, minted)
    ensures Agrees(ttl, Issue(sessions, ttl, minted, now), history + [Issued(minted.id, minted.token, now)], now)
  {
    var kept := WithoutStale(sessions, now);
    Pruned(ttl, sessions, kept, history, clock, now);
    OnceMore(history, Issued(minted.id, minted.token, now));
    IssueMarkedRows(ttl, kept, history, minted, now);
    IssueMarkedTokens(ttl, kept, history, minted, now);
  }

  // ----- every call, every run

  ghost predicate WorldOk(cfg: Config, w: World) {
    Agrees(cfg.ttl, w.store.sessions, w.history, w.clock)
  }

  lemma LoginAgrees(cfg: Config, w: World, e: Event)
    requires WorldOk(cfg, w) && Allowed(w, e) && e.command.Login?
    requires LoginVerdict(w.store, cfg.verify, e.command.password, e.at).RightPassword?
    ensures WorldOk(cfg, Next(cfg, w, e))
  {
    var Login(password, existing, minted) := e.command;
    var h := w.history;
    if existing.Some? {
      ReplaceMarked(cfg.ttl, w.store.sessions, h, w.clock, existing.value, e.at);
      IssueMarked(cfg.ttl, RevokeToken(w.store.sessions, existing, e.at), h + [Replaced(existing.value)], e.at, minted, e.at);
      assert h + MarksOf(cfg, w.store, e) == h + [Replaced(existing.value)] + [Issued(minted.id, minted.token, e.at)];
    } else {
      IssueMarked(cfg.ttl, w.store.sessions, h, w.clock, minted, e.at);
      assert h + MarksOf(cfg, w.store, e) == h + [Issued(minted.id, minted.token, e.at)];
    }
  }

  lemma ReauthAgrees(cfg: Config, w: World, e: Event)
    requires WorldOk(cfg, w) && Allowed(w, e) && e.command.Reauthenticate?
    requires ReauthVerdict(w.store, cfg.verify, e.command.id, e.command.password, e.at).RightPassword?
    ensures WorldOk(cfg, Next(cfg, w, e))
  {
    var Reauthenticate(id, password, minted) := e.command;
    var h := w.history;
    EndMarked(cfg.ttl, w.store.sessions, h, w.clock, id, e.at);
    IssueMarked(cfg.ttl, Revoke(w.store.sessions, id, e.at), h + [Ended(id)], e.at, minted, e.at);
    assert h + MarksOf(cfg, w.store, e) == h + [Ended(id)] + [Issued(minted.id, minted.token, e.at)];
  }

  /** The call issues, ends or uses no session. */
  predicate Quiet(cfg: Config, st: Store, e: Event) {
    match e.command
    case Login(password, _, _) => !LoginVerdict(st, cfg.verify, password, e.at).RightPassword?
    case Reauthenticate(id, password, _) => !ReauthVerdict(st, cfg.verify, id, password, e.at).RightPassword?
    case Bootstrap(token, password, _, _) => BootstrapCheck(st, token, password).Some?
    case Authenticate(_) => false
    case Logout(_) => false
    case _ => true
  }

  lemma QuietPrunes(cfg: Config, st: Store, e: Event)
    requires Quiet(cfg, st, e)
    ensures MarksOf(cfg, st, e) == [] && Prunes(st.sessions, After(cfg, st, e).sessions, e.at)
  {
    if e.command.Reauthenticate? { ReauthPrunes(cfg, st, e); }
  }

  lemma ReauthPrunes(cfg: Config, st: Store, e: Event)
    requires e.command.Reauthenticate? && Quiet(cfg, st, e)
    ensures Prunes(st.sessions, After(cfg, st, e).sessions, e.at)
  {
  }

  lemma QuietAgrees(cfg: Config, w: World, e: Event)
    requires WorldOk(cfg, w) && Allowed(w, e) && Quiet(cfg, w.store, e)
    ensures WorldOk(cfg, Next(cfg, w, e))
  {
    QuietPrunes(cfg, w.store, e);
    var after := After(cfg, w.store, e).sessions;
    Pruned(cfg.ttl, w.store.sessions, after, w.history, w.clock, e.at);
    assert w.history + [] == w.history;
  }

  /** Every call keeps rows and history in agreement. */
  lemma NextAgrees(cfg: Config, w: World, e: Event)
    requires WorldOk(cfg, w) && Allowed(w, e)
    ensures WorldOk(cfg, Next(cfg, w, e))
  {
    if Quiet(cfg, w.store, e) {
      QuietAgrees(cfg, w, e);
    } else {
      match e.command
      case Login(_, _, _) => LoginAgrees(cfg, w, e);
      case Reauthenticate(_, _, _) => ReauthAgrees(cfg, w, e);
      case Bootstrap(_, _, _, minted) => IssueMarked(cfg.ttl, w.store.sessions, w.history, w.clock, minted, e.at);
      case Authenticate(token) => AttemptMarked(cfg.ttl, w.store, w.history, w.clock, token, e.at);
      case Logout(id) => EndMarked(cfg.ttl, w.store.sessions, w.history, w.clock, id, e.at);
    }
  }

  lemma {:induction false} RunAgrees(cfg: Config, w: World, events: seq<Event>)
    requires WorldOk(cfg, w)
    ensures WorldOk(cfg, Run(cfg, w, events))
    decreases |events|
  {
    if events != [] {
      if Allowed(w, events[0]) { NextAgrees(cfg, w, events[0]); }
      RunAgrees(cfg, if Allowed(w, events[0]) then Next(cfg, w, events[0]) else w, events[1..]);
    }
  }

  function Start(now: int): World {
    World(Store(0, None, None, None, map[]), [], now)
  }

  /** After any run, a token proves a session at a moment exactly when the history says so: it was
      issued, never ended or replaced, and every gap between its issue, its successful uses and now
      is below the idle lifetime, within the absolute lifetime of its issue. */
  lemma {:induction false} TokenProves(cfg: Config, start: int, events: seq<Event>, token: string, now: int)
    requires var w := Run(cfg, Start(start), events); w.clock <= now
    ensures var w := Run(cfg, Start(start), events);
            var s := StandingOf(w.history, cfg.ttl, token);
            Proves(w.store, token, now) == if InTime(cfg.ttl, s, now) then Some(s.id) else None
  {
    RunAgrees(cfg, Start(start), events);
    var w := Run(cfg, Start(start), events);
    RowsUnique(cfg.ttl, w.store.sessions, w.history);
    Settled(cfg.ttl, w.store, w.history, w.clock, token, now);
  }

  lemma {:induction false} Settled(ttl: Ttl, st: Store, history: seq<Mark>, clock: int, token: string, now: int)
    requires Agrees(ttl, st.sessions, history, clock) && UniqueTokens(st.sessions) && clock <= now
    ensures var s := StandingOf(history, ttl, token);
            Proves(st, token, now) == if InTime(ttl, s, now) then Some(s.id) else None
  {
    var s := StandingOf(history, ttl, token);
    assert TokenOk(ttl, st.sessions, history, clock, token);
    var i := Lookup(st.sessions, token);
    if i.Some? {
      assert HasToken(st.sessions, token, i.value);
      assert RowOk(ttl, history, i.value, st.sessions[i.value]);
    }
    if InTime(ttl, s, now) { assert HasToken(st.sessions, token, s.id); }
  }

  // ----- what ends a session for good

  /** A session that is over stays over, whatever is presented or issued later. */
  lemma {:induction false} OverForever(history: seq<Mark>, more: seq<Mark>, ttl: Ttl, token: string)
    requires StandingOf(history, ttl, token) == Over && IssuedOnce(history + more)
    ensures StandingOf(history + more, ttl, token) == Over
    decreases |more|
  {
    if more == [] {
      assert history + more == history;
    } else {
      var init, m := more[..|more| - 1], more[|more| - 1];
      assert history + more == history + init + [m];
      forall a, b | 0 <= a < b < |history + init| && (history + init)[a].Issued? && (history + init)[b].Issued?
        ensures (history + init)[a].id != (history + init)[b].id && (history + init)[a].token != (history + init)[b].token
      {
        assert (history + more)[a] == (history + init)[a] && (history + more)[b] == (history + init)[b];
      }
      OverForever(history, init, ttl, token);
      StandingNext(history + init, ttl, token, m);
      if m.Issued? && m.token == token { IssuedAgain(history, init, m, ttl); }
    }
  }

  lemma {:induction false} IssuedAgain(history: seq<Mark>, init: seq<Mark>, m: Mark, ttl: Ttl)
    requires m.Issued? && StandingOf(history, ttl, m.token) != Unissued
    ensures !IssuedOnce(history + init + [m])
  {
    IssuedFirst(history, ttl, m.token);
    var i :| IssuedAs(history, i, m.token);
    var n :| 0 <= n < |history| && history[n].Issued? && history[n].id == i && history[n].token == m.token;
    var all := history + init + [m];
    assert all[n] == history[n] && all[|all| - 1] == m;
  }

  // ----- a right password

  /** The new token works at once, the old one never again, and the throttle starts over. */
  ghost predicate Rotated(cfg: Config, w: World, e: Event, minted: Minted, previous: string) {
    var n := Next(cfg, w, e);
    && n.store.failures == 0 && n.store.blockedUntil.None?
    && Proves(n.store, minted.token, e.at) == Some(minted.id)
    && (previous != minted.token ==> forall at :: e.at <= at ==> Proves(n.store, previous, at).None?)
  }

  lemma {:induction false} SessionsRotated(cfg: Config, n: World, middle: seq<Mark>, minted: Minted, previous: string)
    requires cfg.ttl.Valid() && WorldOk(cfg, n) && n.history == middle + [Issued(minted.id, minted.token, n.clock)]
    requires !StandingOf(middle, cfg.ttl, previous).Active?
    ensures Proves(n.store, minted.token, n.clock) == Some(minted.id)
    ensures previous != minted.token ==> forall at :: n.clock <= at ==> Proves(n.store, previous, at).None?
  {
    var m := Issued(minted.id, minted.token, n.clock);
    RowsUnique(cfg.ttl, n.store.sessions, n.history);
    StandingNext(middle, cfg.ttl, previous, m);
    StandingNext(middle, cfg.ttl, minted.token, m);
    Settled(cfg.ttl, n.store, n.history, n.clock, minted.token, n.clock);
    forall at | n.clock <= at && previous != minted.token ensures Proves(n.store, previous, at).None? {
      Settled(cfg.ttl, n.store, n.history, n.clock, previous, at);
    }
  }

  /** A login with the right password issues a session that proves itself and revokes the one it
      replaces. */
  lemma LoginRotates(cfg: Config, w: World, e: Event, replaced: string)
    requires cfg.ttl.Valid() && WorldOk(cfg, w) && Allowed(w, e)
    requires e.command.Login? && e.command.existing == Some(replaced)
    requires LoginVerdict(w.store, cfg.verify, e.command.password, e.at).RightPassword?
    ensures Rotated(cfg, w, e, e.command.minted, replaced)
  {
    var minted := e.command.minted;
    NextAgrees(cfg, w, e);
    var middle := w.history + [Replaced(replaced)];
    StandingNext(w.history, cfg.ttl, replaced, Replaced(replaced));
    assert w.history + MarksOf(cfg, w.store, e) == middle + [Issued(minted.id, minted.token, e.at)];
    SessionsRotated(cfg, Next(cfg, w, e), middle, minted, replaced);
  }

  /** So does a reauthentication, for the session it was asked in. */
  lemma ReauthenticationRotates(cfg: Config, w: World, e: Event, token: string)
    requires cfg.ttl.Valid() && WorldOk(cfg, w) && Allowed(w, e) && e.command.Reauthenticate?
    requires ReauthVerdict(w.store, cfg.verify, e.command.id, e.command.password, e.at).RightPassword?
    requires HasToken(w.store.sessions, token, e.command.id)
    ensures Rotated(cfg, w, e, e.command.minted, token)
  {
    var id, minted := e.command.id, e.command.minted;
    NextAgrees(cfg, w, e);
    assert RowOk(cfg.ttl, w.history, id, w.store.sessions[id]);
    var middle := w.history + [Ended(id)];
    StandingNext(w.history, cfg.ttl, token, Ended(id));
    assert w.history + MarksOf(cfg, w.store, e) == middle + [Issued(minted.id, minted.token, e.at)];
    SessionsRotated(cfg, Next(cfg, w, e), middle, minted, token);
  }
}
