/** What each call of the authentication service comes to, said by the password check and the columns. */
module AuthOutcomes {
  import opened Basics
  import opened Wrappers
  import opened Text
  import opened AuthStore
  import opened AuthThrottle
  import opened AuthHistory

  predicate Live(s: Session, now: int) {
    s.revokedAt == None && now < s.expiresAt && now < s.absoluteExpiresAt
  }

  /** The password is judged at all: at most 1024 bytes, and no block is running. */
  predicate Judged(st: Store, password: string, now: int) {
    Utf8Length(password) <= 1024 && (st.blockedUntil.None? || st.blockedUntil.value <= now)
  }

  /** The user exists and the hash check accepts the password. */
  predicate Right(cfg: Config, st: Store, password: string) {
    st.passwordHash.Some? && cfg.verify(st.passwordHash.value, password)
  }

  /** Seconds of block after the n-th failure in a row. */
  function Wait(n: int): int {
    match n
    case 5 => 2
    case 6 => 4
    case 7 => 8
    case 8 => 16
    case 9 => 32
    case 10 => 64
    case 11 => 128
    case 12 => 256
    case _ => if n < 5 then 0 else 300
  }

  lemma DelayIsWait(n: int)
    requires 5 <= n <= 16
    ensures Delay(n) == Wait(n)
  {
    assert Pow2(1) == 2 && Pow2(2) == 4 && Pow2(3) == 8;
    assert Pow2(4) == 2 * Pow2(3) && Pow2(5) == 2 * Pow2(4) && Pow2(6) == 2 * Pow2(5);
    assert Pow2(7) == 2 * Pow2(6) && Pow2(8) == 2 * Pow2(7);
    if 13 <= n { Pow2Grows(n - 4); }
  }

  /** One failure more, counted up to sixteen, with a block from the fifth on; sessions and user stay. */
  predicate CountsFailure(st: Store, after: Store, now: int) {
    var failures := if st.failures < 16 then st.failures + 1 else 16;
    after == st.(failures := failures,
                 blockedUntil := if failures < 5 then st.blockedUntil else Some(now + Wait(failures) * 1_000_000))
  }

  lemma FailedCounts(st: Store, now: int)
    requires 0 <= st.failures
    ensures CountsFailure(st, AuthStore.Failed(st, now), now)
  {
    var failures := if st.failures < 16 then st.failures + 1 else 16;
    if 5 <= failures { DelayIsWait(failures); }
  }

  /** The new session is there with its lifetimes, the throttle is clear, and of the other rows exactly the
      live ones remain, without the one that was replaced. */
  ghost predicate IssuesSession(cfg: Config, st: Store, after: Store, minted: Minted, now: int, replaced: Id -> bool) {
    && after.failures == 0 && after.blockedUntil == None && after.passwordHash == st.passwordHash && after.bootstrap == st.bootstrap
    && minted.id in after.sessions
    && after.sessions[minted.id] == Session(
         minted.token, minted.csrf, now, now + (if cfg.ttl.idle < cfg.ttl.absolute then cfg.ttl.idle else cfg.ttl.absolute),
         now + cfg.ttl.absolute, now, None)
    && forall i :: i != minted.id ==>
         && (i in after.sessions <==> i in st.sessions && Live(st.sessions[i], now) && !replaced(i))
         && (i in after.sessions ==> after.sessions[i] == st.sessions[i])
  }

  lemma IssueIssues(cfg: Config, st: Store, middle: map<Id, Session>, after: Store, minted: Minted, now: int, replaced: Id -> bool)
    requires after == st.(failures := 0, blockedUntil := None, sessions := Issue(middle, cfg.ttl, minted, now))
    requires middle.Keys == st.sessions.Keys
    requires forall i <- middle :: if replaced(i) then middle[i].revokedAt.Some? else middle[i] == st.sessions[i]
    ensures IssuesSession(cfg, st, after, minted, now, replaced)
  {
    forall i | i != minted.id
      ensures i in after.sessions <==> i in st.sessions && Live(st.sessions[i], now) && !replaced(i)
      ensures i in after.sessions ==> after.sessions[i] == st.sessions[i]
    {
      if i in middle { assert Usable(middle[i], now) <==> Live(middle[i], now); }
    }
  }

  ghost predicate HasSessionToken(st: Store, i: Id, token: Option<string>) {
    i in st.sessions && token == Some(st.sessions[i].token)
  }

  lemma RevokesToken(ttl: Ttl, sessions: map<Id, Session>, history: seq<Mark>, token: Option<string>, now: int)
    requires RowsOk(ttl, sessions, history) && UniqueTokens(sessions)
    ensures var after := RevokeToken(sessions, token, now);
            && after.Keys == sessions.Keys
            && forall i <- after :: if token == Some(sessions[i].token) then after[i].revokedAt.Some? else after[i] == sessions[i]
  {
    var after := RevokeToken(sessions, token, now);
    forall i <- after ensures if token == Some(sessions[i].token) then after[i].revokedAt.Some? else after[i] == sessions[i] {
      assert RowOk(ttl, history, i, sessions[i]);
      if token == Some(sessions[i].token) { assert HasToken(sessions, sessions[i].token, i); }
    }
  }

  /** A token that nobody was issued proves nothing. */
  lemma UnusedProvesNothing(cfg: Config, w: World, st: Store, minted: Minted, now: int)
    requires WorldOk(cfg, w) && Unused(w.history, minted)
    requires forall i <- st.sessions :: i in w.store.sessions && st.sessions[i].token == w.store.sessions[i].token
    ensures Proves(st, minted.token, now) == None
  {
    forall i <- st.sessions ensures st.sessions[i].token != minted.token {
      assert RowOk(cfg.ttl, w.history, i, w.store.sessions[i]);
      var n :| 0 <= n < |w.history| && w.history[n].Issued? && w.history[n].id == i && w.history[n].token == st.sessions[i].token;
    }
    assert forall i :: !HasToken(st.sessions, minted.token, i);
  }

  lemma IssuedProves(cfg: Config, n: World, minted: Minted)
    requires cfg.ttl.Valid() && WorldOk(cfg, n) && minted.id in n.store.sessions && Canonical(minted.token)
    requires n.store.sessions[minted.id].token == minted.token && Live(n.store.sessions[minted.id], n.clock)
    ensures Proves(n.store, minted.token, n.clock) == Some(minted.id)
  {
    RowsUnique(cfg.ttl, n.store.sessions, n.history);
    assert HasToken(n.store.sessions, minted.token, minted.id);
  }

  // ----- logins

  lemma LoginRight(cfg: Config, w: World, at: int, password: string, existing: Option<string>, minted: Minted)
    requires cfg.ttl.Valid() && WorldOk(cfg, w) && Allowed(w, Event(at, Login(password, existing, minted)))
    requires Judged(w.store, password, at) && Right(cfg, w.store, password)
    ensures var n := Next(cfg, w, Event(at, Login(password, existing, minted)));
            && IssuesSession(cfg, w.store, n.store, minted, at, (i: Id) => HasSessionToken(w.store, i, existing))
            && Proves(n.store, minted.token, at) == Some(minted.id)
  {
    var e := Event(at, Login(password, existing, minted));
    var n := Next(cfg, w, e);
    RowsUnique(cfg.ttl, w.store.sessions, w.history);
    RevokesToken(cfg.ttl, w.store.sessions, w.history, existing, at);
    IssueIssues(cfg, w.store, RevokeToken(w.store.sessions, existing, at), n.store, minted, at, (i: Id) => HasSessionToken(w.store, i, existing));
    NextAgrees(cfg, w, e);
    IssuedProves(cfg, n, minted);
  }

  /** A login yields a session that its token proves if and only if the password is judged and the hash
      check accepts it; a judged wrong password is counted, and nothing else happens in any case. */
  lemma LoginOutcome(cfg: Config, w: World, at: int, password: string, existing: Option<string>, minted: Minted)
    requires cfg.ttl.Valid() && 0 <= w.store.failures
    requires WorldOk(cfg, w) && Allowed(w, Event(at, Login(password, existing, minted)))
    ensures var n := Next(cfg, w, Event(at, Login(password, existing, minted)));
            var st := w.store;
            && (Proves(n.store, minted.token, at) == Some(minted.id) <==> Judged(st, password, at) && Right(cfg, st, password))
            && (Judged(st, password, at) && Right(cfg, st, password) ==>
                  IssuesSession(cfg, st, n.store, minted, at, (i: Id) => HasSessionToken(st, i, existing)))
            && (Judged(st, password, at) && !Right(cfg, st, password) ==> CountsFailure(st, n.store, at))
            && (!Judged(st, password, at) ==> n.store == st)
  {
    var n := Next(cfg, w, Event(at, Login(password, existing, minted)));
    if Judged(w.store, password, at) && Right(cfg, w.store, password) {
      LoginRight(cfg, w, at, password, existing, minted);
    } else {
      FailedCounts(w.store, at);
      assert n.store.sessions == w.store.sessions;
      UnusedProvesNothing(cfg, w, n.store, minted, at);
    }
  }

  // ----- reauthentications

  lemma ReauthenticationRight(cfg: Config, w: World, at: int, id: Id, password: string, minted: Minted)
    requires cfg.ttl.Valid() && WorldOk(cfg, w) && Allowed(w, Event(at, Reauthenticate(id, password, minted)))
    requires Judged(w.store, password, at) && id in w.store.sessions && Live(w.store.sessions[id], at) && Right(cfg, w.store, password)
    ensures var n := Next(cfg, w, Event(at, Reauthenticate(id, password, minted)));
            && IssuesSession(cfg, w.store, n.store, minted, at, (i: Id) => i == id)
            && Proves(n.store, minted.token, at) == Some(minted.id)
  {
    var e := Event(at, Reauthenticate(id, password, minted));
    var n := Next(cfg, w, e);
    IssueIssues(cfg, w.store, Revoke(w.store.sessions, id, at), n.store, minted, at, (i: Id) => i == id);
    NextAgrees(cfg, w, e);
    IssuedProves(cfg, n, minted);
  }

  /** A reauthentication replaces the session it was asked in if and only if that session is live, the
      password is judged and the hash check accepts it; an expired session is deleted instead. */
  lemma ReauthenticationOutcome(cfg: Config, w: World, at: int, id: Id, password: string, minted: Minted)
    requires cfg.ttl.Valid() && 0 <= w.store.failures
    requires WorldOk(cfg, w) && Allowed(w, Event(at, Reauthenticate(id, password, minted)))
    ensures var n := Next(cfg, w, Event(at, Reauthenticate(id, password, minted)));
            var st := w.store;
            var live := id in st.sessions && Live(st.sessions[id], at);
            && (Proves(n.store, minted.token, at) == Some(minted.id)
                <==> Judged(st, password, at) && live && Right(cfg, st, password))
            && (Judged(st, password, at) && live && Right(cfg, st, password) ==>
                  IssuesSession(cfg, st, n.store, minted, at, (i: Id) => i == id))
            && (Judged(st, password, at) && live && !Right(cfg, st, password) ==> CountsFailure(st, n.store, at))
            && (Judged(st, password, at) && !live ==>
                  n.store == if id in st.sessions && st.sessions[id].revokedAt == None then st.(sessions := st.sessions - {id}) else st)
            && (!Judged(st, password, at) ==> n.store == st)
  {
    var n := Next(cfg, w, Event(at, Reauthenticate(id, password, minted)));
    var st := w.store;
    if Judged(st, password, at) && id in st.sessions && Live(st.sessions[id], at) && Right(cfg, st, password) {
      ReauthenticationRight(cfg, w, at, id, password, minted);
    } else {
      FailedCounts(st, at);
      UnusedProvesNothing(cfg, w, n.store, minted, at);
    }
  }

  // ----- the first user

  /** The bootstrap works once, with the pending token and a password of 15 characters up to 1024 bytes. */
  predicate MayBootstrap(st: Store, token: string, password: string) {
    && 15 <= |password| && Utf8Length(password) <= 1024 && st.passwordHash == None && st.bootstrap == Some(token)
    && |token| == 43 && forall c <- token :: 'a' <= c <= 'z' || 'A' <= c <= 'Z' || '0' <= c <= '9' || c == '_' || c == '-'
  }

  lemma BootstrapOutcome(cfg: Config, w: World, at: int, token: string, password: string, hash: string, minted: Minted)
    requires cfg.ttl.Valid() && WorldOk(cfg, w) && Allowed(w, Event(at, Bootstrap(token, password, hash, minted)))
    ensures var n := Next(cfg, w, Event(at, Bootstrap(token, password, hash, minted)));
            && (!MayBootstrap(w.store, token, password) ==> n.store == w.store)
            && (MayBootstrap(w.store, token, password) ==>
                  && n.store.passwordHash == Some(hash) && n.store.bootstrap == None
                  && IssuesSession(cfg, w.store.(passwordHash := Some(hash), bootstrap := None), n.store, minted, at, (i: Id) => false)
                  && Proves(n.store, minted.token, at) == Some(minted.id))
  {
    var e := Event(at, Bootstrap(token, password, hash, minted));
    var n := Next(cfg, w, e);
    if MayBootstrap(w.store, token, password) {
      IssueIssues(cfg, w.store.(passwordHash := Some(hash), bootstrap := None), w.store.sessions, n.store, minted, at, (i: Id) => false);
      NextAgrees(cfg, w, e);
      IssuedProves(cfg, n, minted);
    }
  }

  lemma {:induction false} UserStays(cfg: Config, w: World, events: seq<Event>)
    requires w.store.passwordHash.Some?
    ensures Run(cfg, w, events).store.passwordHash == w.store.passwordHash
    decreases |events|
  {
    if events != [] {
      var next := if Allowed(w, events[0]) then Next(cfg, w, events[0]) else w;
      assert next.store.passwordHash == w.store.passwordHash;
      UserStays(cfg, next, events[1..]);
    }
  }

  lemma {:induction false} FailuresStay(cfg: Config, w: World, events: seq<Event>)
    requires 0 <= w.store.failures
    ensures 0 <= Run(cfg, w, events).store.failures
    decreases |events|
  {
    if events != [] {
      FailuresStay(cfg, if Allowed(w, events[0]) then Next(cfg, w, events[0]) else w, events[1..]);
    }
  }

  /** Whatever happens between the bootstrap and a login that is judged, the login works exactly when the
      check accepts its password for the hash that the bootstrap stored. */
  lemma {:induction false} LoginAfterBootstrap(cfg: Config, w: World, first: Event, events: seq<Event>, at: int, password: string,
                            existing: Option<string>, minted: Minted)
    requires cfg.ttl.Valid() && 0 <= w.store.failures && WorldOk(cfg, w) && Allowed(w, first) && first.command.Bootstrap?
    requires MayBootstrap(w.store, first.command.token, first.command.password)
    requires var m := Run(cfg, Next(cfg, w, first), events);
             Allowed(m, Event(at, Login(password, existing, minted))) && Judged(m.store, password, at)
    ensures var n := Next(cfg, Run(cfg, Next(cfg, w, first), events), Event(at, Login(password, existing, minted)));
            Proves(n.store, minted.token, at) == Some(minted.id) <==> cfg.verify(first.command.passwordHash, password)
  {
    var Bootstrap(token, chosen, hash, m0) := first.command;
    BootstrapOutcome(cfg, w, first.at, token, chosen, hash, m0);
    NextAgrees(cfg, w, first);
    var start := Next(cfg, w, first);
    UserStays(cfg, start, events);
    FailuresStay(cfg, start, events);
    RunAgrees(cfg, start, events);
    LoginOutcome(cfg, Run(cfg, start, events), at, password, existing, minted);
  }

  // ----- the calls that no password decides

  /** Logging out revokes one row, rotating changes the token of one live row, cleaning keeps exactly the
      live rows, and a new bootstrap token is taken only while there is no user. */
  lemma PlainOutcomes(cfg: Config, st: Store, at: int, i: Id, text: string)
    ensures After(cfg, st, Event(at, Logout(i)))
            == if i in st.sessions && st.sessions[i].revokedAt == None
               then st.(sessions := st.sessions[i := st.sessions[i].(revokedAt := Some(at))]) else st
    ensures After(cfg, st, Event(at, RotateCsrf(i, text)))
            == if i in st.sessions && Live(st.sessions[i], at)
               then st.(sessions := st.sessions[i := st.sessions[i].(csrf := text)]) else st
    ensures var kept := After(cfg, st, Event(at, Cleanup));
            && kept == st.(sessions := kept.sessions)
            && forall j :: (j in kept.sessions <==> j in st.sessions && Live(st.sessions[j], at))
                           && (j in kept.sessions ==> kept.sessions[j] == st.sessions[j])
    ensures After(cfg, st, Event(at, GenerateBootstrap(text)))
            == if st.passwordHash.Some? then st else st.(bootstrap := Some(text))
  {
  }

  // ----- what a session is told about itself

  ghost predicate MarkedBy(history: seq<Mark>, clock: int) {
    forall n :: 0 <= n < |history| && history[n].Issued? ==> history[n].at <= clock
  }

  lemma {:induction false} MarksInTime(cfg: Config, w: World, events: seq<Event>)
    requires MarkedBy(w.history, w.clock)
    ensures MarkedBy(Run(cfg, w, events).history, Run(cfg, w, events).clock)
    decreases |events|
  {
    if events != [] {
      MarksInTime(cfg, if Allowed(w, events[0]) then Next(cfg, w, events[0]) else w, events[1..]);
    }
  }

  lemma {:induction false} IssuedBefore(history: seq<Mark>, ttl: Ttl, token: string, clock: int)
    requires MarkedBy(history, clock) && StandingOf(history, ttl, token).Active?
    ensures StandingOf(history, ttl, token).issued <= clock
    decreases |history|
  {
    if history != [] {
      var init, m := history[..|history| - 1], history[|history| - 1];
      assert MarkedBy(init, clock);
      if StandingOf(init, ttl, token).Active? { IssuedBefore(init, ttl, token, clock); }
    }
  }

  /** After any run, authenticating a token that is in time tells its session: the new idle expiry within
      the absolute one, and a recent password exactly for the reauthentication lifetime since its issue. */
  lemma {:induction false} ContextExactly(cfg: Config, start: int, events: seq<Event>, token: string, now: int)
    requires var w := Run(cfg, Start(start), events);
             w.clock <= now && InTime(cfg.ttl, StandingOf(w.history, cfg.ttl, token), now)
    ensures var w := Run(cfg, Start(start), events);
            var s := StandingOf(w.history, cfg.ttl, token);
            var absolute := s.issued + cfg.ttl.absolute;
            && Proves(w.store, token, now) == Some(s.id) && s.id in w.store.sessions
            && ContextOf(s.id, Seen(w.store.sessions[s.id], cfg.ttl, now), cfg.ttl, now)
               == Context(s.id, w.store.sessions[s.id].csrf,
                          if now + cfg.ttl.idle < absolute then now + cfg.ttl.idle else absolute, absolute,
                          s.issued + cfg.ttl.reauthentication, now, now < s.issued + cfg.ttl.reauthentication)
  {
    RunAgrees(cfg, Start(start), events);
    TokenProves(cfg, start, events, token, now);
    var w := Run(cfg, Start(start), events);
    var s := StandingOf(w.history, cfg.ttl, token);
    assert RowOk(cfg.ttl, w.history, s.id, w.store.sessions[s.id]);
    MarksInTime(cfg, Start(start), events);
    IssuedBefore(w.history, cfg.ttl, token, w.clock);
  }
}
