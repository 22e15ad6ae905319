/** The authentication service over its tables, updated in place. */
module AuthService {
  import opened Basics
  import opened Wrappers
  import opened AuthStore

  class AuthenticationService {
    const ttl: Ttl
    const verify: (string, string) -> bool
    var failedLoginAttempts: int
    var loginBlockedUntil: Option<int>
    var passwordHash: Option<string>
    var bootstrapToken: Option<string>
    var sessions: map<Id, Session>

    function Snapshot(): Store
      reads this
    {
      Store(failedLoginAttempts, loginBlockedUntil, passwordHash, bootstrapToken, sessions)
    }

    ghost predicate Valid()
      reads this
    {
      ttl.Valid() && UniqueTokens(sessions)
    }

    /** The random token and identity were never used before. */
    ghost predicate Unused(minted: Minted)
      reads this
    {
      minted.id !in sessions && Lookup(sessions, minted.token).None?
    }

    constructor (ttl: Ttl, verify: (string, string) -> bool)
      requires ttl.Valid()
      ensures Valid() && this.ttl == ttl && this.verify == verify
      ensures Snapshot() == Store(0, None, None, None, map[])
    {
      this.ttl, this.verify := ttl, verify;
      failedLoginAttempts, loginBlockedUntil, passwordHash, bootstrapToken, sessions := 0, None, None, None, map[];
    }

    method GenerateBootstrapToken(token: string) returns (r: Option<string>)
      requires Valid()
      modifies this
      ensures Valid() && Snapshot() == AfterGenerate(old(Snapshot()), token)
      ensures r == if old(passwordHash).Some? then None else Some(token)
    {
      if passwordHash.Some? { return None; }
      bootstrapToken := Some(token);
      return Some(token);
    }

    method RecordLoginFailure(now: int)
      modifies this`failedLoginAttempts, this`loginBlockedUntil
      ensures Snapshot() == Failed(old(Snapshot()), now)
    {
      var failures := Min(failedLoginAttempts + 1, THROTTLE_MAX_FAILURES);
      failedLoginAttempts := failures;
      if failures >= THROTTLE_START {
        var exponent := failures - THROTTLE_START + 1;
        var delay := Min(Pow2(exponent), THROTTLE_MAX_SECONDS);
        loginBlockedUntil := Some(now + delay * SECOND);
      }
    }

    method DeleteStaleSessions(now: int)
      requires Valid()
      modifies this`sessions
      ensures Valid() && sessions == WithoutStale(old(sessions), now)
    {
      StaleUnique(sessions, now);
      var kept := map i | i in sessions && sessions[i].revokedAt.None?
                          && !(sessions[i].expiresAt <= now || sessions[i].absoluteExpiresAt <= now) :: sessions[i];
      assert kept == WithoutStale(sessions, now);
      sessions := kept;
    }

    method IssueSession(minted: Minted, now: int) returns (context: Context)
      requires Valid() && Unused(minted)
      modifies this`sessions
      ensures Valid() && sessions == Issue(old(sessions), ttl, minted, now)
      ensures context == ContextOf(minted.id, NewSession(ttl, minted, now), ttl, now)
    {
      ghost var before := sessions;
      DeleteStaleSessions(now);
      var absoluteExpiresAt := now + ttl.absolute;
      var record := Session(minted.token, minted.csrf, now, Min(now + ttl.idle, absoluteExpiresAt), absoluteExpiresAt, now, None);
      IssueUnique(before, ttl, minted, now);
      sessions := sessions[minted.id := record];
      assert sessions == Issue(before, ttl, minted, now);
      context := ContextOf(minted.id, record, ttl, now);
    }

    method RevokeToken(token: Option<string>, now: int)
      requires Valid()
      modifies this`sessions
      ensures Valid() && sessions == AuthStore.RevokeToken(old(sessions), token, now)
      ensures forall t :: Lookup(sessions, t).Some? ==> Lookup(old(sessions), t).Some?
      ensures sessions.Keys == old(sessions).Keys
    {
      if token.Some? && Canonical(token.value) {
        if i :| i in sessions && sessions[i].token == token.value {
          assert HasToken(sessions, token.value, i);
          assert Lookup(sessions, token.value) == Some(i);
          RevokeUnique(sessions, i, now);
          if sessions[i].revokedAt.None? {
            sessions := sessions[i := sessions[i].(revokedAt := Some(now))];
          }
        } else {
          assert Lookup(sessions, token.value).None?;
        }
      }
    }

    method Login(password: string, existing: Option<string>, minted: Minted, now: int) returns (r: Option<Context>)
      requires Valid() && Unused(minted)
      modifies this
      ensures Valid() && Snapshot() == AfterLogin(old(Snapshot()), ttl, verify, password, existing, minted, now)
      ensures r == if LoginVerdict(old(Snapshot()), verify, password, now).RightPassword?
                   then Some(ContextOf(minted.id, NewSession(ttl, minted, now), ttl, now)) else None
    {
      if !PasswordBounded(password) { return None; }
      if loginBlockedUntil.Some? && now < loginBlockedUntil.value { return None; }
      if passwordHash.None? || !verify(passwordHash.value, password) {
        RecordLoginFailure(now);
        return None;
      }
      failedLoginAttempts, loginBlockedUntil := 0, None;
      RevokeToken(existing, now);
      var context := IssueSession(minted, now);
      return Some(context);
    }

    method Authenticate(token: string, now: int) returns (r: Option<Context>)
      requires Valid()
      modifies this`sessions
      ensures Valid() && Snapshot() == AfterAuthenticate(old(Snapshot()), ttl, token, now)
      ensures var i := Proves(old(Snapshot()), token, now);
              r == if i.Some? then Some(ContextOf(i.value, Seen(old(sessions)[i.value], ttl, now), ttl, now)) else None
    {
      if !Canonical(token) { return None; }
      if i :| i in sessions && sessions[i].token == token {
        assert HasToken(sessions, token, i);
        assert Lookup(sessions, token) == Some(i);
        var record := sessions[i];
        if record.revokedAt.Some? { return None; }
        TouchUnique(sessions, ttl, i, now);
        if now >= record.expiresAt || now >= record.absoluteExpiresAt {
          sessions := sessions - {i};
          return None;
        }
        var seen := record.(lastSeenAt := now, expiresAt := Min(now + ttl.idle, record.absoluteExpiresAt));
        sessions := sessions[i := seen];
        return Some(ContextOf(i, seen, ttl, now));
      } else {
        assert Lookup(sessions, token).None?;
        return None;
      }
    }

    method Reauthenticate(i: Id, password: string, minted: Minted, now: int) returns (r: Option<Context>)
      requires Valid() && Unused(minted)
      modifies this
      ensures Valid() && Snapshot() == AfterReauth(old(Snapshot()), ttl, verify, i, password, minted, now)
      ensures r == if ReauthVerdict(old(Snapshot()), verify, i, password, now).RightPassword?
                   then Some(ContextOf(minted.id, NewSession(ttl, minted, now), ttl, now)) else None
    {
      if !PasswordBounded(password) { return None; }
      if loginBlockedUntil.Some? && now < loginBlockedUntil.value { return None; }
      if i !in sessions || sessions[i].revokedAt.Some? { return None; }
      if now >= sessions[i].expiresAt || now >= sessions[i].absoluteExpiresAt {
        TouchUnique(sessions, ttl, i, now);
        sessions := sessions - {i};
        return None;
      }
      if passwordHash.None? || !verify(passwordHash.value, password) {
        RecordLoginFailure(now);
        return None;
      }
      failedLoginAttempts, loginBlockedUntil := 0, None;
      RevokeUnique(sessions, i, now);
      sessions := sessions[i := sessions[i].(revokedAt := Some(now))];
      var context := IssueSession(minted, now);
      return Some(context);
    }

    method Bootstrap(token: string, password: string, newHash: string, minted: Minted, now: int)
      returns (r: Result<Context, BootstrapError>)
      requires Valid() && Unused(minted)
      modifies this
      ensures Valid() && Snapshot() == AfterBootstrap(old(Snapshot()), ttl, token, password, newHash, minted, now)
      ensures var refused := BootstrapCheck(old(Snapshot()), token, password);
              r == if refused.Some? then Err(refused.value) else Ok(ContextOf(minted.id, NewSession(ttl, minted, now), ttl, now))
    {
      if |password| < MIN_PASSWORD_CHARACTERS || !PasswordBounded(password) { return Err(PasswordPolicy); }
      if passwordHash.Some? { return Err(AlreadyCompleted); }
      if bootstrapToken.None? { return Err(Unavailable); }
      if !Canonical(token) || bootstrapToken.value != token { return Err(InvalidToken); }
      bootstrapToken, failedLoginAttempts, loginBlockedUntil := None, 0, None;
      passwordHash := Some(newHash);
      var context := IssueSession(minted, now);
      return Ok(context);
    }

    method RotateCsrf(i: Id, csrf: string, now: int) returns (ok: bool)
      requires Valid()
      modifies this`sessions
      ensures Valid() && Snapshot() == AfterRotate(old(Snapshot()), i, csrf, now)
      ensures ok <==> i in old(sessions) && Usable(old(sessions)[i], now)
    {
      if i !in sessions || sessions[i].revokedAt.Some? { return false; }
      if now >= sessions[i].expiresAt || now >= sessions[i].absoluteExpiresAt { return false; }
      SameTokensUnique(sessions, sessions[i := sessions[i].(csrf := csrf)]);
      sessions := sessions[i := sessions[i].(csrf := csrf)];
      return true;
    }

    method CleanupStaleSessions(now: int)
      requires Valid()
      modifies this`sessions
      ensures Valid() && Snapshot() == AfterCleanup(old(Snapshot()), now)
    {
      DeleteStaleSessions(now);
    }

    method Logout(i: Id, now: int)
      requires Valid()
      modifies this`sessions
      ensures Valid() && Snapshot() == AfterLogout(old(Snapshot()), i, now)
    {
      RevokeUnique(sessions, i, now);
      if i in sessions && sessions[i].revokedAt.None? {
        sessions := sessions[i := sessions[i].(revokedAt := Some(now))];
      }
    }
  }

  // ----- tokens stay unique

  lemma StaleUnique(sessions: map<Id, Session>, now: int)
    requires UniqueTokens(sessions)
    ensures UniqueTokens(WithoutStale(sessions, now))
    ensures forall t :: Lookup(WithoutStale(sessions, now), t).Some? ==> Lookup(sessions, t).Some?
  {
    var after := WithoutStale(sessions, now);
    forall i, j, token | HasToken(after, token, i) && HasToken(after, token, j) ensures i == j {
      assert HasToken(sessions, token, i) && HasToken(sessions, token, j);
    }
    forall t | Lookup(after, t).Some? ensures Lookup(sessions, t).Some? {
      assert HasToken(sessions, t, Lookup(after, t).value);
    }
  }

  lemma IssueUnique(sessions: map<Id, Session>, ttl: Ttl, minted: Minted, now: int)
    requires UniqueTokens(sessions) && Lookup(sessions, minted.token).None?
    ensures UniqueTokens(Issue(sessions, ttl, minted, now))
  {
    StaleUnique(sessions, now);
    var before, after := WithoutStale(sessions, now), Issue(sessions, ttl, minted, now);
    forall i, j, token | HasToken(after, token, i) && HasToken(after, token, j) ensures i == j {
      if i != minted.id { assert HasToken(before, token, i) && Lookup(before, token).Some?; }
      if j != minted.id { assert HasToken(before, token, j) && Lookup(before, token).Some?; }
    }
  }

  lemma SameTokensUnique(sessions: map<Id, Session>, after: map<Id, Session>)
    requires UniqueTokens(sessions) && forall i <- after :: i in sessions && after[i].token == sessions[i].token
    ensures UniqueTokens(after)
    ensures forall t :: Lookup(after, t).Some? ==> Lookup(sessions, t).Some?
  {
    forall i, j, token | HasToken(after, token, i) && HasToken(after, token, j) ensures i == j {
      assert HasToken(sessions, token, i) && HasToken(sessions, token, j);
    }
    forall t | Lookup(after, t).Some? ensures Lookup(sessions, t).Some? {
      assert HasToken(sessions, t, Lookup(after, t).value);
    }
  }

  lemma RevokeUnique(sessions: map<Id, Session>, i: Id, now: int)
    requires UniqueTokens(sessions)
    ensures UniqueTokens(Revoke(sessions, i, now))
    ensures forall t :: Lookup(Revoke(sessions, i, now), t).Some? ==> Lookup(sessions, t).Some?
  {
    SameTokensUnique(sessions, Revoke(sessions, i, now));
  }

  lemma TouchUnique(sessions: map<Id, Session>, ttl: Ttl, i: Id, now: int)
    requires UniqueTokens(sessions)
    ensures UniqueTokens(Touch(sessions, ttl, i, now))
  {
    SameTokensUnique(sessions, Touch(sessions, ttl, i, now));
  }
}
