/** The authentication tables of the single local user, and what each call of the service makes of
    them. Times are microseconds; a token stands for its digest. */
module AuthStore {
  import opened Basics
  import opened Wrappers
  import opened Text

  type Id = nat

  const SECOND := 1_000_000
  const MIN_PASSWORD_CHARACTERS := 15
  const MAX_PASSWORD_BYTES := 1024
  const THROTTLE_START := 5
  const THROTTLE_MAX_SECONDS := 300
  const THROTTLE_MAX_FAILURES := 16

  datatype Ttl = Ttl(idle: int, absolute: int, reauthentication: int) {
    predicate Valid() { 0 < idle <= absolute && 0 < reauthentication }
  }

  datatype Session = Session(
    token: string, csrf: string, lastSeenAt: int, expiresAt: int, absoluteExpiresAt: int,
    reauthenticatedAt: int, revokedAt: Option<int>)

  /** The throttle row, the user row, the pending bootstrap token and the session rows. */
  datatype Store = Store(
    failures: int, blockedUntil: Option<int>, passwordHash: Option<string>, bootstrap: Option<string>,
    sessions: map<Id, Session>)

  /** The credentials a call hands out: random, and never handed out before. */
  datatype Minted = Minted(id: Id, token: string, csrf: string)

  /** What a caller learns about its session. */
  datatype Context = Context(
    id: Id, csrf: string, expiresAt: int, absoluteExpiresAt: int, reauthenticatedUntil: int, evaluatedAt: int,
    recent: bool)

  predicate TokenChar(c: char) {
    'a' <= c <= 'z' || 'A' <= c <= 'Z' || '0' <= c <= '9' || c == '_' || c == '-'
  }

  predicate Canonical(token: string) {
    |token| == 43 && forall c <- token :: TokenChar(c)
  }

  // ----- the throttle

  /** Seconds to wait after the n-th failure in a row. */
  function Delay(failures: int): (d: int)
    requires THROTTLE_START <= failures
    ensures 0 < d <= THROTTLE_MAX_SECONDS
  {
    Min(Pow2(failures - THROTTLE_START + 1), THROTTLE_MAX_SECONDS)
  }

  function Failed(st: Store, now: int): Store {
    var failures := Min(st.failures + 1, THROTTLE_MAX_FAILURES);
    if failures >= THROTTLE_START then st.(failures := failures, blockedUntil := Some(now + Delay(failures) * SECOND))
    else st.(failures := failures)
  }

  function Accepted(st: Store): Store {
    st.(failures := 0, blockedUntil := None)
  }

  predicate Blocked(st: Store, now: int) {
    st.blockedUntil.Some? && now < st.blockedUntil.value
  }

  // ----- sessions

  predicate Expired(s: Session, now: int) {
    s.expiresAt <= now || s.absoluteExpiresAt <= now
  }

  predicate Usable(s: Session, now: int) {
    s.revokedAt.None? && !Expired(s, now)
  }

  function WithoutStale(sessions: map<Id, Session>, now: int): map<Id, Session> {
    map i | i in sessions && Usable(sessions[i], now) :: sessions[i]
  }

  function NewSession(ttl: Ttl, minted: Minted, now: int): Session {
    Session(minted.token, minted.csrf, now, Min(now + ttl.idle, now + ttl.absolute), now + ttl.absolute, now, None)
  }

  function Issue(sessions: map<Id, Session>, ttl: Ttl, minted: Minted, now: int): map<Id, Session> {
    WithoutStale(sessions, now)[minted.id := NewSession(ttl, minted, now)]
  }

  /** The row of a token, which is unique. */
  ghost predicate HasToken(sessions: map<Id, Session>, token: string, i: Id) {
    i in sessions && sessions[i].token == token
  }

  ghost predicate UniqueTokens(sessions: map<Id, Session>) {
    forall i, j, token :: HasToken(sessions, token, i) && HasToken(sessions, token, j) ==> i == j
  }

  ghost function Lookup(sessions: map<Id, Session>, token: string): (r: Option<Id>)
    ensures r.Some? <==> exists i :: HasToken(sessions, token, i)
    ensures r.Some? ==> HasToken(sessions, token, r.value)
  {
    if exists i :: HasToken(sessions, token, i) then (var i :| HasToken(sessions, token, i); Some(i)) else None
  }

  function Revoke(sessions: map<Id, Session>, i: Id, now: int): map<Id, Session> {
    if i in sessions && sessions[i].revokedAt.None? then sessions[i := sessions[i].(revokedAt := Some(now))] else sessions
  }

  ghost function RevokeToken(sessions: map<Id, Session>, token: Option<string>, now: int): map<Id, Session> {
    if token.None? || !Canonical(token.value) then sessions
    else
      var i := Lookup(sessions, token.value);
      if i.Some? then Revoke(sessions, i.value, now) else sessions
  }

  function ContextOf(i: Id, s: Session, ttl: Ttl, now: int): Context {
    var until := s.reauthenticatedAt + ttl.reauthentication;
    Context(i, s.csrf, s.expiresAt, s.absoluteExpiresAt, if now < s.reauthenticatedAt then now else until, now,
            s.reauthenticatedAt <= now < until)
  }

  // ----- the calls

  /** What a password check comes to. Only a wrong password is counted. */
  datatype Verdict = TooLong | Throttled | NoSession | StaleSession | WrongPassword | RightPassword

  predicate PasswordBounded(password: string) {
    Utf8Length(password) <= MAX_PASSWORD_BYTES
  }

  function Checked(st: Store, verify: (string, string) -> bool, password: string): Verdict {
    if st.passwordHash.None? || !verify(st.passwordHash.value, password) then WrongPassword else RightPassword
  }

  function LoginVerdict(st: Store, verify: (string, string) -> bool, password: string, now: int): Verdict {
    if !PasswordBounded(password) then TooLong
    else if Blocked(st, now) then Throttled
    else Checked(st, verify, password)
  }

  ghost function AfterLogin(st: Store, ttl: Ttl, verify: (string, string) -> bool, password: string,
                            existing: Option<string>, minted: Minted, now: int): Store {
    match LoginVerdict(st, verify, password, now)
    case WrongPassword => Failed(st, now)
    case RightPassword =>
      Accepted(st).(sessions := Issue(RevokeToken(st.sessions, existing, now), ttl, minted, now))
    case _ => st
  }

  function ReauthVerdict(st: Store, verify: (string, string) -> bool, i: Id, password: string, now: int): Verdict {
    if !PasswordBounded(password) then TooLong
    else if Blocked(st, now) then Throttled
    else if i !in st.sessions || st.sessions[i].revokedAt.Some? then NoSession
    else if Expired(st.sessions[i], now) then StaleSession
    else Checked(st, verify, password)
  }

  function AfterReauth(st: Store, ttl: Ttl, verify: (string, string) -> bool, i: Id, password: string,
                       minted: Minted, now: int): Store {
    match ReauthVerdict(st, verify, i, password, now)
    case StaleSession => st.(sessions := st.sessions - {i})
    case WrongPassword => Failed(st, now)
    case RightPassword => Accepted(st).(sessions := Issue(Revoke(st.sessions, i, now), ttl, minted, now))
    case _ => st
  }

  /** The session row after a use: its idle lifetime starts again, within the absolute one. */
  function Seen(s: Session, ttl: Ttl, now: int): Session {
    s.(lastSeenAt := now, expiresAt := Min(now + ttl.idle, s.absoluteExpiresAt))
  }

  function Touch(sessions: map<Id, Session>, ttl: Ttl, i: Id, now: int): map<Id, Session> {
    if i !in sessions || sessions[i].revokedAt.Some? then sessions
    else if Expired(sessions[i], now) then sessions - {i}
    else sessions[i := Seen(sessions[i], ttl, now)]
  }

  ghost function AfterAuthenticate(st: Store, ttl: Ttl, token: string, now: int): Store {
    var i := Lookup(st.sessions, token);
    if !Canonical(token) || i.None? then st else st.(sessions := Touch(st.sessions, ttl, i.value, now))
  }

  /** The session that a token proves at this moment. */
  ghost function Proves(st: Store, token: string, now: int): Option<Id> {
    var i := Lookup(st.sessions, token);
    if Canonical(token) && i.Some? && Usable(st.sessions[i.value], now) then i else None
  }

  datatype BootstrapError = PasswordPolicy | AlreadyCompleted | Unavailable | InvalidToken

  function BootstrapCheck(st: Store, token: string, password: string): Option<BootstrapError> {
    if |password| < MIN_PASSWORD_CHARACTERS || !PasswordBounded(password) then Some(PasswordPolicy)
    else if st.passwordHash.Some? then Some(AlreadyCompleted)
    else if st.bootstrap.None? then Some(Unavailable)
    else if !Canonical(token) || st.bootstrap.value != token then Some(InvalidToken)
    else None
  }

  function AfterBootstrap(st: Store, ttl: Ttl, token: string, password: string, passwordHash: string,
                          minted: Minted, now: int): Store {
    if BootstrapCheck(st, token, password).Some? then st
    else Accepted(st).(bootstrap := None, passwordHash := Some(passwordHash),
                       sessions := Issue(st.sessions, ttl, minted, now))
  }

  function AfterLogout(st: Store, i: Id, now: int): Store {
    st.(sessions := Revoke(st.sessions, i, now))
  }

  /** Rotating for a session that is no longer usable raises, which undoes the deletion of its row. */
  function AfterRotate(st: Store, i: Id, csrf: string, now: int): Store {
    if i !in st.sessions || !Usable(st.sessions[i], now) then st
    else st.(sessions := st.sessions[i := st.sessions[i].(csrf := csrf)])
  }

  function AfterCleanup(st: Store, now: int): Store {
    st.(sessions := WithoutStale(st.sessions, now))
  }

  function AfterGenerate(st: Store, token: string): Store {
    if st.passwordHash.Some? then st else st.(bootstrap := Some(token))
  }
}
