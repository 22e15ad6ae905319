/** How many wrong passwords the throttle lets through in a stretch of time. */
module AuthThrottle {
  import opened Basics
  import opened Wrappers
  import opened AuthStore

  datatype Command =
    | Login(password: string, existing: Option<string>, minted: Minted)
    | Reauthenticate(id: Id, password: string, minted: Minted)
    | Authenticate(token: string)
    | Bootstrap(token: string, password: string, passwordHash: string, minted: Minted)
    | Logout(id: Id)
    | RotateCsrf(id: Id, csrf: string)
    | Cleanup
    | GenerateBootstrap(token: string)

  /** A call and the moment its clock was read. */
  datatype Event = Event(at: int, command: Command)

  /** The configuration: lifetimes and the password hash check. */
  datatype Config = Config(ttl: Ttl, verify: (string, string) -> bool)

  ghost function After(cfg: Config, st: Store, e: Event): Store {
    match e.command
    case Login(password, existing, minted) => AfterLogin(st, cfg.ttl, cfg.verify, password, existing, minted, e.at)
    case Reauthenticate(id, password, minted) => AfterReauth(st, cfg.ttl, cfg.verify, id, password, minted, e.at)
    case Authenticate(token) => AfterAuthenticate(st, cfg.ttl, token, e.at)
    case Bootstrap(token, password, hash, minted) => AfterBootstrap(st, cfg.ttl, token, password, hash, minted, e.at)
    case Logout(id) => AfterLogout(st, id, e.at)
    case RotateCsrf(id, csrf) => AfterRotate(st, id, csrf, e.at)
    case Cleanup => AfterCleanup(st, e.at)
    case GenerateBootstrap(token) => AfterGenerate(st, token)
  }

  function VerdictOf(cfg: Config, st: Store, e: Event): Option<Verdict> {
    match e.command
    case Login(password, _, _) => Some(LoginVerdict(st, cfg.verify, password, e.at))
    case Reauthenticate(id, password, _) => Some(ReauthVerdict(st, cfg.verify, id, password, e.at))
    case _ => None
  }

  /** An unblocked wrong password was evaluated. */
  predicate Wrong(cfg: Config, st: Store, e: Event) {
    VerdictOf(cfg, st, e) == Some(WrongPassword)
  }

  /** The throttle starts over: a right password, or the bootstrap. */
  predicate Resets(cfg: Config, st: Store, e: Event) {
    || VerdictOf(cfg, st, e) == Some(RightPassword)
    || (e.command.Bootstrap? && BootstrapCheck(st, e.command.token, e.command.password).None?)
  }

  ghost function WrongPasswords(cfg: Config, st: Store, events: seq<Event>): nat
    decreases |events|
  {
    if events == [] then 0
    else (if Wrong(cfg, st, events[0]) then 1 else 0) + WrongPasswords(cfg, After(cfg, st, events[0]), events[1..])
  }

  ghost predicate NeverResets(cfg: Config, st: Store, events: seq<Event>)
    decreases |events|
  {
    events == [] || (!Resets(cfg, st, events[0]) && NeverResets(cfg, After(cfg, st, events[0]), events[1..]))
  }

  /** The clock does not go back. */
  predicate InOrder(from: int, events: seq<Event>)
    decreases |events|
  {
    events == [] || (from <= events[0].at && InOrder(events[0].at, events[1..]))
  }

  /** The seconds by which the checks still to come may run ahead of one in 300 seconds. */
  function Slack(failures: int): (s: int)
    requires 0 <= failures
    ensures 300 <= s <= 3390
    decreases 16 - Min(failures, 16)
  {
    match Min(failures, 12)
    case 0 => 3390
    case 1 => 3090
    case 2 => 2790
    case 3 => 2490
    case 4 => 2190
    case 5 => 1892
    case 6 => 1596
    case 7 => 1304
    case 8 => 1020
    case 9 => 752
    case 10 => 516
    case 11 => 344
    case _ => 300
  }

  function DelayAfter(failures: int): (d: int)
    ensures 0 <= d <= THROTTLE_MAX_SECONDS
  {
    if THROTTLE_START <= failures then Delay(failures) else 0
  }

  lemma {:induction false} Pow2Grows(n: nat)
    requires 9 <= n
    ensures 300 <= Pow2(n)
  {
    if n == 9 {
      assert Pow2(9) == 2 * (2 * (2 * (2 * (2 * (2 * (2 * (2 * (2 * Pow2(0)))))))));
    } else {
      Pow2Grows(n - 1);
    }
  }

  /** One more wrong password spends 300 seconds of the slack and earns its delay. */
  lemma SlackSpent(failures: int)
    requires 0 <= failures
    ensures var next := Min(failures + 1, THROTTLE_MAX_FAILURES);
            300 + Slack(next) <= Slack(failures) + DelayAfter(next)
  {
    var next := Min(failures + 1, THROTTLE_MAX_FAILURES);
    if next >= 13 {
      Pow2Grows(next - 4);
    } else if next >= 5 {
      assert Pow2(1) == 2 && Pow2(2) == 4 && Pow2(3) == 8;
      assert Pow2(4) == 2 * Pow2(3) && Pow2(5) == 2 * Pow2(4) && Pow2(6) == 2 * Pow2(5);
      assert Pow2(7) == 2 * Pow2(6) && Pow2(8) == 2 * Pow2(7);
    }
  }

  function Ready(st: Store, now: int): int {
    if st.blockedUntil.Some? && now < st.blockedUntil.value then st.blockedUntil.value else now
  }

  lemma AfterKeepsThrottle(cfg: Config, st: Store, e: Event)
    requires !Resets(cfg, st, e)
    ensures var t := After(cfg, st, e);
            if Wrong(cfg, st, e) then t == Failed(st, e.at) && !Blocked(st, e.at)
            else t.failures == st.failures && t.blockedUntil == st.blockedUntil
  {
  }

  lemma {:induction false} BlockedAll(cfg: Config, st: Store, events: seq<Event>, from: int, end: int)
    requires 0 <= st.failures && NeverResets(cfg, st, events) && InOrder(from, events)
    requires forall n :: 0 <= n < |events| ==> events[n].at <= end
    ensures end < Ready(st, from) ==> WrongPasswords(cfg, st, events) == 0
    ensures Ready(st, from) <= end ==>
              300 * SECOND * WrongPasswords(cfg, st, events) <= end - Ready(st, from) + Slack(st.failures) * SECOND
    decreases |events|
  {
    if events != [] {
      var e := events[0];
      var t := After(cfg, st, e);
      AfterKeepsThrottle(cfg, st, e);
      BlockedAll(cfg, t, events[1..], e.at, end);
      if Wrong(cfg, st, e) {
        SlackSpent(st.failures);
        assert Ready(t, e.at) >= e.at + DelayAfter(t.failures) * SECOND;
      }
    }
  }

  /** In any stretch of time without a right password or a bootstrap, at most 12 wrong passwords and
      one more per 300 seconds are ever evaluated, whatever the throttle held before. */
  lemma {:induction false} ThrottleBound(cfg: Config, st: Store, events: seq<Event>, start: int, seconds: nat)
    requires 0 <= st.failures && NeverResets(cfg, st, events) && InOrder(start, events)
    requires forall n :: 0 <= n < |events| ==> events[n].at <= start + seconds * SECOND
    ensures WrongPasswords(cfg, st, events) <= 12 + seconds / 300
  {
    BlockedAll(cfg, st, events, start, start + seconds * SECOND);
  }
}
