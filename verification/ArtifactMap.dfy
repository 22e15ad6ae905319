/** What the callers of the artifact store may rely on, over every run. */
module ArtifactMap {
  import opened Wrappers
  import opened ArtifactStore
  import opened ArtifactSafety

  /** A caller that has its answer and holds no file any more. */
  ghost predicate Answered(s: State, p: Pid) {
    p in s.procs && s.procs[p].Finished?
  }

  /** How the call that p made stands in the log. */
  ghost predicate InLog(s: State, p: Pid, q: Proc)
    requires q.Finished?
  {
    match q.position
    case Some(at) => Took(s, p, q.since, at, q.call, q.answer)
    case None => Undecided(s, p, q.since) && (q.answer.Clash? || q.answer.Failed?)
  }

  /** The store is one atomic map: the log is a legal sequence of atomic operations that yields the
      directory's contents, and a finished call took effect in it exactly once, within its own
      interval and with the answer it gives, or failed and took effect at most once. */
  lemma {:induction false} Linearizable(hash: Bytes -> Digest, moves: seq<(Pid, Move)>)
    ensures var s := Run(hash, Empty(), moves);
            && Replay(hash, s.log).Some? && Mirrors(Replay(hash, s.log).value, s)
            && forall p :: Answered(s, p) ==> InLog(s, p, s.procs[p])
  {
    EmptyInv(hash);
    RunKeeps(hash, Empty(), moves);
    var s := Run(hash, Empty(), moves);
    forall p | Answered(s, p) ensures InLog(s, p, s.procs[p]) { assert ProcOk(hash, s, p); }
  }

  lemma LogAppends(hash: Bytes -> Digest, s: State, p: Pid, m: Move)
    requires Next(hash, s, p, m).Some?
    ensures s.log <= Next(hash, s, p, m).value.log
  {
  }

  /** Operations are never taken back or reordered, so a call that returned before another began
      took effect before it. */
  lemma {:induction false} LogExtends(hash: Bytes -> Digest, s: State, moves: seq<(Pid, Move)>)
    ensures s.log <= Run(hash, s, moves).log
    decreases |moves|
  {
    if moves != [] {
      var t := Next(hash, s, moves[0].0, moves[0].1);
      if t.Some? { LogAppends(hash, s, moves[0].0, moves[0].1); }
      LogExtends(hash, if t.Some? then t.value else s, moves[1..]);
    }
  }

  // ----- the right bytes

  ghost predicate WasPut(log: seq<Entry>, payload: Bytes) {
    exists n :: 0 <= n < |log| && log[n].call == Put(payload)
  }

  lemma WasPutLater(log: seq<Entry>, more: seq<Entry>, payload: Bytes)
    requires WasPut(log, payload)
    ensures WasPut(log + more, payload)
  {
    var n :| 0 <= n < |log| && log[n].call == Put(payload);
    assert (log + more)[n].call == Put(payload);
  }

  /** Whatever the map holds was put, under its own digest. */
  lemma {:induction false} Provenance(hash: Bytes -> Digest, log: seq<Entry>)
    requires Replay(hash, log).Some?
    ensures var m := Replay(hash, log).value; forall d <- m :: hash(m[d]) == d && WasPut(log, m[d])
    decreases |log|
  {
    if log != [] {
      var n := |log| - 1;
      Provenance(hash, log[..n]);
      var before, after := Replay(hash, log[..n]).value, Replay(hash, log).value;
      assert log == log[..n] + [log[n]];
      forall d <- after ensures hash(after[d]) == d && WasPut(log, after[d]) {
        if d in before && before[d] == after[d] {
          WasPutLater(log[..n], [log[n]], after[d]);
        } else {
          assert log[n].call == Put(after[d]);
        }
      }
    }
  }

  lemma {:induction false} ReplayPrefix(hash: Bytes -> Digest, log: seq<Entry>, n: nat)
    requires Replay(hash, log).Some? && n <= |log|
    ensures Replay(hash, log[..n]).Some?
    decreases |log|
  {
    if n < |log| {
      ReplayPrefix(hash, log[..|log| - 1], n);
      assert log[..|log| - 1][..n] == log[..n];
    } else {
      assert log[..n] == log;
    }
  }

  lemma {:induction false} EntryApplies(hash: Bytes -> Digest, log: seq<Entry>, at: nat)
    requires Replay(hash, log).Some? && at < |log|
    ensures Replay(hash, log[..at]).Some?
    ensures Apply(hash, Replay(hash, log[..at]).value, log[at]).Some?
  {
    ReplayPrefix(hash, log, at);
    ReplayPrefix(hash, log, at + 1);
    assert log[..at + 1][..at] == log[..at];
  }

  /** A successful get returns the whole payload of an earlier put with that digest; a successful
      put reports the size of bytes with its digest; no read is ever found corrupt. */
  lemma {:induction false} RightBytes(hash: Bytes -> Digest, moves: seq<(Pid, Move)>, p: Pid)
    ensures var s := Run(hash, Empty(), moves);
            Answered(s, p) ==>
              && !s.procs[p].answer.Corrupt?
              && (s.procs[p].answer.Found? ==>
                    hash(s.procs[p].answer.payload) == AddressOf(hash, s.procs[p].call)
                    && WasPut(s.log, s.procs[p].answer.payload))
  {
    EmptyInv(hash);
    RunKeeps(hash, Empty(), moves);
    var s := Run(hash, Empty(), moves);
    if Answered(s, p) {
      assert ProcOk(hash, s, p);
      if s.procs[p].answer.Found? { FoundRight(hash, s.log, s.procs[p].position.value); }
    }
  }

  lemma {:induction false} FoundRight(hash: Bytes -> Digest, log: seq<Entry>, at: nat)
    requires Replay(hash, log).Some? && at < |log| && log[at].answer.Found?
    ensures hash(log[at].answer.payload) == AddressOf(hash, log[at].call) && WasPut(log, log[at].answer.payload)
  {
    EntryApplies(hash, log, at);
    Provenance(hash, log[..at]);
    WasPutLater(log[..at], log[at..], log[at].answer.payload);
    assert log[..at] + log[at..] == log;
  }

  /** Without two colliding payloads among those put, an address always holds the payload itself. */
  lemma {:induction false} OnlyItself(hash: Bytes -> Digest, moves: seq<(Pid, Move)>, payload: Bytes)
    requires var s := Run(hash, Empty(), moves);
             forall other :: WasPut(s.log, other) && hash(other) == hash(payload) ==> other == payload
    ensures var s := Run(hash, Empty(), moves);
            var name := Address(hash(payload));
            && (name in s.names ==> s.names[name] in s.data && s.data[s.names[name]] == payload)
            && forall at: nat :: at < |s.log| && s.log[at].call == Put(payload) ==> s.log[at].answer == Stored(|payload|)
  {
    Linearizable(hash, moves);
    var s := Run(hash, Empty(), moves);
    Provenance(hash, s.log);
    forall at: nat | at < |s.log| && s.log[at].call == Put(payload) ensures s.log[at].answer == Stored(|payload|) {
      EntryApplies(hash, s.log, at);
      Provenance(hash, s.log[..at]);
      var m := Replay(hash, s.log[..at]).value;
      if hash(payload) in m {
        WasPutLater(s.log[..at], s.log[at..], m[hash(payload)]);
        assert s.log[..at] + s.log[at..] == s.log;
      }
    }
  }

  // ----- contention

  /** Every extra turn of a put's install loop is paid for by a removal of that address since the put
      began, and a delete that lost its target was beaten by one. */
  lemma {:induction false} ContentionPaid(hash: Bytes -> Digest, moves: seq<(Pid, Move)>, p: Pid)
    ensures var s := Run(hash, Empty(), moves);
            p in s.procs ==>
              var q := s.procs[p];
              var removed := Removals(s.log, AddressOf(hash, q.call), q.since);
              && (q.Linking? || q.Looking? ==> q.turns <= removed)
              && (q.Finished? && (q.answer.Changed? || q.answer.Vanished?) ==> 1 <= removed)
  {
    EmptyInv(hash);
    RunKeeps(hash, Empty(), moves);
    var s := Run(hash, Empty(), moves);
    if p in s.procs { assert ProcOk(hash, s, p); }
  }

  const GO := Advance(0, 0, 0)

  function Approach(p: Pid, d: Digest): seq<(Pid, Move)> {
    [(p, Begin(Delete(d))), (p, GO), (p, GO)]
  }

  lemma {:induction false} Approaches(hash: Bytes -> Digest, s: State, p: Pid, d: Digest, rest: seq<(Pid, Move)>)
    requires p !in s.procs && Address(d) in s.names
    ensures Run(hash, s, Approach(p, d) + rest) == Run(hash, Goto(s, p, Unlinking(Delete(d), |s.log|)), rest)
  {
    var moves := Approach(p, d) + rest;
    var t0 := Goto(s, p, Opening(Delete(d), |s.log|));
    var t1 := Goto(t0, p, Comparing(Delete(d), |s.log|, s.names[Address(d)]));
    var t2 := Goto(t1, p, Unlinking(Delete(d), |s.log|));
    OneMove(hash, s, p, Begin(Delete(d)), t0, moves);
    OneMove(hash, t0, p, GO, t1, moves[1..]);
    OneMove(hash, t1, p, GO, t2, moves[1..][1..]);
    assert moves[1..][1..][1..] == rest;
    assert t2 == Goto(s, p, Unlinking(Delete(d), |s.log|));
  }

  /** Wherever an artifact exists, two deletes can race so that one removes it and the other ends with
      the bare missing-file exception. */
  lemma {:induction false} LostDelete(hash: Bytes -> Digest, s: State, p: Pid, q: Pid, d: Digest)
    requires p !in s.procs && q !in s.procs && p != q && Address(d) in s.names
    ensures var t := Run(hash, s, Approach(p, d) + (Approach(q, d) + [(q, GO), (p, GO)]));
            && Answered(t, p) && t.procs[p].call == Delete(d) && t.procs[p].since == |s.log| && t.procs[p].answer == Vanished
            && t.log == s.log + [Entry(q, Delete(d), Deleted)] + [Entry(p, Delete(d), Vanished)]
  {
    Approaches(hash, s, p, d, Approach(q, d) + [(q, GO), (p, GO)]);
    var t0 := Goto(s, p, Unlinking(Delete(d), |s.log|));
    Approaches(hash, t0, q, d, [(q, GO), (p, GO)]);
    var t1 := Goto(t0, q, Unlinking(Delete(d), |s.log|));
    var t2 := Settle(t1.(names := t1.names - {Address(d)}), q, Delete(d), |s.log|, Deleted);
    var t3 := Settle(t2, p, Delete(d), |s.log|, Vanished);
    OneMove(hash, t1, q, GO, t2, [(q, GO), (p, GO)]);
    OneMove(hash, t2, p, GO, t3, [(q, GO), (p, GO)][1..]);
  }

  lemma {:induction false} OneMove(hash: Bytes -> Digest, s: State, p: Pid, m: Move, t: State, moves: seq<(Pid, Move)>)
    requires Next(hash, s, p, m) == Some(t) && moves != [] && moves[0] == (p, m)
    ensures Run(hash, s, moves) == Run(hash, t, moves[1..])
  {
  }

  // ----- what a delete can come to

  /** The removals of d by anyone but p recorded in the log from a position on. */
  function RemovedByOthers(log: seq<Entry>, d: Digest, from: nat, p: Pid): nat
    decreases |log|
  {
    if |log| <= from then 0
    else
      var e := log[|log| - 1];
      RemovedByOthers(log[..|log| - 1], d, from, p) + if e.pid != p && e.call == Delete(d) && e.answer == Deleted then 1 else 0
  }

  /** A delete of d that p begins in s has come to this answer after the moves, while others removed d
      at most k times. */
  ghost predicate DeleteEnds(hash: Bytes -> Digest, s: State, p: Pid, d: Digest, moves: seq<(Pid, Move)>, answer: Answer, k: nat) {
    && moves != [] && moves[0] == (p, Begin(Delete(d)))
    && var t := Run(hash, s, moves);
    && Answered(t, p) && t.procs[p].call == Delete(d) && t.procs[p].since == |s.log| && t.procs[p].answer == answer
    && RemovedByOthers(t.log, d, |s.log|, p) <= k
  }

  lemma {:induction false} OthersOnly(log: seq<Entry>, d: Digest, from: nat, p: Pid)
    requires forall n :: from <= n < |log| && log[n].pid == p ==> log[n].answer != Deleted
    ensures RemovedByOthers(log, d, from, p) == Removals(log, d, from)
    decreases |log|
  {
    if from < |log| { OthersOnly(log[..|log| - 1], d, from, p); }
  }

  lemma {:induction false} RemovalsGrow(log: seq<Entry>, d: Digest, from: nat, n: nat)
    requires n <= |log|
    ensures Removals(log[..n], d, from) <= Removals(log, d, from)
    decreases |log|
  {
    if n < |log| {
      RemovalsGrow(log[..|log| - 1], d, from, n);
      assert log[..|log| - 1][..n] == log[..n];
    } else {
      assert log[..n] == log;
    }
  }

  /** What nobody removed is still there. */
  lemma {:induction false} Stays(hash: Bytes -> Digest, log: seq<Entry>, d: Digest, from: nat)
    requires Replay(hash, log).Some? && from <= |log| && Removals(log, d, from) == 0
    requires Replay(hash, log[..from]).Some? && d in Replay(hash, log[..from]).value
    ensures d in Replay(hash, log).value
    decreases |log|
  {
    if from < |log| {
      assert log[..|log| - 1][..from] == log[..from];
      Stays(hash, log[..|log| - 1], d, from);
    } else {
      assert log[..from] == log;
    }
  }

  lemma LostNeedsRival(hash: Bytes -> Digest, s: State, p: Pid, d: Digest, moves: seq<(Pid, Move)>, answer: Answer, k: nat)
    requires Inv(hash, s) && DeleteEnds(hash, s, p, d, moves, answer, k) && (answer.Changed? || answer.Vanished?)
    ensures 1 <= k
  {
    RunKeeps(hash, s, moves);
    var t := Run(hash, s, moves);
    assert ProcOk(hash, t, p);
    OthersOnly(t.log, d, |s.log|, p);
  }

  /** Unless somebody else removed the artifact meanwhile, a delete that finishes says that it removed
      it, or that it was absent, or reports an I/O error; and absent only if it was absent at first. */
  lemma Unopposed(hash: Bytes -> Digest, s: State, p: Pid, d: Digest, moves: seq<(Pid, Move)>, answer: Answer)
    requires Inv(hash, s) && DeleteEnds(hash, s, p, d, moves, answer, 0)
    ensures answer.Deleted? || answer.Absent? || answer.Failed?
    ensures answer.Absent? ==> Address(d) !in s.names
  {
    RunKeeps(hash, s, moves);
    LogExtends(hash, s, moves);
    var t := Run(hash, s, moves);
    assert ProcOk(hash, t, p);
    if !answer.Failed? {
      var at := t.procs[p].position.value;
      EntryApplies(hash, t.log, at);
      if answer.Changed? || answer.Vanished? { LostNeedsRival(hash, s, p, d, moves, answer, 0); }
      if answer.Absent? && Address(d) in s.names {
        OthersOnly(t.log, d, |s.log|, p);
        RemovalsGrow(t.log, d, |s.log|, at);
        assert t.log[..at][..|s.log|] == s.log;
        Stays(hash, t.log[..at], d, |s.log|);
      }
    }
  }

  lemma {:induction false} Above(ps: set<Pid>) returns (n: Pid)
    ensures forall q <- ps :: q < n
    decreases |ps|
  {
    if ps == {} {
      n := 0;
    } else {
      var q :| q in ps;
      var m := Above(ps - {q});
      n := if m <= q then q + 1 else m;
      forall r <- ps ensures r < n { if r != q { assert r in ps - {q}; } }
    }
  }

  /** Deleting is not quite idempotent: a delete of an artifact that is there can end with the bare
      missing-file exception if and only if somebody else may remove the artifact meanwhile. */
  lemma LostExactly(hash: Bytes -> Digest, s: State, p: Pid, d: Digest, k: nat)
    requires Inv(hash, s) && p !in s.procs && Address(d) in s.names
    ensures (exists moves :: DeleteEnds(hash, s, p, d, moves, Vanished, k)) <==> 1 <= k
  {
    forall moves | DeleteEnds(hash, s, p, d, moves, Vanished, k) ensures 1 <= k {
      LostNeedsRival(hash, s, p, d, moves, Vanished, k);
    }
    if 1 <= k {
      var q := Above(s.procs.Keys + {p});
      var moves := Approach(p, d) + (Approach(q, d) + [(q, GO), (p, GO)]);
      LostDelete(hash, s, p, q, d);
      OneRemoval(s.log, d, p, q);
      assert DeleteEnds(hash, s, p, d, moves, Vanished, k);
    }
  }

  lemma {:induction false} RemovedNext(log: seq<Entry>, d: Digest, from: nat, p: Pid, e: Entry)
    requires from <= |log|
    ensures RemovedByOthers(log + [e], d, from, p)
            == RemovedByOthers(log, d, from, p) + if e.pid != p && e.call == Delete(d) && e.answer == Deleted then 1 else 0
  {
    assert (log + [e])[..|log|] == log;
  }

  lemma {:induction false} OneRemoval(log: seq<Entry>, d: Digest, p: Pid, q: Pid)
    requires p != q
    ensures RemovedByOthers(log + [Entry(q, Delete(d), Deleted)] + [Entry(p, Delete(d), Vanished)], d, |log|, p) == 1
  {
    var first, second := Entry(q, Delete(d), Deleted), Entry(p, Delete(d), Vanished);
    RemovedNext(log, d, |log|, p, first);
    RemovedNext(log + [first], d, |log|, p, second);
  }

  // ----- temporary files

  /** The step leaves a temporary file without a caller. */
  ghost predicate LeavesTemp(s: State, p: Pid, m: Move) {
    p in s.procs && ((m.Crash? && TempOf(s.procs[p]).Some?) || (m.Break? && s.procs[p].Cleaning?))
  }

  ghost predicate Tidy(hash: Bytes -> Digest, s: State, moves: seq<(Pid, Move)>)
    decreases |moves|
  {
    moves == [] ||
      (&& !LeavesTemp(s, moves[0].0, moves[0].1)
       && var t := Next(hash, s, moves[0].0, moves[0].1);
          Tidy(hash, if t.Some? then t.value else s, moves[1..]))
  }

  lemma OrphansGrow(hash: Bytes -> Digest, s: State, p: Pid, m: Move)
    requires Next(hash, s, p, m).Some?
    ensures s.orphans <= Next(hash, s, p, m).value.orphans
    ensures Next(hash, s, p, m).value.orphans == {} <==> s.orphans == {} && !LeavesTemp(s, p, m)
  {
    var t := Next(hash, s, p, m).value;
    if LeavesTemp(s, p, m) { assert TempOf(s.procs[p]).value in t.orphans; }
  }

  lemma {:induction false} NoOrphans(hash: Bytes -> Digest, s: State, moves: seq<(Pid, Move)>)
    ensures Run(hash, s, moves).orphans == {} <==> s.orphans == {} && Tidy(hash, s, moves)
    decreases |moves|
  {
    if moves != [] {
      var t := Next(hash, s, moves[0].0, moves[0].1);
      if t.Some? { OrphansGrow(hash, s, moves[0].0, moves[0].1); }
      NoOrphans(hash, if t.Some? then t.value else s, moves[1..]);
    }
  }

  /** The temporary file belongs to a put still at work. */
  ghost predicate InUse(s: State, token: nat) {
    exists p :: p in s.procs && !s.procs[p].Finished? && s.procs[p].call.Put? && TempOf(s.procs[p]) == Some(token)
  }

  /** Every temporary file belongs to a put still at work if and only if no caller ever died while it
      had one, and none failed to remove its own: all other puts, even failed ones, leave none. */
  lemma {:induction false} NothingLeftBehind(hash: Bytes -> Digest, moves: seq<(Pid, Move)>)
    ensures var s := Run(hash, Empty(), moves);
            (forall t: nat :: Temp(t) in s.names ==> InUse(s, t)) <==> Tidy(hash, Empty(), moves)
  {
    EmptyInv(hash);
    RunKeeps(hash, Empty(), moves);
    NoOrphans(hash, Empty(), moves);
    var s := Run(hash, Empty(), moves);
    forall t: nat | Temp(t) in s.names ensures InUse(s, t) <==> t !in s.orphans {
      if Owned(s, t) {
        var p :| p in s.procs && TempOf(s.procs[p]) == Some(t);
        assert ProcOk(hash, s, p);
      }
      if InUse(s, t) { assert Owned(s, t); }
    }
    if s.orphans != {} {
      var t :| t in s.orphans;
      assert Temp(t) in s.names;
    }
  }
}
