/** What the calls of the artifact store come to: alone they do their work, and a put that does not
    says why. */
module ArtifactOutcomes {
  import opened Wrappers
  import opened ArtifactStore
  import opened ArtifactSafety
  import opened ArtifactMap

  // ----- one caller alone

  /** Moves of one caller, without errors or crashes. */
  ghost predicate OwnMoves(p: Pid, moves: seq<(Pid, Move)>) {
    forall n :: 0 <= n < |moves| ==> moves[n].0 == p && (moves[n].1.Begin? || moves[n].1.Advance?)
  }

  ghost predicate Reaches(hash: Bytes -> Digest, s: State, p: Pid, t: State) {
    exists moves :: OwnMoves(p, moves) && Run(hash, s, moves) == t
  }

  lemma Arrived(hash: Bytes -> Digest, s: State, p: Pid)
    ensures Reaches(hash, s, p, s)
  {
    assert OwnMoves(p, []) && Run(hash, s, []) == s;
  }

  lemma Onward(hash: Bytes -> Digest, s: State, p: Pid, m: Move, u: State, t: State)
    requires (m.Begin? || m.Advance?) && Next(hash, s, p, m) == Some(u) && Reaches(hash, u, p, t)
    ensures Reaches(hash, s, p, t)
  {
    var moves :| OwnMoves(p, moves) && Run(hash, u, moves) == t;
    var longer := [(p, m)] + moves;
    OneMove(hash, s, p, m, u, longer);
    assert longer[1..] == moves;
    assert OwnMoves(p, longer) && Run(hash, s, longer) == t;
  }

  /** The caller has this answer to this call. */
  ghost predicate Answers(s: State, p: Pid, call: Call, answer: Answer) {
    p in s.procs && s.procs[p].Finished? && s.procs[p].call == call && s.procs[p].answer == answer
  }

  ghost predicate OthersAlike(s: State, t: State, p: Pid) {
    t.procs - {p} == s.procs - {p}
  }

  /** The bytes at an address. */
  ghost predicate HoldsBytes(s: State, d: Digest, payload: Bytes) {
    Address(d) in s.names && s.names[Address(d)] in s.data && s.data[s.names[Address(d)]] == payload
  }

  /** Reading an open file to its end. */
  lemma ReadsOut(hash: Bytes -> Digest, s: State, p: Pid, q: Proc) returns (t: State)
    requires p in s.procs && s.procs[p] == q && q.Reading? && q.temp.None? && q.got == []
    requires q.inode in s.data && hash(s.data[q.inode]) == AddressOf(hash, q.call)
    ensures Reaches(hash, s, p, t) && t.names == s.names && t.data == s.data && OthersAlike(s, t, p)
    ensures Answers(t, p, q.call, if q.call.Get? then Found(s.data[q.inode]) else Stored(|s.data[q.inode]|))
  {
    var payload := s.data[q.inode];
    var u := Goto(s, p, q.(got := payload));
    t := Goto(u, p, Finished(q.call, q.since, ReadAnswer(q.call, payload), Some(q.at)));
    Arrived(hash, t, p);
    Onward(hash, u, p, Advance(0, 0, 0), t, t);
    if payload == [] {
      assert u == s;
    } else {
      assert q.got + payload[|q.got|..|q.got| + |payload|] == payload;
      Onward(hash, s, p, Advance(|payload|, 0, 0), u, t);
    }
  }

  lemma LooksUp(hash: Bytes -> Digest, s: State, p: Pid, call: Call) returns (t: State)
    requires Inv(hash, s) && p !in s.procs && !call.Delete? && Address(AddressOf(hash, call)) in s.names
    ensures Reaches(hash, s, p, t) && t.names == s.names && t.data == s.data && OthersAlike(s, t, p)
    ensures s.names[Address(AddressOf(hash, call))] in s.data
    ensures var payload := s.data[s.names[Address(AddressOf(hash, call))]];
            Answers(t, p, call, if call.Get? then Found(payload) else Stored(|payload|))
  {
    var d := AddressOf(hash, call);
    assert Frozen(s, s.names[Address(d)]);
    var i := s.names[Address(d)];
    var u := Goto(s, p, Looking(call, |s.log|, None, 0));
    var v := Goto(Decide(u, p, call, ReadAnswer(call, s.data[i])), p, Reading(call, |s.log|, None, i, [], |s.log|));
    t := ReadsOut(hash, v, p, v.procs[p]);
    Onward(hash, u, p, Advance(0, 0, 0), v, t);
    Onward(hash, s, p, Begin(call), u, t);
  }

  /** A get alone returns the bytes that the address has, or says that there are none. */
  lemma GetAlone(hash: Bytes -> Digest, s: State, p: Pid, d: Digest) returns (t: State)
    requires Inv(hash, s) && p !in s.procs
    ensures Reaches(hash, s, p, t) && t.names == s.names && t.data == s.data && OthersAlike(s, t, p)
    ensures forall payload :: HoldsBytes(s, d, payload) ==> Answers(t, p, Get(d), Found(payload))
    ensures Address(d) !in s.names ==> Answers(t, p, Get(d), Missing)
  {
    if Address(d) in s.names {
      t := LooksUp(hash, s, p, Get(d));
    } else {
      var u := Goto(s, p, Looking(Get(d), |s.log|, None, 0));
      t := Goto(Decide(u, p, Get(d), Missing), p, Finished(Get(d), |s.log|, Missing, Some(|s.log|)));
      Arrived(hash, t, p);
      Onward(hash, u, p, Advance(0, 0, 0), t, t);
      Onward(hash, s, p, Begin(Get(d)), u, t);
    }
  }

  lemma Removes(hash: Bytes -> Digest, s: State, p: Pid, d: Digest, since: nat, t: State)
    requires p in s.procs && s.procs[p] == Opening(Delete(d), since) && Address(d) in s.names
    requires t == Settle(s.(names := s.names - {Address(d)}), p, Delete(d), since, Deleted)
    ensures Reaches(hash, s, p, t)
  {
    var v := Goto(s, p, Comparing(Delete(d), since, s.names[Address(d)]));
    var w := Goto(v, p, Unlinking(Delete(d), since));
    assert w.procs[p := t.procs[p]] == s.procs[p := t.procs[p]];
    Arrived(hash, t, p);
    Onward(hash, w, p, GO, t, t);
    Onward(hash, v, p, GO, w, t);
    Onward(hash, s, p, GO, v, t);
  }

  /** A delete alone takes the address away and nothing else, or says that it was absent. */
  lemma DeleteAlone(hash: Bytes -> Digest, s: State, p: Pid, d: Digest) returns (t: State)
    requires p !in s.procs
    ensures Reaches(hash, s, p, t) && t.names == s.names - {Address(d)} && t.data == s.data && OthersAlike(s, t, p)
    ensures Answers(t, p, Delete(d), if Address(d) in s.names then Deleted else Absent)
  {
    var u := Goto(s, p, Opening(Delete(d), |s.log|));
    if Address(d) in s.names {
      t := Settle(u.(names := u.names - {Address(d)}), p, Delete(d), |s.log|, Deleted);
      Removes(hash, u, p, d, |s.log|, t);
    } else {
      t := Settle(u, p, Delete(d), |s.log|, Absent);
      Arrived(hash, t, p);
      Onward(hash, u, p, GO, t, t);
      assert s.names - {Address(d)} == s.names;
    }
    Onward(hash, s, p, Begin(Delete(d)), u, t);
  }

  /** No name and no reader has the inode. */
  ghost predicate Unused(s: State, i: Inode) {
    && (forall n <- s.names :: s.names[n] != i)
    && (forall q <- s.procs :: s.procs[q].Reading? ==> s.procs[q].inode != i)
  }

  /** From a complete temporary file to the answer. */
  lemma Installs(hash: Bytes -> Digest, s: State, p: Pid, payload: Bytes, since: nat, token: nat, i: Inode) returns (t: State)
    requires p in s.procs && s.procs[p] == Linking(Put(payload), since, token, 0)
    requires Temp(token) in s.names && s.names[Temp(token)] == i && Address(hash(payload)) !in s.names
    ensures Reaches(hash, s, p, t) && Answers(t, p, Put(payload), Stored(|payload|))
    ensures t.names == s.names[Address(hash(payload)) := i] - {Temp(token)} && t.data == s.data && OthersAlike(s, t, p)
  {
    var name, answer := Address(hash(payload)), Stored(|payload|);
    var u := Goto(Decide(s.(names := s.names[name := i]), p, Put(payload), answer), p,
                  Cleaning(Put(payload), since, token, answer, Some(|s.log|)));
    t := Goto(u.(names := u.names - {Temp(token)}), p, Finished(Put(payload), since, answer, Some(|s.log|)));
    Arrived(hash, t, p);
    Onward(hash, u, p, GO, t, t);
    Onward(hash, s, p, GO, u, t);
  }

  lemma WritesOut(hash: Bytes -> Digest, s: State, p: Pid, payload: Bytes, since: nat, token: nat, i: Inode) returns (t: State)
    requires p in s.procs && s.procs[p] == Writing(Put(payload), since, token, i, 0)
    requires Temp(token) in s.names && s.names[Temp(token)] == i && Address(hash(payload)) !in s.names
    requires i in s.data && s.data[i] == []
    ensures Reaches(hash, s, p, t) && Answers(t, p, Put(payload), Stored(|payload|))
    ensures t.names == s.names[Address(hash(payload)) := i] - {Temp(token)} && t.data == s.data[i := payload] && OthersAlike(s, t, p)
  {
    var u := Goto(s.(data := s.data[i := payload]), p, Writing(Put(payload), since, token, i, |payload|));
    var v := Goto(u, p, Linking(Put(payload), since, token, 0));
    t := Installs(hash, v, p, payload, since, token, i);
    Onward(hash, u, p, GO, v, t);
    if payload == [] {
      assert u.data == s.data;
      assert u == s;
    } else {
      assert payload[0..0 + |payload|] == payload && [] + payload == payload;
      Onward(hash, s, p, Advance(|payload|, 0, 0), u, t);
    }
  }

  lemma Creates(hash: Bytes -> Digest, s: State, p: Pid, payload: Bytes, since: nat, token: nat, i: Inode) returns (t: State)
    requires p in s.procs && s.procs[p] == Creating(Put(payload), since)
    requires Temp(token) !in s.names && Unused(s, i) && Address(hash(payload)) !in s.names
    ensures Reaches(hash, s, p, t) && Answers(t, p, Put(payload), Stored(|payload|))
    ensures t.names == s.names[Address(hash(payload)) := i] && t.data == s.data[i := payload] && OthersAlike(s, t, p)
  {
    var w := Goto(s.(names := s.names[Temp(token) := i], data := s.data[i := []]), p, Writing(Put(payload), since, token, i, 0));
    t := WritesOut(hash, w, p, payload, since, token, i);
    Onward(hash, s, p, Advance(0, token, i), w, t);
    assert t.names == s.names[Address(hash(payload)) := i];
    assert t.data == s.data[i := payload];
  }

  /** A put alone of a payload whose address is free stores the payload there, and changes nothing else;
      no temporary name remains. */
  lemma PutsNew(hash: Bytes -> Digest, s: State, p: Pid, payload: Bytes, token: nat, i: Inode) returns (t: State)
    requires p !in s.procs && Temp(token) !in s.names && Unused(s, i) && Address(hash(payload)) !in s.names
    ensures Reaches(hash, s, p, t) && Answers(t, p, Put(payload), Stored(|payload|))
    ensures t.names == s.names[Address(hash(payload)) := i] && t.data == s.data[i := payload] && OthersAlike(s, t, p)
  {
    var u := Goto(s, p, Looking(Put(payload), |s.log|, None, 0));
    var v := Goto(u, p, Creating(Put(payload), |s.log|));
    t := Creates(hash, v, p, payload, |s.log|, token, i);
    Onward(hash, u, p, GO, v, t);
    Onward(hash, s, p, Begin(Put(payload)), u, t);
  }

  /** Whatever the state of the store, a put alone ends stored: its address has the payload, or bytes of
      the same digest that were there before. */
  lemma PutAlone(hash: Bytes -> Digest, s: State, p: Pid, payload: Bytes, token: nat, i: Inode) returns (t: State)
    requires Inv(hash, s) && p !in s.procs && Temp(token) !in s.names && Unused(s, i)
    ensures Reaches(hash, s, p, t) && OthersAlike(s, t, p) && Address(hash(payload)) in t.names
    ensures Address(hash(payload)) !in s.names ==>
              && Answers(t, p, Put(payload), Stored(|payload|)) && HoldsBytes(t, hash(payload), payload)
              && t.names == s.names[Address(hash(payload)) := i] && t.data == s.data[i := payload]
    ensures forall before :: HoldsBytes(s, hash(payload), before) ==>
              Answers(t, p, Put(payload), Stored(|before|)) && t.names == s.names && t.data == s.data
  {
    if Address(hash(payload)) in s.names {
      t := LooksUp(hash, s, p, Put(payload));
    } else {
      t := PutsNew(hash, s, p, payload, token, i);
    }
  }

  /** There always is an unused token and inode. */
  lemma SomethingUnused(s: State) returns (token: nat, i: Inode)
    ensures Temp(token) !in s.names && Unused(s, i)
  {
    var tokens := set n <- s.names | n.Temp? :: n.token;
    token := Above(tokens);
    assert Temp(token) in s.names ==> token in tokens;
    var inodes := (set n <- s.names :: s.names[n]) + (set q <- s.procs | s.procs[q].Reading? :: s.procs[q].inode);
    i := Above(inodes);
    forall n <- s.names ensures s.names[n] != i { assert s.names[n] in inodes; }
    forall q <- s.procs | s.procs[q].Reading? ensures s.procs[q].inode != i { assert s.procs[q].inode in inodes; }
  }

  // ----- why a call failed

  /** At the n-th move p is offered a token that names an existing temporary file. */
  ghost predicate TokenTaken(hash: Bytes -> Digest, s: State, p: Pid, moves: seq<(Pid, Move)>, n: nat) {
    n < |moves| && moves[n].0 == p && moves[n].1.Advance? && Temp(moves[n].1.token) in Run(hash, s, moves[..n]).names
  }

  ghost predicate Breaks(p: Pid, moves: seq<(Pid, Move)>, n: nat) {
    n < |moves| && moves[n] == (p, Break)
  }

  ghost predicate Clashed(s: State, p: Pid) {
    p in s.procs && (s.procs[p].Cleaning? || s.procs[p].Finished?) && s.procs[p].answer.Clash?
  }

  ghost predicate Failing(s: State, p: Pid) {
    p in s.procs && (s.procs[p].Cleaning? || s.procs[p].Finished?) && s.procs[p].answer.Failed?
  }

  function Moved(hash: Bytes -> Digest, s: State, p: Pid, m: Move): State {
    var t := Next(hash, s, p, m);
    if t.Some? then t.value else s
  }

  lemma {:induction false} RunLast(hash: Bytes -> Digest, s: State, moves: seq<(Pid, Move)>, p: Pid, m: Move)
    ensures Run(hash, s, moves + [(p, m)]) == Moved(hash, Run(hash, s, moves), p, m)
    decreases |moves|
  {
    if moves == [] {
      assert (moves + [(p, m)])[1..] == [];
    } else {
      assert (moves + [(p, m)])[1..] == moves[1..] + [(p, m)];
      RunLast(hash, Moved(hash, s, moves[0].0, moves[0].1), moves[1..], p, m);
    }
  }

  lemma TurnsBad(hash: Bytes -> Digest, s: State, p: Pid, q: Pid, m: Move)
    ensures Clashed(Moved(hash, s, q, m), p) && !Clashed(s, p) ==> q == p && m.Advance? && Temp(m.token) in s.names
    ensures Failing(Moved(hash, s, q, m), p) && !Failing(s, p) ==> q == p && m.Break?
  {
  }

  /** A call ends with a clash of temporary names only if one of its steps was offered a token in use,
      and with an I/O error only if one of its steps had one. */
  lemma {:induction false} FailsForAReason(hash: Bytes -> Digest, s: State, p: Pid, moves: seq<(Pid, Move)>)
    requires p !in s.procs
    ensures Clashed(Run(hash, s, moves), p) ==> exists n: nat :: TokenTaken(hash, s, p, moves, n)
    ensures Failing(Run(hash, s, moves), p) ==> exists n: nat :: Breaks(p, moves, n)
    decreases |moves|
  {
    if moves != [] {
      var init, last := moves[..|moves| - 1], moves[|moves| - 1];
      assert moves == init + [last];
      FailsForAReason(hash, s, p, init);
      RunLast(hash, s, init, last.0, last.1);
      TurnsBad(hash, Run(hash, s, init), p, last.0, last.1);
      if Clashed(Run(hash, s, init), p) {
        var n: nat :| TokenTaken(hash, s, p, init, n);
        assert moves[..n] == init[..n];
        assert TokenTaken(hash, s, p, moves, n);
      } else if Clashed(Run(hash, s, moves), p) {
        assert TokenTaken(hash, s, p, moves, |init|);
      }
      if Failing(Run(hash, s, init), p) {
        var n: nat :| Breaks(p, init, n);
        assert Breaks(p, moves, n);
      } else if Failing(Run(hash, s, moves), p) {
        assert Breaks(p, moves, |init|);
      }
    }
  }

  /** In every interleaving a put that finished answers the size of what its address held then, or it was
      offered a token in use, or it had an I/O error. */
  lemma {:induction false} PutAnswers(hash: Bytes -> Digest, moves: seq<(Pid, Move)>, p: Pid, payload: Bytes)
    requires var s := Run(hash, Empty(), moves); Answered(s, p) && s.procs[p].call == Put(payload)
    ensures var s := Run(hash, Empty(), moves);
            || (s.procs[p].answer.Clash? && exists n: nat :: TokenTaken(hash, Empty(), p, moves, n))
            || (s.procs[p].answer.Failed? && exists n: nat :: Breaks(p, moves, n))
            || (s.procs[p].answer.Stored? && s.procs[p].position.Some?)
  {
    var s := Run(hash, Empty(), moves);
    EmptyInv(hash);
    RunKeeps(hash, Empty(), moves);
    assert ProcOk(hash, s, p);
    FailsForAReason(hash, Empty(), p, moves);
    if s.procs[p].position.Some? { EntryApplies(hash, s.log, s.procs[p].position.value); }
  }
}
