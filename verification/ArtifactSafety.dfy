/** Every interleaving of artifact-store calls behaves as one atomic map from digest to bytes. */
module ArtifactSafety {
  import opened Wrappers
  import opened ArtifactStore

  // ----- the invariant

  /** Nobody writes to the inode any more. */
  ghost predicate Frozen(s: State, i: Inode) {
    i in s.data && forall q <- s.procs :: s.procs[q].Writing? ==> s.procs[q].inode != i
  }

  /** The abstract map read off the directory. */
  ghost predicate Mirrors(m: map<Digest, Bytes>, s: State) {
    forall d: Digest ::
      && (d in m <==> Address(d) in s.names)
      && (Address(d) in s.names ==> s.names[Address(d)] in s.data && m[d] == s.data[s.names[Address(d)]])
  }

  ghost predicate AddressesOk(hash: Bytes -> Digest, s: State) {
    forall d: Digest :: Address(d) in s.names ==>
      Frozen(s, s.names[Address(d)]) && hash(s.data[s.names[Address(d)]]) == d
  }

  /** The caller has no log entry since its call began. */
  ghost predicate Undecided(s: State, p: Pid, since: nat) {
    since <= |s.log| && forall n :: since <= n < |s.log| ==> s.log[n].pid != p
  }

  /** The caller has exactly one log entry since its call began: this one. */
  ghost predicate Decided(s: State, p: Pid, since: nat, at: nat, call: Call, answer: Answer) {
    && since <= at < |s.log| && s.log[at] == Entry(p, call, answer)
    && forall n :: since <= n < |s.log| && s.log[n].pid == p ==> n == at
  }

  /** The caller has exactly one log entry since its call began, and it answers as the call does unless
      the call then failed. */
  ghost predicate Took(s: State, p: Pid, since: nat, at: nat, call: Call, answer: Answer) {
    && at < |s.log| && Decided(s, p, since, at, call, s.log[at].answer)
    && (answer == s.log[at].answer || answer.Failed?)
  }

  /** The temporary file holds the whole payload. */
  ghost predicate Holds(s: State, token: nat, payload: Bytes) {
    Temp(token) in s.names && Frozen(s, s.names[Temp(token)]) && s.data[s.names[Temp(token)]] == payload
  }

  ghost predicate HoldsAny(s: State, call: Call, temp: Option<nat>) {
    temp.Some? ==> call.Put? && Holds(s, temp.value, call.payload)
  }

  /** The removals of the call's address since it began, one spared when the name must be gone. */
  ghost predicate Paid(hash: Bytes -> Digest, s: State, call: Call, since: nat, debt: nat) {
    debt <= Removals(s.log, AddressOf(hash, call), since)
  }

  ghost predicate Gone(hash: Bytes -> Digest, s: State, call: Call) {
    Address(AddressOf(hash, call)) !in s.names
  }

  ghost predicate AnswerOk(hash: Bytes -> Digest, s: State, p: Pid, call: Call, since: nat, answer: Answer, position: Option<nat>) {
    match position
    case None => ((answer.Clash? && call.Put?) || answer.Failed?) && Undecided(s, p, since)
    case Some(at) =>
      && !answer.Corrupt? && !answer.Clash?
      && Took(s, p, since, at, call, answer)
      && (answer.Changed? || answer.Vanished? ==> Paid(hash, s, call, since, 1))
  }

  ghost predicate ProcOk(hash: Bytes -> Digest, s: State, p: Pid)
    requires p in s.procs
  {
    match s.procs[p]
    case Looking(call, since, temp, turns) =>
      && !call.Delete? && Undecided(s, p, since) && HoldsAny(s, call, temp)
      && (temp.None? ==> turns == 0)
      && (temp.Some? ==> Paid(hash, s, call, since, turns + if Gone(hash, s, call) then 1 else 0))
    case Reading(call, since, temp, inode, got, at) =>
      && !call.Delete? && Frozen(s, inode) && got <= s.data[inode] && hash(s.data[inode]) == AddressOf(hash, call)
      && Decided(s, p, since, at, call, ReadAnswer(call, s.data[inode])) && HoldsAny(s, call, temp)
    case Creating(call, since) => call.Put? && Undecided(s, p, since)
    case Writing(call, since, token, inode, written) =>
      && call.Put? && Undecided(s, p, since)
      && Temp(token) in s.names && s.names[Temp(token)] == inode && inode in s.data
      && written <= |call.payload| && s.data[inode] == call.payload[..written]
    case Linking(call, since, token, turns) =>
      call.Put? && Undecided(s, p, since) && Holds(s, token, call.payload) && Paid(hash, s, call, since, turns)
    case Cleaning(call, since, token, answer, position) =>
      call.Put? && Temp(token) in s.names && AnswerOk(hash, s, p, call, since, answer, position)
    case Opening(call, since) => call.Delete? && Undecided(s, p, since)
    case Comparing(call, since, inode) =>
      && call.Delete? && Undecided(s, p, since)
      && (Gone(hash, s, call) || s.names[Address(AddressOf(hash, call))] != inode ==> Paid(hash, s, call, since, 1))
    case Unlinking(call, since) =>
      call.Delete? && Undecided(s, p, since) && (Gone(hash, s, call) ==> Paid(hash, s, call, since, 1))
    case Finished(call, since, answer, position) => AnswerOk(hash, s, p, call, since, answer, position)
  }

  ghost predicate ProcsOk(hash: Bytes -> Digest, s: State) {
    forall p <- s.procs :: ProcOk(hash, s, p)
  }

  /** Two callers never share a temporary file, and never write to one inode. */
  ghost predicate Apart(s: State, p: Pid, q: Pid)
    requires p in s.procs && q in s.procs
  {
    && (TempOf(s.procs[p]).Some? ==> TempOf(s.procs[p]) != TempOf(s.procs[q]))
    && (s.procs[p].Writing? && s.procs[q].Writing? ==> s.procs[p].inode != s.procs[q].inode)
  }

  ghost predicate AllApart(s: State) {
    forall p, q :: p in s.procs && q in s.procs && p != q ==> Apart(s, p, q)
  }

  /** Some caller is using the temporary file. */
  ghost predicate Owned(s: State, token: nat) {
    exists p :: p in s.procs && TempOf(s.procs[p]) == Some(token)
  }

  /** Every temporary file belongs to a caller at work or was left by one that died. */
  ghost predicate TempsAccounted(s: State) {
    forall t: nat :: Temp(t) in s.names ==> t in s.orphans || Owned(s, t)
  }

  ghost predicate NamesOk(s: State) {
    && (forall n <- s.names :: s.names[n] in s.data)
    && (forall t <- s.orphans :: Temp(t) in s.names && !Owned(s, t))
    && TempsAccounted(s)
  }

  ghost predicate LogOk(hash: Bytes -> Digest, s: State) {
    Replay(hash, s.log).Some? && Mirrors(Replay(hash, s.log).value, s)
  }

  ghost predicate Inv(hash: Bytes -> Digest, s: State) {
    AddressesOk(hash, s) && ProcsOk(hash, s) && AllApart(s) && NamesOk(s) && LogOk(hash, s)
  }

  // ----- log lemmas

  lemma {:induction false} ReplayNext(hash: Bytes -> Digest, log: seq<Entry>, e: Entry)
    requires Replay(hash, log).Some?
    ensures Replay(hash, log + [e]) == Apply(hash, Replay(hash, log).value, e)
  {
    assert (log + [e])[..|log|] == log;
  }

  lemma {:induction false} RemovalsNext(log: seq<Entry>, e: Entry, d: Digest, from: nat)
    requires from <= |log|
    ensures Removals(log + [e], d, from)
            == Removals(log, d, from) + if e.call == Delete(d) && e.answer == Deleted then 1 else 0
  {
    assert (log + [e])[..|log|] == log;
  }

  // ----- what one caller's step leaves alone

  /** The log is the same, or has one more entry, by p. */
  ghost predicate LogGrows(s: State, t: State, p: Pid) {
    t.log == s.log || (|t.log| == |s.log| + 1 && t.log[..|s.log|] == s.log && t.log[|s.log|].pid == p)
  }

  /** q keeps what it relies on: its temporary file and the inode it reads, with their bytes. */
  ghost predicate Safe(s: State, t: State, q: Pid)
    requires q in s.procs
  {
    && (TempOf(s.procs[q]).Some? ==>
          var n := Temp(TempOf(s.procs[q]).value);
          n in s.names ==>
            && n in t.names && t.names[n] == s.names[n]
            && (!s.procs[q].Cleaning? ==> SameInode(s, t, s.names[n], s.procs[q].Writing?)))
    && (s.procs[q].Reading? ==> SameInode(s, t, s.procs[q].inode, false))
  }

  ghost predicate SameInode(s: State, t: State, i: Inode, written: bool) {
    && (i in s.data ==> i in t.data && t.data[i] == s.data[i])
    && (!written && Frozen(s, i) ==> Frozen(t, i))
  }

  /** An address changes only by being added, or by being removed with the removal logged. */
  ghost predicate AddressMoves(s: State, t: State, d: Digest) {
    || (Address(d) in s.names && Address(d) in t.names && s.names[Address(d)] == t.names[Address(d)] )
    || (Address(d) !in s.names)
    || (Address(d) !in t.names && |t.log| == |s.log| + 1 && t.log[|s.log|].call == Delete(d) && t.log[|s.log|].answer == Deleted)
  }

  ghost predicate StepBy(s: State, t: State, p: Pid) {
    && (forall q <- s.procs :: q != p ==> q in t.procs && t.procs[q] == s.procs[q] && Safe(s, t, q))
    && (forall q <- t.procs :: q != p ==> q in s.procs)
    && LogGrows(s, t, p)
    && forall d: Digest :: AddressMoves(s, t, d)
  }

  lemma {:induction false} DebtKept(hash: Bytes -> Digest, s: State, t: State, p: Pid, call: Call, since: nat)
    requires LogGrows(s, t, p) && since <= |s.log|
    ensures Removals(s.log, AddressOf(hash, call), since) <= Removals(t.log, AddressOf(hash, call), since)
    ensures AddressMoves(s, t, AddressOf(hash, call)) && !Gone(hash, s, call)
            && (Gone(hash, t, call) || t.names[Address(AddressOf(hash, call))] != s.names[Address(AddressOf(hash, call))])
            ==> Removals(s.log, AddressOf(hash, call), since) + 1 <= Removals(t.log, AddressOf(hash, call), since)
  {
    if t.log != s.log {
      assert t.log == s.log + [t.log[|s.log|]];
      RemovalsNext(s.log, t.log[|s.log|], AddressOf(hash, call), since);
    }
  }

  lemma UndecidedKept(s: State, t: State, p: Pid, q: Pid, since: nat)
    requires LogGrows(s, t, p) && q != p && Undecided(s, q, since)
    ensures Undecided(t, q, since)
  {
    forall n | since <= n < |t.log| ensures t.log[n].pid != q {
      if n < |s.log| { assert s.log[n] == t.log[n]; }
    }
  }

  lemma DecidedKept(s: State, t: State, p: Pid, q: Pid, since: nat, at: nat, call: Call, answer: Answer)
    requires LogGrows(s, t, p) && q != p && Decided(s, q, since, at, call, answer)
    ensures Decided(t, q, since, at, call, answer)
  {
    forall n | since <= n < |t.log| && t.log[n].pid == q ensures n == at {
      if n < |s.log| { assert s.log[n] == t.log[n]; }
    }
  }

  lemma AnswerKept(hash: Bytes -> Digest, s: State, t: State, p: Pid, q: Pid, call: Call, since: nat, answer: Answer, position: Option<nat>)
    requires LogGrows(s, t, p) && q != p && AnswerOk(hash, s, q, call, since, answer, position)
    ensures AnswerOk(hash, t, q, call, since, answer, position)
  {
    match position
    case None => UndecidedKept(s, t, p, q, since);
    case Some(at) =>
      DecidedKept(s, t, p, q, since, at, call, s.log[at].answer);
      assert t.log[at] == s.log[at];
      DebtKept(hash, s, t, p, call, since);
  }

  /** A step of p keeps what holds of another caller. */
  lemma OtherKept(hash: Bytes -> Digest, s: State, t: State, p: Pid, q: Pid)
    requires StepBy(s, t, p) && q in s.procs && q != p && ProcOk(hash, s, q)
    ensures q in t.procs && ProcOk(hash, t, q)
  {
    assert Safe(s, t, q);
    match s.procs[q]
    case Looking(call, since, temp, turns) =>
      UndecidedKept(s, t, p, q, since);
      DebtKept(hash, s, t, p, call, since);
      assert AddressMoves(s, t, AddressOf(hash, call));
    case Reading(call, since, temp, inode, got, at) =>
      DecidedKept(s, t, p, q, since, at, call, ReadAnswer(call, s.data[inode]));
    case Creating(call, since) => UndecidedKept(s, t, p, q, since);
    case Writing(call, since, token, inode, written) => UndecidedKept(s, t, p, q, since);
    case Linking(call, since, token, turns) =>
      UndecidedKept(s, t, p, q, since);
      DebtKept(hash, s, t, p, call, since);
    case Cleaning(call, since, token, answer, position) => AnswerKept(hash, s, t, p, q, call, since, answer, position);
    case Opening(call, since) => UndecidedKept(s, t, p, q, since);
    case Comparing(call, since, inode) =>
      UndecidedKept(s, t, p, q, since);
      DebtKept(hash, s, t, p, call, since);
      assert AddressMoves(s, t, AddressOf(hash, call));
    case Unlinking(call, since) =>
      UndecidedKept(s, t, p, q, since);
      DebtKept(hash, s, t, p, call, since);
      assert AddressMoves(s, t, AddressOf(hash, call));
    case Finished(call, since, answer, position) => AnswerKept(hash, s, t, p, q, call, since, answer, position);
  }

  lemma OthersKept(hash: Bytes -> Digest, s: State, t: State, p: Pid)
    requires ProcsOk(hash, s) && StepBy(s, t, p) && (p in t.procs ==> ProcOk(hash, t, p))
    ensures ProcsOk(hash, t)
  {
    forall q <- t.procs ensures ProcOk(hash, t, q) { if q != p { OtherKept(hash, s, t, p, q); } }
  }

  // ----- steps that leave the directory alone

  /** Only p's place, and perhaps the log, changed. */
  ghost predicate SameFiles(s: State, t: State, p: Pid) {
    && t.names == s.names && t.data == s.data && t.orphans == s.orphans && LogGrows(s, t, p)
    && p in t.procs && t.procs == s.procs[p := t.procs[p]]
    && TempOf(t.procs[p]) == (if p in s.procs then TempOf(s.procs[p]) else None)
    && !t.procs[p].Writing?
  }

  lemma SameFilesOthers(hash: Bytes -> Digest, s: State, t: State, p: Pid)
    requires ProcsOk(hash, s) && SameFiles(s, t, p) && ProcOk(hash, t, p)
    ensures ProcsOk(hash, t)
  {
    forall q <- s.procs | q != p ensures Safe(s, t, q) {
    }
    assert StepBy(s, t, p);
    OthersKept(hash, s, t, p);
  }

  lemma SameFilesNames(s: State, t: State, p: Pid)
    requires AllApart(s) && NamesOk(s) && SameFiles(s, t, p)
    ensures AllApart(t) && NamesOk(t)
  {
    forall q, r | q in t.procs && r in t.procs && q != r ensures Apart(t, q, r) {
      if q in s.procs && r in s.procs { assert Apart(s, q, r) && Apart(s, r, q); }
    }
    forall token: nat ensures Owned(t, token) <==> Owned(s, token) {
      if o :| o in s.procs && TempOf(s.procs[o]) == Some(token) { assert o in t.procs && TempOf(t.procs[o]) == Some(token); }
      if o :| o in t.procs && TempOf(t.procs[o]) == Some(token) { assert o in s.procs && TempOf(s.procs[o]) == Some(token); }
    }
  }

  lemma SameFilesKeeps(hash: Bytes -> Digest, s: State, t: State, p: Pid)
    requires Inv(hash, s) && SameFiles(s, t, p) && ProcOk(hash, t, p) && LogOk(hash, t)
    ensures Inv(hash, t)
  {
    SameFilesOthers(hash, s, t, p);
    SameFilesNames(s, t, p);
    forall d: Digest | Address(d) in t.names ensures Frozen(t, t.names[Address(d)]) {
      assert Frozen(s, s.names[Address(d)]);
    }
  }

  /** An operation that only observes the map is logged. */
  lemma Observed(hash: Bytes -> Digest, s: State, t: State, p: Pid, call: Call, answer: Answer)
    requires LogOk(hash, s) && t.names == s.names && t.data == s.data && t.log == s.log + [Entry(p, call, answer)]
    requires Apply(hash, Replay(hash, s.log).value, Entry(p, call, answer)) == Replay(hash, s.log)
    ensures LogOk(hash, t)
  {
    ReplayNext(hash, s.log, Entry(p, call, answer));
  }

  lemma DecidedNow(s: State, t: State, p: Pid, since: nat, call: Call, answer: Answer)
    requires Undecided(s, p, since) && t.log == s.log + [Entry(p, call, answer)]
    ensures Decided(t, p, since, |s.log|, call, answer) && LogGrows(s, t, p)
  {
  }

  lemma FrozenKept(s: State, t: State, p: Pid, i: Inode)
    requires SameFiles(s, t, p) && Frozen(s, i)
    ensures Frozen(t, i)
  {
  }

  lemma HoldsKept(s: State, t: State, p: Pid, call: Call, temp: Option<nat>)
    requires SameFiles(s, t, p) && HoldsAny(s, call, temp)
    ensures HoldsAny(t, call, temp)
  {
    if temp.Some? { FrozenKept(s, t, p, s.names[Temp(temp.value)]); }
  }

  lemma BeginKeeps(hash: Bytes -> Digest, s: State, p: Pid, call: Call)
    requires Inv(hash, s) && p !in s.procs
    ensures Inv(hash, Goto(s, p, Start(call, |s.log|)))
  {
    var t := Goto(s, p, Start(call, |s.log|));
    SameFilesKeeps(hash, s, t, p);
  }

  lemma LookFound(hash: Bytes -> Digest, s: State, p: Pid, q: Proc)
    requires Inv(hash, s) && p in s.procs && s.procs[p] == q && q.Looking?
    requires Address(AddressOf(hash, q.call)) in s.names && Look(hash, s, p, q).Some?
    ensures Inv(hash, Look(hash, s, p, q).value)
  {
    var t := Look(hash, s, p, q).value;
    var i := s.names[Address(AddressOf(hash, q.call))];
    var answer := ReadAnswer(q.call, s.data[i]);
    assert ProcOk(hash, s, p);
    DecidedNow(s, t, p, q.since, q.call, answer);
    assert SameFiles(s, t, p);
    assert Frozen(s, i);
    FrozenKept(s, t, p, i);
    HoldsKept(s, t, p, q.call, q.temp);
    Observed(hash, s, t, p, q.call, answer);
    assert ProcOk(hash, t, p);
    SameFilesKeeps(hash, s, t, p);
  }

  lemma SettleKeeps(hash: Bytes -> Digest, s: State, p: Pid, call: Call, since: nat, answer: Answer)
    requires Inv(hash, s) && p in s.procs && TempOf(s.procs[p]).None? && Undecided(s, p, since)
    requires Apply(hash, Replay(hash, s.log).value, Entry(p, call, answer)) == Replay(hash, s.log)
    requires !answer.Corrupt? && !answer.Clash? && !answer.Failed?
    requires answer.Changed? || answer.Vanished? ==> Paid(hash, s, call, since, 1)
    ensures Inv(hash, Settle(s, p, call, since, answer))
  {
    var t := Settle(s, p, call, since, answer);
    DecidedNow(s, t, p, since, call, answer);
    DebtKept(hash, s, t, p, call, since);
    Observed(hash, s, t, p, call, answer);
    assert ProcOk(hash, t, p);
    SameFilesKeeps(hash, s, t, p);
  }

  lemma LookNotFound(hash: Bytes -> Digest, s: State, p: Pid, q: Proc)
    requires Inv(hash, s) && p in s.procs && s.procs[p] == q && q.Looking?
    requires Address(AddressOf(hash, q.call)) !in s.names && Look(hash, s, p, q).Some?
    ensures Inv(hash, Look(hash, s, p, q).value)
  {
    var t := Look(hash, s, p, q).value;
    assert ProcOk(hash, s, p);
    if q.call.Get? {
      assert AddressOf(hash, q.call) !in Replay(hash, s.log).value;
      assert q.temp.None?;
      SettleKeeps(hash, s, p, q.call, q.since, Missing);
    } else {
      assert SameFiles(s, t, p);
      HoldsKept(s, t, p, q.call, q.temp);
      assert ProcOk(hash, t, p);
      SameFilesKeeps(hash, s, t, p);
    }
  }

  lemma ReadOnKeeps(hash: Bytes -> Digest, s: State, p: Pid, q: Proc, size: nat)
    requires Inv(hash, s) && p in s.procs && s.procs[p] == q && q.Reading? && ReadOn(hash, s, p, q, size).Some?
    ensures Inv(hash, ReadOn(hash, s, p, q, size).value)
  {
    var t := ReadOn(hash, s, p, q, size).value;
    assert ProcOk(hash, s, p);
    assert SameFiles(s, t, p);
    FrozenKept(s, t, p, q.inode);
    HoldsKept(s, t, p, q.call, q.temp);
    assert Decided(t, p, q.since, q.at, q.call, ReadAnswer(q.call, t.data[q.inode]));
    if |q.got| == |s.data[q.inode]| { assert q.got == s.data[q.inode]; }
    assert ProcOk(hash, t, p);
    SameFilesKeeps(hash, s, t, p);
  }

  lemma OpenDoomedKeeps(hash: Bytes -> Digest, s: State, p: Pid, q: Proc)
    requires Inv(hash, s) && p in s.procs && s.procs[p] == q && q.Opening?
    ensures Inv(hash, OpenDoomed(hash, s, p, q).value)
  {
    var t := OpenDoomed(hash, s, p, q).value;
    assert ProcOk(hash, s, p);
    if Gone(hash, s, q.call) {
      SettleKeeps(hash, s, p, q.call, q.since, Absent);
    } else {
      assert SameFiles(s, t, p) && ProcOk(hash, t, p);
      SameFilesKeeps(hash, s, t, p);
    }
  }

  lemma CompareKeeps(hash: Bytes -> Digest, s: State, p: Pid, q: Proc)
    requires Inv(hash, s) && p in s.procs && s.procs[p] == q && q.Comparing?
    ensures Inv(hash, Compare(hash, s, p, q).value)
  {
    var t := Compare(hash, s, p, q).value;
    assert ProcOk(hash, s, p);
    if Gone(hash, s, q.call) {
      SettleKeeps(hash, s, p, q.call, q.since, Absent);
    } else if s.names[Address(AddressOf(hash, q.call))] != q.inode {
      SettleKeeps(hash, s, p, q.call, q.since, Changed);
    } else {
      assert SameFiles(s, t, p) && ProcOk(hash, t, p);
      SameFilesKeeps(hash, s, t, p);
    }
  }

  // ----- steps on temporary files

  lemma WriteComplete(hash: Bytes -> Digest, s: State, p: Pid, q: Proc)
    requires Inv(hash, s) && p in s.procs && s.procs[p] == q && q.Writing? && q.call.Put? && q.written == |q.call.payload|
    ensures Inv(hash, Goto(s, p, Linking(q.call, q.since, q.token, 0)))
  {
    var t := Goto(s, p, Linking(q.call, q.since, q.token, 0));
    assert ProcOk(hash, s, p);
    assert q.call.payload[..q.written] == q.call.payload;
    forall r <- t.procs | t.procs[r].Writing? ensures t.procs[r].inode != q.inode { assert Apart(s, p, r); }
    assert Frozen(t, q.inode);
    assert ProcOk(hash, t, p);
    SameFilesKeeps(hash, s, t, p);
  }

  lemma BreakKeeps(hash: Bytes -> Digest, s: State, p: Pid, q: Proc)
    requires Inv(hash, s) && p in s.procs && s.procs[p] == q && !q.Cleaning?
    ensures Inv(hash, Goto(s, p, Broken(q)))
  {
    var t := Goto(s, p, Broken(q));
    assert ProcOk(hash, s, p);
    assert SameFiles(s, t, p);
    BrokenOk(hash, s, t, p, q);
    SameFilesKeeps(hash, s, t, p);
  }

  lemma BrokenOk(hash: Bytes -> Digest, s: State, t: State, p: Pid, q: Proc)
    requires p in s.procs && s.procs[p] == q && ProcOk(hash, s, p) && !q.Cleaning? && t == Goto(s, p, Broken(q))
    ensures ProcOk(hash, t, p)
  {
    if !q.Reading? && !q.Finished? {
      assert Undecided(s, p, q.since) && Undecided(t, p, q.since);
    }
  }

  /** Nobody but p has anything to do with the inode: it is neither an address, nor being read, nor
      a temporary file that another caller still means to use. */
  ghost predicate PrivateTo(s: State, p: Pid, i: Inode) {
    && (forall d: Digest :: Address(d) in s.names ==> s.names[Address(d)] != i)
    && (forall r <- s.procs :: r != p ==> PrivateFrom(s, r, i))
  }

  ghost predicate PrivateFrom(s: State, r: Pid, i: Inode)
    requires r in s.procs
  {
    && (s.procs[r].Reading? ==> s.procs[r].inode != i)
    && (s.procs[r].Writing? ==> s.procs[r].inode != i)
    && (TempOf(s.procs[r]).Some? && !s.procs[r].Cleaning? ==>
          Temp(TempOf(s.procs[r]).value) in s.names && s.names[Temp(TempOf(s.procs[r]).value)] != i)
  }

  lemma WrittenPrivate(hash: Bytes -> Digest, s: State, p: Pid)
    requires Inv(hash, s) && p in s.procs && s.procs[p].Writing?
    ensures PrivateTo(s, p, s.procs[p].inode)
  {
    var i := s.procs[p].inode;
    forall r <- s.procs | r != p ensures PrivateFrom(s, r, i) {
      assert ProcOk(hash, s, r) && ProcOk(hash, s, p) && Apart(s, p, r);
    }
    forall d: Digest | Address(d) in s.names ensures s.names[Address(d)] != i {
      assert Frozen(s, s.names[Address(d)]);
    }
  }

  lemma FreePrivate(hash: Bytes -> Digest, s: State, p: Pid, i: Inode)
    requires Inv(hash, s) && p in s.procs && Free(s, i)
    ensures PrivateTo(s, p, i)
  {
    forall r <- s.procs | r != p ensures PrivateFrom(s, r, i) { assert ProcOk(hash, s, r); }
  }

  /** p, writing the private inode i, changed its bytes or gave it a first, temporary name. */
  ghost predicate Scribbles(s: State, t: State, p: Pid, i: Inode) {
    && p in s.procs && p in t.procs && i in t.data
    && t.procs == s.procs[p := t.procs[p]] && t.procs[p].Writing? && t.procs[p].inode == i
    && t.data == s.data[i := t.data[i]] && t.log == s.log && t.orphans == s.orphans
    && s.names.Keys <= t.names.Keys
    && (forall n <- s.names :: t.names[n] == s.names[n])
    && (forall n <- t.names :: n in s.names || n == Temp(t.procs[p].token))
  }

  lemma ScribblesOthers(hash: Bytes -> Digest, s: State, t: State, p: Pid, i: Inode)
    requires ProcsOk(hash, s) && Scribbles(s, t, p, i) && PrivateTo(s, p, i)
    requires ProcOk(hash, t, p)
    ensures ProcsOk(hash, t)
  {
    forall q <- s.procs | q != p ensures Safe(s, t, q) { assert PrivateFrom(s, q, i); }
    assert StepBy(s, t, p);
    OthersKept(hash, s, t, p);
  }

  lemma ScribblesMap(hash: Bytes -> Digest, s: State, t: State, p: Pid, i: Inode)
    requires AddressesOk(hash, s) && LogOk(hash, s)
    requires Scribbles(s, t, p, i) && PrivateTo(s, p, i)
    ensures AddressesOk(hash, t) && LogOk(hash, t)
  {
    forall d: Digest | Address(d) in t.names
      ensures Frozen(t, t.names[Address(d)]) && hash(t.data[t.names[Address(d)]]) == d
    {
      assert Frozen(s, s.names[Address(d)]);
    }
  }

  lemma WriteMore(hash: Bytes -> Digest, s: State, p: Pid, q: Proc, size: nat)
    requires Inv(hash, s) && p in s.procs && s.procs[p] == q && q.Writing? && q.call.Put? && q.inode in s.data
    requires 0 < size && q.written + size <= |q.call.payload|
    ensures Inv(hash, Write(s, p, q, size).value)
  {
    var t := Write(s, p, q, size).value;
    assert ProcOk(hash, s, p);
    WrittenPrivate(hash, s, p);
    var payload := q.call.payload;
    assert payload[..q.written] + payload[q.written..q.written + size] == payload[..q.written + size];
    assert ProcOk(hash, t, p);
    ScribblesOthers(hash, s, t, p, q.inode);
    ScribblesMap(hash, s, t, p, q.inode);
    SameTemps(s, t, p);
  }

  /** Who owns which temporary file did not change. */
  lemma SameTemps(s: State, t: State, p: Pid)
    requires AllApart(s) && NamesOk(s)
    requires p in s.procs && p in t.procs && t.procs == s.procs[p := t.procs[p]] && TempOf(t.procs[p]) == TempOf(s.procs[p])
    requires t.procs[p].Writing? ==> s.procs[p].Writing? && t.procs[p].inode == s.procs[p].inode
    requires t.names.Keys <= s.names.Keys + (set n <- t.names | n.Address?) && t.orphans == s.orphans
    requires forall n: nat :: Temp(n) in s.names ==> Temp(n) in t.names
    requires forall n <- t.names :: t.names[n] in t.data
    ensures AllApart(t) && NamesOk(t)
  {
    forall q, r | q in t.procs && r in t.procs && q != r ensures Apart(t, q, r) { assert Apart(s, q, r); }
    forall token: nat ensures Owned(t, token) <==> Owned(s, token) {
      if o :| o in s.procs && TempOf(s.procs[o]) == Some(token) { assert o in t.procs && TempOf(t.procs[o]) == Some(token); }
      if o :| o in t.procs && TempOf(t.procs[o]) == Some(token) { assert o in s.procs && TempOf(s.procs[o]) == Some(token); }
    }
    forall n: nat | Temp(n) in t.names ensures n in t.orphans || Owned(t, n) { assert Temp(n) in s.names; }
  }

  lemma NotOwned(hash: Bytes -> Digest, s: State, token: nat)
    requires ProcsOk(hash, s)
    ensures Owned(s, token) ==> Temp(token) in s.names
  {
    forall o | o in s.procs && TempOf(s.procs[o]) == Some(token) ensures Temp(token) in s.names { assert ProcOk(hash, s, o); }
  }

  lemma CreateNames(hash: Bytes -> Digest, s: State, t: State, p: Pid, token: nat, i: Inode)
    requires ProcsOk(hash, s) && AllApart(s) && NamesOk(s) && PrivateTo(s, p, i) && Temp(token) !in s.names
    requires p in s.procs && s.procs[p].Creating?
    requires t == Goto(s.(names := s.names[Temp(token) := i], data := s.data[i := []]), p,
                       Writing(s.procs[p].call, s.procs[p].since, token, i, 0))
    ensures AllApart(t) && NamesOk(t)
  {
    NotOwned(hash, s, token);
    forall q, r | q in t.procs && r in t.procs && q != r ensures Apart(t, q, r) {
      assert Apart(s, q, r);
      if q != p { assert PrivateFrom(s, q, i) && TempOf(s.procs[q]) != Some(token); }
      if r != p { assert PrivateFrom(s, r, i) && TempOf(s.procs[r]) != Some(token); }
    }
    forall n: nat ensures Owned(t, n) <==> Owned(s, n) || n == token {
      if o :| o in s.procs && TempOf(s.procs[o]) == Some(n) { assert o in t.procs && TempOf(t.procs[o]) == Some(n); }
      if n == token { assert p in t.procs && TempOf(t.procs[p]) == Some(n); }
    }
  }

  lemma CreateKeeps(hash: Bytes -> Digest, s: State, p: Pid, q: Proc, token: nat, i: Inode)
    requires Inv(hash, s) && p in s.procs && s.procs[p] == q && q.Creating? && Create(s, p, q, token, i).Some?
    ensures Inv(hash, Create(s, p, q, token, i).value)
  {
    var t := Create(s, p, q, token, i).value;
    assert ProcOk(hash, s, p);
    if Temp(token) in s.names {
      assert SameFiles(s, t, p) && ProcOk(hash, t, p);
      SameFilesKeeps(hash, s, t, p);
    } else {
      FreePrivate(hash, s, p, i);
      assert ProcOk(hash, t, p);
      ScribblesOthers(hash, s, t, p, i);
      ScribblesMap(hash, s, t, p, i);
      CreateNames(hash, s, t, p, token, i);
    }
  }

  lemma CleanKeeps(hash: Bytes -> Digest, s: State, p: Pid, q: Proc)
    requires Inv(hash, s) && p in s.procs && s.procs[p] == q && q.Cleaning?
    ensures Inv(hash, Clean(s, p, q).value)
  {
    var t := Clean(s, p, q).value;
    assert ProcOk(hash, s, p);
    forall r <- s.procs | r != p ensures Safe(s, t, r) { assert Apart(s, p, r); }
    assert StepBy(s, t, p);
    OthersKept(hash, s, t, p);
    forall d: Digest | Address(d) in t.names ensures Frozen(t, t.names[Address(d)]) { assert Frozen(s, s.names[Address(d)]); }
    CleanedNames(s, t, p, q.token);
  }

  lemma CleanedNames(s: State, t: State, p: Pid, token: nat)
    requires AllApart(s) && NamesOk(s) && p in s.procs && TempOf(s.procs[p]) == Some(token)
    requires p in t.procs && t.procs == s.procs[p := t.procs[p]] && t.procs[p].Finished?
    requires t.names == s.names - {Temp(token)} && t.data == s.data && t.orphans == s.orphans
    ensures AllApart(t) && NamesOk(t)
  {
    forall q, r | q in t.procs && r in t.procs && q != r ensures Apart(t, q, r) { assert Apart(s, q, r); }
    assert Owned(s, token);
    forall n: nat ensures Owned(t, n) ==> Owned(s, n)
      ensures Owned(s, n) && n != token ==> Owned(t, n)
    {
      if o :| o in t.procs && TempOf(t.procs[o]) == Some(n) { assert o in s.procs && TempOf(s.procs[o]) == Some(n); }
      if o :| o in s.procs && TempOf(s.procs[o]) == Some(n) && n != token { assert o in t.procs && TempOf(t.procs[o]) == Some(n); }
    }
  }

  /** The temporary file could not be removed. */
  lemma StuckKeeps(hash: Bytes -> Digest, s: State, p: Pid, q: Proc)
    requires Inv(hash, s) && p in s.procs && s.procs[p] == q && q.Cleaning?
    ensures Inv(hash, Goto(Orphaned(s, q), p, Broken(q)))
  {
    var t := Goto(Orphaned(s, q), p, Broken(q));
    assert ProcOk(hash, s, p);
    StuckOthers(hash, s, t, p);
    forall d: Digest | Address(d) in t.names ensures Frozen(t, t.names[Address(d)]) { assert Frozen(s, s.names[Address(d)]); }
    StuckNames(s, t, p, q.token);
  }

  lemma StuckOthers(hash: Bytes -> Digest, s: State, t: State, p: Pid)
    requires ProcsOk(hash, s) && p in s.procs && s.procs[p].Cleaning?
    requires t == Goto(Orphaned(s, s.procs[p]), p, Broken(s.procs[p]))
    ensures ProcsOk(hash, t)
  {
    assert ProcOk(hash, s, p);
    assert StepBy(s, t, p);
    OthersKept(hash, s, t, p);
  }

  lemma StuckNames(s: State, t: State, p: Pid, token: nat)
    requires AllApart(s) && NamesOk(s) && p in s.procs && TempOf(s.procs[p]) == Some(token) && Temp(token) in s.names
    requires p in t.procs && t.procs == s.procs[p := t.procs[p]] && t.procs[p].Finished?
    requires t.names == s.names && t.data == s.data && t.orphans == s.orphans + {token}
    ensures AllApart(t) && NamesOk(t)
  {
    forall q, r | q in t.procs && r in t.procs && q != r ensures Apart(t, q, r) { assert Apart(s, q, r); }
    forall n: nat ensures Owned(t, n) ==> Owned(s, n) && n != token
      ensures Owned(s, n) && n != token ==> Owned(t, n)
    {
      if o :| o in t.procs && TempOf(t.procs[o]) == Some(n) { assert o in s.procs && Apart(s, o, p); }
      if o :| o in s.procs && TempOf(s.procs[o]) == Some(n) && n != token { assert o in t.procs && TempOf(t.procs[o]) == Some(n); }
    }
  }

  // ----- steps on addresses

  /** The temporary file got its address as a second name. */
  lemma InstalledAddresses(hash: Bytes -> Digest, s: State, t: State, p: Pid, name: Name, i: Inode)
    requires AddressesOk(hash, s) && Frozen(s, i) && name.Address? && hash(s.data[i]) == name.digest
    requires t.names == s.names[name := i] && t.data == s.data
    requires forall r <- t.procs :: t.procs[r].Writing? ==> r in s.procs && s.procs[r] == t.procs[r]
    ensures AddressesOk(hash, t)
  {
    forall d: Digest | Address(d) in t.names
      ensures Frozen(t, t.names[Address(d)]) && hash(t.data[t.names[Address(d)]]) == d
    {
      if Address(d) != name { assert Frozen(s, s.names[Address(d)]); }
    }
  }

  lemma InstalledLog(hash: Bytes -> Digest, s: State, t: State, p: Pid, call: Call, i: Inode)
    requires LogOk(hash, s) && call.Put? && Gone(hash, s, call) && i in s.data && s.data[i] == call.payload
    requires t.names == s.names[Address(AddressOf(hash, call)) := i] && t.data == s.data
    requires t.log == s.log + [Entry(p, call, Stored(|call.payload|))]
    ensures LogOk(hash, t)
  {
    ReplayNext(hash, s.log, Entry(p, call, Stored(|call.payload|)));
  }

  ghost predicate Installs(hash: Bytes -> Digest, s: State, t: State, p: Pid) {
    && p in s.procs && s.procs[p].Linking? && s.procs[p].call.Put? && Gone(hash, s, s.procs[p].call)
    && Link(hash, s, p, s.procs[p]) == Some(t)
  }

  lemma InstalledOthers(hash: Bytes -> Digest, s: State, t: State, p: Pid)
    requires Installs(hash, s, t, p) && ProcsOk(hash, s)
    ensures ProcsOk(hash, t)
  {
    var q := s.procs[p];
    assert ProcOk(hash, s, p);
    DecidedNow(s, t, p, q.since, q.call, Stored(|q.call.payload|));
    assert StepBy(s, t, p);
    assert ProcOk(hash, t, p);
    OthersKept(hash, s, t, p);
  }

  lemma LinkInstalls(hash: Bytes -> Digest, s: State, t: State, p: Pid)
    requires Inv(hash, s) && Installs(hash, s, t, p)
    ensures Inv(hash, t)
  {
    var q := s.procs[p];
    var i := s.names[Temp(q.token)];
    assert ProcOk(hash, s, p);
    InstalledOthers(hash, s, t, p);
    InstalledLog(hash, s, t, p, q.call, i);
    InstalledAddresses(hash, s, t, p, Address(AddressOf(hash, q.call)), i);
    SameTemps(s, t, p);
  }

  lemma LinkKeeps(hash: Bytes -> Digest, s: State, p: Pid, q: Proc)
    requires Inv(hash, s) && p in s.procs && s.procs[p] == q && q.Linking? && Link(hash, s, p, q).Some?
    ensures Inv(hash, Link(hash, s, p, q).value)
  {
    if Gone(hash, s, q.call) {
      LinkInstalls(hash, s, Link(hash, s, p, q).value, p);
    } else {
      var t := Link(hash, s, p, q).value;
      assert ProcOk(hash, s, p);
      assert SameFiles(s, t, p);
      HoldsKept(s, t, p, q.call, Some(q.token));
      assert ProcOk(hash, t, p);
      SameFilesKeeps(hash, s, t, p);
    }
  }

  lemma UnlinkRemoves(hash: Bytes -> Digest, s: State, p: Pid, q: Proc)
    requires Inv(hash, s) && p in s.procs && s.procs[p] == q && q.Unlinking? && !Gone(hash, s, q.call)
    ensures Inv(hash, Unlink(hash, s, p, q).value)
  {
    var t := Unlink(hash, s, p, q).value;
    var name := Address(AddressOf(hash, q.call));
    assert ProcOk(hash, s, p);
    DecidedNow(s, t, p, q.since, q.call, Deleted);
    ReplayNext(hash, s.log, Entry(p, q.call, Deleted));
    forall r <- s.procs | r != p ensures Safe(s, t, r) { }
    forall d: Digest ensures AddressMoves(s, t, d) { }
    assert StepBy(s, t, p);
    assert ProcOk(hash, t, p);
    OthersKept(hash, s, t, p);
    forall d: Digest | Address(d) in t.names ensures Frozen(t, t.names[Address(d)]) { assert Frozen(s, s.names[Address(d)]); }
    SameTemps(s, t, p);
  }

  lemma UnlinkKeeps(hash: Bytes -> Digest, s: State, p: Pid, q: Proc)
    requires Inv(hash, s) && p in s.procs && s.procs[p] == q && q.Unlinking?
    ensures Inv(hash, Unlink(hash, s, p, q).value)
  {
    assert ProcOk(hash, s, p);
    if Gone(hash, s, q.call) {
      SettleKeeps(hash, s, p, q.call, q.since, Vanished);
    } else {
      UnlinkRemoves(hash, s, p, q);
    }
  }

  // ----- callers that leave

  lemma LeavesKeeps(hash: Bytes -> Digest, s: State, t: State, p: Pid)
    requires Inv(hash, s) && p in s.procs
    requires t == s.(procs := s.procs - {p}, orphans := t.orphans)
    requires t.orphans == s.orphans + (if TempOf(s.procs[p]).Some? then {TempOf(s.procs[p]).value} else {})
    ensures Inv(hash, t)
  {
    assert ProcOk(hash, s, p);
    forall r <- s.procs | r != p ensures Safe(s, t, r) { }
    assert StepBy(s, t, p);
    OthersKept(hash, s, t, p);
    forall d: Digest | Address(d) in t.names ensures Frozen(t, t.names[Address(d)]) { assert Frozen(s, s.names[Address(d)]); }
    LeftNames(hash, s, t, p);
  }

  lemma LeftNames(hash: Bytes -> Digest, s: State, t: State, p: Pid)
    requires AllApart(s) && NamesOk(s) && p in s.procs && ProcOk(hash, s, p)
    requires t == s.(procs := s.procs - {p}, orphans := t.orphans)
    requires t.orphans == s.orphans + (if TempOf(s.procs[p]).Some? then {TempOf(s.procs[p]).value} else {})
    ensures AllApart(t) && NamesOk(t)
  {
    forall q, r | q in t.procs && r in t.procs && q != r ensures Apart(t, q, r) { assert Apart(s, q, r); }
    forall n: nat ensures Owned(t, n) ==> Owned(s, n) && TempOf(s.procs[p]) != Some(n)
      ensures Owned(s, n) && TempOf(s.procs[p]) != Some(n) ==> Owned(t, n)
    {
      if o :| o in t.procs && TempOf(t.procs[o]) == Some(n) { assert o in s.procs && Apart(s, o, p); }
      if o :| o in s.procs && TempOf(s.procs[o]) == Some(n) && TempOf(s.procs[p]) != Some(n) { assert o in t.procs; }
    }
  }

  // ----- every step, every run

  lemma GoKeeps(hash: Bytes -> Digest, s: State, p: Pid, size: nat, token: nat, inode: Inode)
    requires Inv(hash, s) && p in s.procs && Go(hash, s, p, s.procs[p], size, token, inode).Some?
    ensures Inv(hash, Go(hash, s, p, s.procs[p], size, token, inode).value)
  {
    var q := s.procs[p];
    match q
    case Looking(call, _, _, _) => if Gone(hash, s, call) { LookNotFound(hash, s, p, q); } else { LookFound(hash, s, p, q); }
    case Reading(_, _, _, _, _, _) => ReadOnKeeps(hash, s, p, q, size);
    case Creating(_, _) => CreateKeeps(hash, s, p, q, token, inode);
    case Writing(call, _, _, _, written) =>
      if call.Put? && written == |call.payload| { WriteComplete(hash, s, p, q); } else { WriteMore(hash, s, p, q, size); }
    case Linking(_, _, _, _) => LinkKeeps(hash, s, p, q);
    case Cleaning(_, _, _, _, _) => CleanKeeps(hash, s, p, q);
    case Opening(_, _) => OpenDoomedKeeps(hash, s, p, q);
    case Comparing(_, _, _) => CompareKeeps(hash, s, p, q);
    case Unlinking(_, _) => UnlinkKeeps(hash, s, p, q);
    case Finished(_, _, _, _) =>
  }

  lemma NextKeeps(hash: Bytes -> Digest, s: State, p: Pid, m: Move)
    requires Inv(hash, s) && Next(hash, s, p, m).Some?
    ensures Inv(hash, Next(hash, s, p, m).value)
  {
    match m
    case Begin(call) => BeginKeeps(hash, s, p, call);
    case Advance(size, token, inode) => GoKeeps(hash, s, p, size, token, inode);
    case Break => if s.procs[p].Cleaning? { StuckKeeps(hash, s, p, s.procs[p]); } else { BreakKeeps(hash, s, p, s.procs[p]); }
    case Crash => LeavesKeeps(hash, s, Next(hash, s, p, m).value, p);
    case Return => LeavesKeeps(hash, s, Next(hash, s, p, m).value, p);
  }

  /** The invariant holds however the callers interleave, fail or die. */
  lemma {:induction false} RunKeeps(hash: Bytes -> Digest, s: State, moves: seq<(Pid, Move)>)
    requires Inv(hash, s)
    ensures Inv(hash, Run(hash, s, moves))
    decreases |moves|
  {
    if moves != [] {
      var t := Next(hash, s, moves[0].0, moves[0].1);
      if t.Some? { NextKeeps(hash, s, moves[0].0, moves[0].1); }
      RunKeeps(hash, if t.Some? then t.value else s, moves[1..]);
    }
  }

  lemma EmptyInv(hash: Bytes -> Digest)
    ensures Inv(hash, Empty())
  {
  }
}
