/** The content-addressed artifact store: any number of callers inside one shard directory, each moving
    one file operation at a time, and the atomic map that they appear to share. */
module ArtifactStore {
  import opened Wrappers

  type Byte = b: int | 0 <= b < 256
  type Bytes = seq<Byte>
  type Digest = nat
  type Inode = nat
  type Pid = nat

  /** Names in the shard directory: an address, or a temporary file with a random token. */
  datatype Name = Address(digest: Digest) | Temp(token: nat)

  datatype Call = Put(payload: Bytes) | Get(digest: Digest) | Delete(digest: Digest)

  /** What a call returns or raises. */
  datatype Answer =
    | Stored(size: nat) | Found(payload: Bytes) | Missing | Corrupt
    | Deleted | Absent | Changed | Vanished
    | Clash | Failed

  /** Where a caller stands. since is the length of the log when its call began, at the position of its
      log entry, temp the token of its temporary file, turns the extra turns of its install loop. */
  datatype Proc =
    | Looking(call: Call, since: nat, temp: Option<nat>, turns: nat)
    | Reading(call: Call, since: nat, temp: Option<nat>, inode: Inode, got: Bytes, at: nat)
    | Creating(call: Call, since: nat)
    | Writing(call: Call, since: nat, token: nat, inode: Inode, written: nat)
    | Linking(call: Call, since: nat, token: nat, turns: nat)
    | Cleaning(call: Call, since: nat, token: nat, answer: Answer, position: Option<nat>)
    | Opening(call: Call, since: nat)
    | Comparing(call: Call, since: nat, inode: Inode)
    | Unlinking(call: Call, since: nat)
    | Finished(call: Call, since: nat, answer: Answer, position: Option<nat>)

  /** One atomic operation on the abstract map, as decided by a caller. */
  datatype Entry = Entry(pid: Pid, call: Call, answer: Answer)

  /** orphans are the tokens of temporary files whose callers died or could not remove them. */
  datatype State = State(
    names: map<Name, Inode>, data: map<Inode, Bytes>, procs: map<Pid, Proc>, log: seq<Entry>, orphans: set<nat>)

  datatype Move = Begin(call: Call) | Advance(size: nat, token: nat, inode: Inode) | Break | Crash | Return

  function AddressOf(hash: Bytes -> Digest, call: Call): Digest {
    match call
    case Put(payload) => hash(payload)
    case Get(d) => d
    case Delete(d) => d
  }

  // ----- the steps

  function TempOf(q: Proc): Option<nat> {
    match q
    case Looking(_, _, temp, _) => temp
    case Reading(_, _, temp, _, _, _) => temp
    case Writing(_, _, token, _, _) => Some(token)
    case Linking(_, _, token, _) => Some(token)
    case Cleaning(_, _, token, _, _) => Some(token)
    case _ => None
  }

  /** An inode may be handed out again once it has no name and nobody has it open. */
  predicate Free(s: State, i: Inode) {
    && (forall n <- s.names :: s.names[n] != i)
    && (forall q <- s.procs :: s.procs[q].Reading? ==> s.procs[q].inode != i)
  }

  function Goto(s: State, p: Pid, q: Proc): State {
    s.(procs := s.procs[p := q])
  }

  function Decide(s: State, p: Pid, call: Call, answer: Answer): State {
    s.(log := s.log + [Entry(p, call, answer)])
  }

  /** What a read of these bytes answers. */
  function ReadAnswer(call: Call, payload: Bytes): Answer {
    if call.Get? then Found(payload) else Stored(|payload|)
  }

  /** The open at the start of a verified read. */
  function Look(hash: Bytes -> Digest, s: State, p: Pid, q: Proc): Option<State>
    requires q.Looking?
  {
    var name := Address(AddressOf(hash, q.call));
    if name in s.names then
      if s.names[name] !in s.data then None
      else
        var i := s.names[name];
        Some(Goto(Decide(s, p, q.call, ReadAnswer(q.call, s.data[i])), p,
                  Reading(q.call, q.since, q.temp, i, [], |s.log|)))
    else if q.call.Get? then
      Some(Goto(Decide(s, p, q.call, Missing), p, Finished(q.call, q.since, Missing, Some(|s.log|))))
    else if q.temp.Some? then Some(Goto(s, p, Linking(q.call, q.since, q.temp.value, q.turns + 1)))
    else Some(Goto(s, p, Creating(q.call, q.since)))
  }

  /** Reads on, and at the end of the file checks the digest. */
  function ReadOn(hash: Bytes -> Digest, s: State, p: Pid, q: Proc, size: nat): Option<State>
    requires q.Reading?
  {
    if q.inode !in s.data then None
    else if |q.got| < |s.data[q.inode]| then
      if 0 < size <= |s.data[q.inode]| - |q.got|
      then Some(Goto(s, p, q.(got := q.got + s.data[q.inode][|q.got|..|q.got| + size])))
      else None
    else
      var answer := if hash(q.got) == AddressOf(hash, q.call) then ReadAnswer(q.call, q.got) else Corrupt;
      Some(Goto(s, p, if q.temp.Some? then Cleaning(q.call, q.since, q.temp.value, answer, Some(q.at))
                      else Finished(q.call, q.since, answer, Some(q.at))))
  }

  function Create(s: State, p: Pid, q: Proc, token: nat, inode: Inode): Option<State>
    requires q.Creating?
  {
    if Temp(token) in s.names then Some(Goto(s, p, Finished(q.call, q.since, Clash, None)))
    else if !Free(s, inode) then None
    else Some(Goto(s.(names := s.names[Temp(token) := inode], data := s.data[inode := []]), p,
                   Writing(q.call, q.since, token, inode, 0)))
  }

  function Write(s: State, p: Pid, q: Proc, size: nat): Option<State>
    requires q.Writing?
  {
    if !q.call.Put? || q.inode !in s.data then None
    else if q.written == |q.call.payload| then Some(Goto(s, p, Linking(q.call, q.since, q.token, 0)))
    else if 0 < size && q.written + size <= |q.call.payload| then
      Some(Goto(s.(data := s.data[q.inode := s.data[q.inode] + q.call.payload[q.written..q.written + size]]), p,
                q.(written := q.written + size)))
    else None
  }

  /** link(2): atomic, and never replaces a name. */
  function Link(hash: Bytes -> Digest, s: State, p: Pid, q: Proc): Option<State>
    requires q.Linking?
  {
    var name := Address(AddressOf(hash, q.call));
    if !q.call.Put? || Temp(q.token) !in s.names then None
    else if name in s.names then Some(Goto(s, p, Looking(q.call, q.since, Some(q.token), q.turns)))
    else
      var answer := Stored(|q.call.payload|);
      Some(Goto(Decide(s.(names := s.names[name := s.names[Temp(q.token)]]), p, q.call, answer), p,
                Cleaning(q.call, q.since, q.token, answer, Some(|s.log|))))
  }

  function Clean(s: State, p: Pid, q: Proc): Option<State>
    requires q.Cleaning?
  {
    Some(Goto(s.(names := s.names - {Temp(q.token)}), p, Finished(q.call, q.since, q.answer, q.position)))
  }

  function Settle(s: State, p: Pid, call: Call, since: nat, answer: Answer): State {
    Goto(Decide(s, p, call, answer), p, Finished(call, since, answer, Some(|s.log|)))
  }

  function OpenDoomed(hash: Bytes -> Digest, s: State, p: Pid, q: Proc): Option<State>
    requires q.Opening?
  {
    var name := Address(AddressOf(hash, q.call));
    if name !in s.names then Some(Settle(s, p, q.call, q.since, Absent))
    else Some(Goto(s, p, Comparing(q.call, q.since, s.names[name])))
  }

  /** stat(2) by name, compared with the inode opened before, which was closed meanwhile. */
  function Compare(hash: Bytes -> Digest, s: State, p: Pid, q: Proc): Option<State>
    requires q.Comparing?
  {
    var name := Address(AddressOf(hash, q.call));
    if name !in s.names then Some(Settle(s, p, q.call, q.since, Absent))
    else if s.names[name] != q.inode then Some(Settle(s, p, q.call, q.since, Changed))
    else Some(Goto(s, p, Unlinking(q.call, q.since)))
  }

  /** unlink(2) by name; a name that went away meanwhile is reported by an exception of its own. */
  function Unlink(hash: Bytes -> Digest, s: State, p: Pid, q: Proc): Option<State>
    requires q.Unlinking?
  {
    var name := Address(AddressOf(hash, q.call));
    if name !in s.names then Some(Settle(s, p, q.call, q.since, Vanished))
    else Some(Settle(s.(names := s.names - {name}), p, q.call, q.since, Deleted))
  }

  function Go(hash: Bytes -> Digest, s: State, p: Pid, q: Proc, size: nat, token: nat, inode: Inode): Option<State> {
    match q
    case Looking(_, _, _, _) => Look(hash, s, p, q)
    case Reading(_, _, _, _, _, _) => ReadOn(hash, s, p, q, size)
    case Creating(_, _) => Create(s, p, q, token, inode)
    case Writing(_, _, _, _, _) => Write(s, p, q, size)
    case Linking(_, _, _, _) => Link(hash, s, p, q)
    case Cleaning(_, _, _, _, _) => Clean(s, p, q)
    case Opening(_, _) => OpenDoomed(hash, s, p, q)
    case Comparing(_, _, _) => Compare(hash, s, p, q)
    case Unlinking(_, _) => Unlink(hash, s, p, q)
    case Finished(_, _, _, _) => None
  }

  function Start(call: Call, since: nat): Proc {
    if call.Delete? then Opening(call, since) else Looking(call, since, None, 0)
  }

  /** Where an I/O error takes a caller: it fails, after removing its temporary file if it has one.
      When that removal is what failed, the file stays. */
  function Broken(q: Proc): Proc {
    match q
    case Cleaning(call, since, _, _, position) => Finished(call, since, Failed, position)
    case Finished(call, since, _, position) => Finished(call, since, Failed, position)
    case Reading(call, since, temp, _, _, at) =>
      if temp.Some? then Cleaning(call, since, temp.value, Failed, Some(at)) else Finished(call, since, Failed, Some(at))
    case _ =>
      if TempOf(q).Some? then Cleaning(q.call, q.since, TempOf(q).value, Failed, None)
      else Finished(q.call, q.since, Failed, None)
  }

  function Orphaned(s: State, q: Proc): State {
    if TempOf(q).Some? then s.(orphans := s.orphans + {TempOf(q).value}) else s
  }

  /** One step of caller p, if p can make that move. Break is an I/O error and Crash the death of the
      caller, at any point, the closing of files before the call returns included. */
  function Next(hash: Bytes -> Digest, s: State, p: Pid, m: Move): Option<State> {
    match m
    case Begin(call) => if p in s.procs then None else Some(Goto(s, p, Start(call, |s.log|)))
    case Advance(size, token, inode) => if p !in s.procs then None else Go(hash, s, p, s.procs[p], size, token, inode)
    case Break =>
      if p !in s.procs then None
      else Some(Goto(if s.procs[p].Cleaning? then Orphaned(s, s.procs[p]) else s, p, Broken(s.procs[p])))
    case Crash => if p !in s.procs then None else Some(Orphaned(s, s.procs[p]).(procs := s.procs - {p}))
    case Return => if p in s.procs && s.procs[p].Finished? then Some(s.(procs := s.procs - {p})) else None
  }

  function Run(hash: Bytes -> Digest, s: State, moves: seq<(Pid, Move)>): State
    decreases |moves|
  {
    if moves == [] then s
    else
      var t := Next(hash, s, moves[0].0, moves[0].1);
      Run(hash, if t.Some? then t.value else s, moves[1..])
  }

  function Empty(): State {
    State(map[], map[], map[], [], {})
  }

  // ----- the atomic map

  /** The map after one atomic operation, if that operation may give that answer. A delete may give up,
      without effect, on an artifact that is there. */
  function Apply(hash: Bytes -> Digest, m: map<Digest, Bytes>, e: Entry): Option<map<Digest, Bytes>> {
    var d := AddressOf(hash, e.call);
    match e.call
    case Put(payload) =>
      if d in m then (if e.answer == Stored(|m[d]|) then Some(m) else None)
      else if e.answer == Stored(|payload|) then Some(m[d := payload]) else None
    case Get(_) =>
      if e.answer == (if d in m then Found(m[d]) else Missing) then Some(m) else None
    case Delete(_) =>
      if d in m then
        if e.answer == Deleted then Some(m - {d}) else if e.answer == Changed then Some(m) else None
      else if e.answer == Absent || e.answer == Vanished then Some(m) else None
  }

  /** The map after a log of atomic operations on an empty map, if every one of them is allowed. */
  function Replay(hash: Bytes -> Digest, log: seq<Entry>): Option<map<Digest, Bytes>>
    decreases |log|
  {
    if log == [] then Some(map[])
    else
      var m :- Replay(hash, log[..|log| - 1]);
      Apply(hash, m, log[|log| - 1])
  }

  /** The removals of d recorded in the log from a position on. */
  function Removals(log: seq<Entry>, d: Digest, from: nat): nat
    decreases |log|
  {
    if |log| <= from then 0
    else Removals(log[..|log| - 1], d, from) + (if log[|log| - 1].call == Delete(d) && log[|log| - 1].answer == Deleted then 1 else 0)
  }
}
