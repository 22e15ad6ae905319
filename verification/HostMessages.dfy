/** The typed messages of the host boundary: which ones are valid, and their JSON form. */
module HostMessages {
  import opened Basics
  import opened Wrappers
  import opened JsonText
  import opened JsonRoundTrip
  import opened JsonBounds
  import Text

  datatype Code =
    | InvalidFrame | InvalidRequest | UnsupportedProtocol | InvalidAuthority | InvalidOperation
    | InvalidResponse | Unauthenticated | RequestExpired | LeaseExpired

  const PROTOCOL_VERSION := 1
  const ISSUER := "control-plane"
  const AUDIENCE := "local-macos-host"
  const MAX_LIFETIME_MS := 30_000

  /** The lease under which a task asks: everything that changes when the task is claimed anew. */
  datatype Lease = Lease(leaseId: string, workerId: string, attempt: int, fencingToken: int, expiresAtMs: int)

  datatype Pin = Pin(repositoryKey: string, configurationId: string, configurationDigest: string)

  datatype Authority =
    | System
    | Repository(pin: Pin)
    | TaskLease(taskId: string, jobId: string, lease: Lease, pin: Pin)

  datatype Operation = Operation(name: string, idempotencyKey: string, arguments: map<string, Json>)

  datatype Request = Request(
    requestId: string, issuedAtMs: int, expiresAtMs: int, authority: Authority, operation: Operation)

  datatype Status = OkStatus | Rejected | Ambiguous

  datatype Response = Response(
    requestId: string, operationName: string, idempotencyKey: string, hostId: string, hostVersion: string,
    status: Status, code: string, replayed: bool, completedAtMs: int, executionFencingToken: Option<int>,
    result: map<string, Json>)

  datatype Signed<M> = Signed(message: M, keyId: string, signature: string)

  // ----- what each text must look like

  predicate Lower(c: char) { 'a' <= c <= 'z' }
  predicate Upper(c: char) { 'A' <= c <= 'Z' }
  predicate Alnum(c: char) { Lower(c) || Upper(c) || IsDigit(c) }
  predicate LowerHex(c: char) { IsDigit(c) || 'a' <= c <= 'f' }

  predicate Identifier(s: string) {
    1 <= |s| <= 255 && Alnum(s[0]) && forall c <- s :: Alnum(c) || c in "._:/-"
  }

  predicate OperationName(s: string) {
    var parts := Text.Split(s, '.');
    2 <= |parts| <= 5
    && forall p <- parts :: p != [] && Lower(p[0]) && forall c <- p :: Lower(c) || IsDigit(c) || c == '_'
  }

  predicate RepositoryKey(s: string) {
    var parts := Text.Split(s, '/');
    |parts| == 2 && forall p <- parts :: p != [] && forall c <- p :: Alnum(c) || c in "_.-"
  }

  predicate Signature(s: string) {
    |s| == 43 && forall c <- s :: Alnum(c) || c == '_' || c == '-'
  }

  predicate ErrorCode(s: string) {
    1 <= |s| <= 100 && Upper(s[0]) && forall c <- s :: Upper(c) || IsDigit(c) || c == '_'
  }

  /** The canonical text of a UUID. */
  predicate Uuid(s: string) {
    |s| == 36 && forall i :: 0 <= i < 36 ==> if i in {8, 13, 18, 23} then s[i] == '-' else LowerHex(s[i])
  }

  predicate Version4(s: string)
    requires |s| == 36
  {
    s[14] == '4' && s[19] in "89ab"
  }

  predicate PositiveInt(n: int) { 0 < n < INT_LIMIT }

  // ----- valid messages

  /** The object survives the bounded copy. */
  ghost predicate NormalObject(fields: map<string, Json>) {
    Bounded(Obj(fields), 0) && Nodes(Obj(fields)) <= MAX_NODES
  }

  predicate ValidPin(p: Pin) {
    RepositoryKey(p.repositoryKey) && Uuid(p.configurationId) && Digest(p.configurationDigest)
  }

  predicate ValidLease(l: Lease) {
    Uuid(l.leaseId) && Identifier(l.workerId)
    && PositiveInt(l.attempt) && PositiveInt(l.fencingToken) && PositiveInt(l.expiresAtMs)
  }

  predicate ValidAuthority(a: Authority) {
    match a
    case System => true
    case Repository(pin) => ValidPin(pin)
    case TaskLease(taskId, jobId, lease, pin) => Uuid(taskId) && Uuid(jobId) && ValidLease(lease) && ValidPin(pin)
  }

  ghost predicate ValidOperation(o: Operation) {
    OperationName(o.name) && Identifier(o.idempotencyKey) && NormalObject(o.arguments)
  }

  predicate ValidLifetime(issued: int, expires: int) {
    PositiveInt(issued) && PositiveInt(expires) && issued < expires <= issued + MAX_LIFETIME_MS
  }

  ghost predicate ValidRequest(r: Request) {
    && Uuid(r.requestId) && Version4(r.requestId) && ValidLifetime(r.issuedAtMs, r.expiresAtMs)
    && ValidAuthority(r.authority) && ValidOperation(r.operation)
  }

  ghost predicate ValidResponse(r: Response) {
    && Uuid(r.requestId) && OperationName(r.operationName) && Identifier(r.idempotencyKey)
    && Identifier(r.hostId) && Identifier(r.hostVersion) && ErrorCode(r.code) && PositiveInt(r.completedAtMs)
    && (r.executionFencingToken.Some? ==> PositiveInt(r.executionFencingToken.value))
    && NormalObject(r.result)
  }

  predicate ValidSignature<M>(e: Signed<M>) {
    Identifier(e.keyId) && Signature(e.signature)
  }

  // ----- to JSON

  function AuthorityJson(a: Authority): map<string, Json> {
    match a
    case System => map["kind" := Str("SYSTEM")]
    case Repository(pin) => map[
      "kind" := Str("REPOSITORY"), "repository_key" := Str(pin.repositoryKey),
      "configuration_id" := Str(pin.configurationId), "configuration_digest" := Str(pin.configurationDigest)]
    case TaskLease(taskId, jobId, lease, pin) => map[
      "kind" := Str("TASK_LEASE"), "task_id" := Str(taskId), "job_id" := Str(jobId),
      "lease_id" := Str(lease.leaseId), "worker_id" := Str(lease.workerId), "attempt" := Num(lease.attempt),
      "fencing_token" := Num(lease.fencingToken), "lease_expires_at_ms" := Num(lease.expiresAtMs),
      "repository_key" := Str(pin.repositoryKey), "configuration_id" := Str(pin.configurationId),
      "configuration_digest" := Str(pin.configurationDigest)]
  }

  function OperationJson(o: Operation): map<string, Json> {
    map["name" := Str(o.name), "schema_version" := Num(1), "idempotency_key" := Str(o.idempotencyKey),
        "arguments" := Obj(o.arguments)]
  }

  function RequestJson(r: Request): map<string, Json> {
    map["protocol_version" := Num(PROTOCOL_VERSION), "request_id" := Str(r.requestId), "issuer" := Str(ISSUER),
        "audience" := Str(AUDIENCE), "issued_at_ms" := Num(r.issuedAtMs), "expires_at_ms" := Num(r.expiresAtMs),
        "authority" := Obj(AuthorityJson(r.authority)), "operation" := Obj(OperationJson(r.operation))]
  }

  function StatusText(s: Status): string {
    match s case OkStatus => "OK" case Rejected => "REJECTED" case Ambiguous => "AMBIGUOUS"
  }

  function TokenJson(t: Option<int>): Json {
    if t.Some? then Num(t.value) else Null
  }

  function ResponseJson(r: Response): map<string, Json> {
    map["protocol_version" := Num(PROTOCOL_VERSION), "request_id" := Str(r.requestId),
        "operation_name" := Str(r.operationName), "idempotency_key" := Str(r.idempotencyKey),
        "host_id" := Str(r.hostId), "host_version" := Str(r.hostVersion), "status" := Str(StatusText(r.status)),
        "code" := Str(r.code), "replayed" := Bool(r.replayed), "completed_at_ms" := Num(r.completedAtMs),
        "execution_fencing_token" := TokenJson(r.executionFencingToken), "result" := Obj(r.result)]
  }

  function EnvelopeJson(message: map<string, Json>, keyId: string, signature: string): map<string, Json> {
    map["message" := Obj(message),
        "authentication" := Obj(map["key_id" := Str(keyId), "signature" := Str(signature)])]
  }

  // ----- from JSON

  function ObjectOf(j: Json): Result<map<string, Json>, Code> {
    if j.Obj? then Ok(j.fields) else Err(InvalidRequest)
  }

  function StringOf(j: Json): Result<string, Code> {
    if j.Str? then Ok(j.s) else Err(InvalidRequest)
  }

  function IntegerOf(j: Json): Result<int, Code> {
    if j.Num? then Ok(j.n) else Err(InvalidRequest)
  }

  function UuidOf(j: Json): Result<string, Code> {
    if j.Str? && Uuid(j.s) then Ok(j.s) else Err(InvalidRequest)
  }

  ghost function NormalOf(j: Json): Result<map<string, Json>, Code> {
    if j.Obj? && NormalObject(j.fields) then Ok(j.fields) else Err(InvalidRequest)
  }

  function Need(condition: bool, code: Code): Result<(), Code> {
    if condition then Ok(()) else Err(code)
  }

  const PIN_FIELDS := {"kind", "repository_key", "configuration_id", "configuration_digest"}
  const LEASE_FIELDS := {"lease_id", "worker_id", "attempt", "fencing_token", "lease_expires_at_ms"}

  function PinFrom(m: map<string, Json>): Result<Pin, Code>
    requires PIN_FIELDS <= m.Keys
  {
    var repository :- StringOf(m["repository_key"]);
    var configuration :- UuidOf(m["configuration_id"]);
    var digest :- StringOf(m["configuration_digest"]);
    Ok(Pin(repository, configuration, digest))
  }

  function CheckedPin(p: Pin): Result<Pin, Code> {
    if ValidPin(p) then Ok(p) else Err(InvalidAuthority)
  }

  function LeaseFrom(m: map<string, Json>): Result<Lease, Code>
    requires LEASE_FIELDS <= m.Keys
  {
    var leaseId :- UuidOf(m["lease_id"]);
    var worker :- StringOf(m["worker_id"]);
    var attempt :- IntegerOf(m["attempt"]);
    var token :- IntegerOf(m["fencing_token"]);
    var expires :- IntegerOf(m["lease_expires_at_ms"]);
    Ok(Lease(leaseId, worker, attempt, token, expires))
  }

  function TaskLeaseFrom(m: map<string, Json>): Result<Authority, Code> {
    if m.Keys != TASK_FIELDS then Err(InvalidRequest)
    else TaskLeaseFromValues(m["task_id"], m["job_id"], LeaseFrom(m), PinFrom(m))
  }

  function TaskLeaseFromValues(
    taskId: Json, jobId: Json, lease: Result<Lease, Code>, pin: Result<Pin, Code>): Result<Authority, Code>
  {
    var taskId :- UuidOf(taskId);
    var jobId :- UuidOf(jobId);
    var lease :- lease;
    var pin :- pin;
    var _ :- Need(ValidLease(lease), InvalidRequest);
    var checked :- CheckedPin(pin);
    Ok(TaskLease(taskId, jobId, lease, checked))
  }

  function RepositoryFrom(m: map<string, Json>): Result<Authority, Code> {
    if m.Keys != PIN_FIELDS then Err(InvalidRequest)
    else
      var pin :- PinFrom(m);
      var checked :- CheckedPin(pin);
      Ok(Repository(checked))
  }

  function AuthorityFrom(m: map<string, Json>): Result<Authority, Code> {
    if "kind" !in m then Err(InvalidRequest)
    else
      var kind :- StringOf(m["kind"]);
      if kind == "SYSTEM" then (if m.Keys == {"kind"} then Ok(System) else Err(InvalidRequest))
      else if kind == "REPOSITORY" then RepositoryFrom(m)
      else if kind == "TASK_LEASE" then TaskLeaseFrom(m)
      else Err(InvalidAuthority)
  }

  const OPERATION_FIELDS := {"name", "schema_version", "idempotency_key", "arguments"}

  ghost function OperationFrom(m: map<string, Json>): Result<Operation, Code> {
    if m.Keys != OPERATION_FIELDS then Err(InvalidRequest)
    else OperationFromValues(m["name"], m["schema_version"], m["idempotency_key"], m["arguments"])
  }

  ghost function OperationFromValues(name: Json, version: Json, key: Json, arguments: Json): Result<Operation, Code> {
    var name :- StringOf(name);
    var version :- IntegerOf(version);
    var key :- StringOf(key);
    var arguments :- NormalOf(arguments);
    var _ :- Need(OperationName(name), InvalidOperation);
    var _ :- Need(Identifier(key), InvalidRequest);
    var _ :- Need(version == 1, InvalidOperation);
    Ok(Operation(name, key, arguments))
  }

  const REQUEST_FIELDS := {
    "protocol_version", "request_id", "issuer", "audience", "issued_at_ms", "expires_at_ms", "authority", "operation"}

  ghost function RequestFrom(m: map<string, Json>): Result<Request, Code> {
    if m.Keys != REQUEST_FIELDS then Err(InvalidRequest)
    else RequestFromValues(m["protocol_version"], m["request_id"], m["issuer"], m["audience"], m["issued_at_ms"],
                           m["expires_at_ms"], AuthorityOf(m["authority"]), OperationOf(m["operation"]))
  }

  function AuthorityOf(j: Json): Result<Authority, Code> {
    var fields :- ObjectOf(j);
    AuthorityFrom(fields)
  }

  ghost function OperationOf(j: Json): Result<Operation, Code> {
    var fields :- ObjectOf(j);
    OperationFrom(fields)
  }

  function RequestFromValues(
    version: Json, requestId: Json, issuer: Json, audience: Json, issued: Json, expires: Json,
    authority: Result<Authority, Code>, operation: Result<Operation, Code>): Result<Request, Code>
  {
    var version :- IntegerOf(version);
    var requestId :- UuidOf(requestId);
    var issuer :- StringOf(issuer);
    var audience :- StringOf(audience);
    var issued :- IntegerOf(issued);
    var expires :- IntegerOf(expires);
    var authority :- authority;
    var operation :- operation;
    var _ :- Need(version == PROTOCOL_VERSION, UnsupportedProtocol);
    var _ :- Need(issuer == ISSUER && audience == AUDIENCE, InvalidRequest);
    var _ :- Need(Version4(requestId) && ValidLifetime(issued, expires), InvalidRequest);
    Ok(Request(requestId, issued, expires, authority, operation))
  }

  function StatusFrom(j: Json): Result<Status, Code> {
    var s :- StringOf(j);
    if s == "OK" then Ok(OkStatus)
    else if s == "REJECTED" then Ok(Rejected)
    else if s == "AMBIGUOUS" then Ok(Ambiguous)
    else Err(InvalidResponse)
  }

  function TokenFrom(j: Json): Result<Option<int>, Code> {
    if j == Null then Ok(None)
    else
      var n :- IntegerOf(j);
      Ok(Some(n))
  }

  const RESPONSE_FIELDS := {
    "protocol_version", "request_id", "operation_name", "idempotency_key", "host_id", "host_version", "status",
    "code", "replayed", "completed_at_ms", "execution_fencing_token", "result"}

  /** The checks a response makes on itself, in their order. */
  ghost function CheckedResponse(version: int, r: Response): Result<Response, Code> {
    var _ :- Need(version == PROTOCOL_VERSION, UnsupportedProtocol);
    var _ :- Need(OperationName(r.operationName), InvalidResponse);
    var _ :- Need(Identifier(r.idempotencyKey) && Identifier(r.hostId) && Identifier(r.hostVersion), InvalidRequest);
    var _ :- Need(ErrorCode(r.code), InvalidResponse);
    var _ :- Need(PositiveInt(r.completedAtMs), InvalidRequest);
    var _ :- Need(r.executionFencingToken.Some? ==> PositiveInt(r.executionFencingToken.value), InvalidRequest);
    Ok(r)
  }

  ghost function ResponseFrom(m: map<string, Json>): Result<Response, Code> {
    if m.Keys != RESPONSE_FIELDS then Err(InvalidRequest)
    else ResponseFromValues(
      m["status"], m["protocol_version"], m["request_id"], m["operation_name"], m["idempotency_key"], m["host_id"],
      m["host_version"], m["code"], m["replayed"], m["completed_at_ms"], m["execution_fencing_token"], m["result"])
  }

  ghost function ResponseFromValues(
    status: Json, version: Json, requestId: Json, name: Json, key: Json, hostId: Json, hostVersion: Json,
    code: Json, replayed: Json, completed: Json, token: Json, result: Json): Result<Response, Code>
  {
    var status :- StatusFrom(status);
    var version :- IntegerOf(version);
    var requestId :- UuidOf(requestId);
    var name :- StringOf(name);
    var key :- StringOf(key);
    var hostId :- StringOf(hostId);
    var hostVersion :- StringOf(hostVersion);
    var code :- StringOf(code);
    var _ :- Need(replayed.Bool?, InvalidResponse);
    var completed :- IntegerOf(completed);
    var token :- TokenFrom(token);
    var result :- NormalOf(result);
    CheckedResponse(version, Response(requestId, name, key, hostId, hostVersion, status, code,
                                      replayed == Bool(true), completed, token, result))
  }

  /** The message part and the two authentication texts of an envelope. */
  function EnvelopeParts(m: map<string, Json>): Result<map<string, Json>, Code> {
    if m.Keys != {"message", "authentication"} then Err(InvalidRequest) else ObjectOf(m["message"])
  }

  function AuthenticationOf(m: map<string, Json>): Result<(string, string), Code>
    requires "authentication" in m
  {
    var a :- ObjectOf(m["authentication"]);
    if a.Keys != {"key_id", "signature"} then Err(InvalidRequest)
    else
      var keyId :- StringOf(a["key_id"]);
      var signature :- StringOf(a["signature"]);
      var _ :- Need(Identifier(keyId), InvalidRequest);
      var _ :- Need(Signature(signature), Unauthenticated);
      Ok((keyId, signature))
  }

  // ----- the two directions agree

  /** Reading gives an authority exactly when the object is that authority's form. */
  lemma AuthorityForm(m: map<string, Json>, a: Authority)
    ensures AuthorityFrom(m) == Ok(a) <==> ValidAuthority(a) && m == AuthorityJson(a)
  {
    match a
    case System =>
    case Repository(pin) => RepositoryForm(m, pin);
    case TaskLease(taskId, jobId, lease, pin) => TaskLeaseForm(m, a);
  }

  lemma RepositoryForm(m: map<string, Json>, pin: Pin)
    ensures AuthorityFrom(m) == Ok(Repository(pin)) <==> ValidPin(pin) && m == AuthorityJson(Repository(pin))
  {
  }

  predicate SpellsPin(m: map<string, Json>, p: Pin) {
    && PIN_FIELDS <= m.Keys
    && m["repository_key"] == Str(p.repositoryKey) && m["configuration_id"] == Str(p.configurationId)
    && m["configuration_digest"] == Str(p.configurationDigest)
  }

  predicate SpellsLease(m: map<string, Json>, l: Lease) {
    && LEASE_FIELDS <= m.Keys
    && m["lease_id"] == Str(l.leaseId) && m["worker_id"] == Str(l.workerId) && m["attempt"] == Num(l.attempt)
    && m["fencing_token"] == Num(l.fencingToken) && m["lease_expires_at_ms"] == Num(l.expiresAtMs)
  }

  lemma PinReads(m: map<string, Json>, p: Pin)
    requires PIN_FIELDS <= m.Keys
    ensures PinFrom(m) == Ok(p) <==> Uuid(p.configurationId) && SpellsPin(m, p)
  {
  }

  lemma LeaseReads(m: map<string, Json>, l: Lease)
    requires LEASE_FIELDS <= m.Keys
    ensures LeaseFrom(m) == Ok(l) <==> Uuid(l.leaseId) && SpellsLease(m, l)
  {
  }

  lemma TaskLeaseReads(taskId: Json, jobId: Json, lease: Result<Lease, Code>, pin: Result<Pin, Code>, a: Authority)
    requires a.TaskLease?
    ensures TaskLeaseFromValues(taskId, jobId, lease, pin) == Ok(a)
            <==> && taskId == Str(a.taskId) && jobId == Str(a.jobId) && lease == Ok(a.lease) && pin == Ok(a.pin)
                 && ValidAuthority(a)
  {
  }

  const TASK_FIELDS := PIN_FIELDS + LEASE_FIELDS + {"task_id", "job_id"}

  predicate SpellsTask(m: map<string, Json>, a: Authority)
    requires a.TaskLease?
  {
    m.Keys == TASK_FIELDS && m["kind"] == Str("TASK_LEASE") && m["task_id"] == Str(a.taskId)
    && m["job_id"] == Str(a.jobId) && SpellsLease(m, a.lease) && SpellsPin(m, a.pin)
  }

  lemma TaskSpelled(a: Authority)
    requires a.TaskLease?
    ensures SpellsTask(AuthorityJson(a), a)
  {
    assert AuthorityJson(a).Keys == TASK_FIELDS;
  }

  lemma SpelledTask(m: map<string, Json>, n: map<string, Json>, a: Authority)
    requires a.TaskLease? && SpellsTask(m, a) && SpellsTask(n, a)
    ensures m == n
  {
    forall k | k in TASK_FIELDS ensures m[k] == n[k] { }
  }

  lemma TaskLeaseForm(m: map<string, Json>, a: Authority)
    requires a.TaskLease?
    ensures AuthorityFrom(m) == Ok(a) <==> ValidAuthority(a) && m == AuthorityJson(a)
  {
    TaskSpelled(a);
    if SpellsTask(m, a) { SpelledTask(m, AuthorityJson(a), a); }
    TaskOnly(m, a);
    if m.Keys == TASK_FIELDS {
      PinReads(m, a.pin);
      LeaseReads(m, a.lease);
      TaskLeaseReads(m["task_id"], m["job_id"], LeaseFrom(m), PinFrom(m), a);
    }
  }

  lemma TaskOnly(m: map<string, Json>, a: Authority)
    requires a.TaskLease?
    ensures AuthorityFrom(m) == Ok(a) <==> "kind" in m && m["kind"] == Str("TASK_LEASE") && TaskLeaseFrom(m) == Ok(a)
  {
  }

  lemma OperationReads(name: Json, version: Json, key: Json, arguments: Json, o: Operation)
    ensures OperationFromValues(name, version, key, arguments) == Ok(o)
            <==> && ValidOperation(o) && name == Str(o.name) && version == Num(1) && key == Str(o.idempotencyKey)
                 && arguments == Obj(o.arguments)
  {
  }

  predicate SpellsOperation(m: map<string, Json>, o: Operation) {
    && m.Keys == OPERATION_FIELDS
    && m["name"] == Str(o.name) && m["schema_version"] == Num(1) && m["idempotency_key"] == Str(o.idempotencyKey)
    && m["arguments"] == Obj(o.arguments)
  }

  lemma OperationSpelled(o: Operation)
    ensures SpellsOperation(OperationJson(o), o)
  {
    assert OperationJson(o).Keys == OPERATION_FIELDS;
  }

  lemma SpelledOperation(m: map<string, Json>, n: map<string, Json>, o: Operation)
    requires SpellsOperation(m, o) && SpellsOperation(n, o)
    ensures m == n
  {
    forall k | k in OPERATION_FIELDS ensures m[k] == n[k] { }
  }

  lemma OperationForm(m: map<string, Json>, o: Operation)
    ensures OperationFrom(m) == Ok(o) <==> ValidOperation(o) && m == OperationJson(o)
  {
    OperationSpelled(o);
    if m.Keys == OPERATION_FIELDS {
      OperationReads(m["name"], m["schema_version"], m["idempotency_key"], m["arguments"], o);
      if SpellsOperation(m, o) { SpelledOperation(m, OperationJson(o), o); }
    }
  }

  /** The fields of an object spell out a request. */
  predicate SpellsRequest(m: map<string, Json>, r: Request) {
    && m.Keys == REQUEST_FIELDS
    && m["protocol_version"] == Num(PROTOCOL_VERSION) && m["request_id"] == Str(r.requestId)
    && m["issuer"] == Str(ISSUER) && m["audience"] == Str(AUDIENCE)
    && m["issued_at_ms"] == Num(r.issuedAtMs) && m["expires_at_ms"] == Num(r.expiresAtMs)
    && m["authority"] == Obj(AuthorityJson(r.authority)) && m["operation"] == Obj(OperationJson(r.operation))
  }

  lemma RequestSpelled(r: Request)
    ensures SpellsRequest(RequestJson(r), r)
  {
    assert RequestJson(r).Keys == REQUEST_FIELDS;
  }

  lemma SpelledRequest(m: map<string, Json>, n: map<string, Json>, r: Request)
    requires SpellsRequest(m, r) && SpellsRequest(n, r)
    ensures m == n
  {
    forall k | k in REQUEST_FIELDS ensures m[k] == n[k] { }
  }

  lemma RequestForm(m: map<string, Json>, r: Request)
    ensures RequestFrom(m) == Ok(r) <==> ValidRequest(r) && m == RequestJson(r)
  {
    RequestSpelled(r);
    if m.Keys == REQUEST_FIELDS {
      AuthorityOfForm(m["authority"], r.authority);
      OperationOfForm(m["operation"], r.operation);
      RequestReads(m["protocol_version"], m["request_id"], m["issuer"], m["audience"], m["issued_at_ms"],
                   m["expires_at_ms"], AuthorityOf(m["authority"]), OperationOf(m["operation"]), r);
      if SpellsRequest(m, r) { SpelledRequest(m, RequestJson(r), r); }
    }
  }

  lemma AuthorityOfForm(j: Json, a: Authority)
    ensures AuthorityOf(j) == Ok(a) <==> ValidAuthority(a) && j == Obj(AuthorityJson(a))
  {
    if j.Obj? { AuthorityForm(j.fields, a); }
  }

  lemma OperationOfForm(j: Json, o: Operation)
    ensures OperationOf(j) == Ok(o) <==> ValidOperation(o) && j == Obj(OperationJson(o))
  {
    if j.Obj? { OperationForm(j.fields, o); }
  }

  lemma RequestReads(version: Json, requestId: Json, issuer: Json, audience: Json, issued: Json, expires: Json,
                     authority: Result<Authority, Code>, operation: Result<Operation, Code>, r: Request)
    ensures RequestFromValues(version, requestId, issuer, audience, issued, expires, authority, operation) == Ok(r)
            <==> && version == Num(PROTOCOL_VERSION) && requestId == Str(r.requestId)
                 && issuer == Str(ISSUER) && audience == Str(AUDIENCE)
                 && issued == Num(r.issuedAtMs) && expires == Num(r.expiresAtMs)
                 && authority == Ok(r.authority) && operation == Ok(r.operation)
                 && Uuid(r.requestId) && Version4(r.requestId) && ValidLifetime(r.issuedAtMs, r.expiresAtMs)
  {
  }

  predicate SpellsResponse(m: map<string, Json>, r: Response) {
    && m.Keys == RESPONSE_FIELDS
    && m["protocol_version"] == Num(PROTOCOL_VERSION) && m["request_id"] == Str(r.requestId)
    && m["operation_name"] == Str(r.operationName) && m["idempotency_key"] == Str(r.idempotencyKey)
    && m["host_id"] == Str(r.hostId) && m["host_version"] == Str(r.hostVersion)
    && m["status"] == Str(StatusText(r.status)) && m["code"] == Str(r.code) && m["replayed"] == Bool(r.replayed)
    && m["completed_at_ms"] == Num(r.completedAtMs)
    && m["execution_fencing_token"] == TokenJson(r.executionFencingToken) && m["result"] == Obj(r.result)
  }

  lemma ResponseSpelled(r: Response)
    ensures SpellsResponse(ResponseJson(r), r)
  {
    assert ResponseJson(r).Keys == RESPONSE_FIELDS;
  }

  lemma SpelledResponse(m: map<string, Json>, n: map<string, Json>, r: Response)
    requires SpellsResponse(m, r) && SpellsResponse(n, r)
    ensures m == n
  {
    forall k | k in RESPONSE_FIELDS ensures m[k] == n[k] { }
  }

  lemma TokenForm(j: Json, t: Option<int>)
    ensures TokenFrom(j) == Ok(t) <==> j == TokenJson(t)
  {
  }

  lemma StatusForm(j: Json, t: Status)
    ensures StatusFrom(j) == Ok(t) <==> j == Str(StatusText(t))
  {
  }

  ghost predicate ValuesSpell(
    status: Json, version: Json, requestId: Json, name: Json, key: Json, hostId: Json, hostVersion: Json,
    code: Json, replayed: Json, completed: Json, token: Json, result: Json, r: Response)
  {
    && status == Str(StatusText(r.status)) && version == Num(PROTOCOL_VERSION)
    && requestId == Str(r.requestId) && name == Str(r.operationName) && key == Str(r.idempotencyKey)
    && hostId == Str(r.hostId) && hostVersion == Str(r.hostVersion) && code == Str(r.code)
    && replayed == Bool(r.replayed) && completed == Num(r.completedAtMs)
    && token == TokenJson(r.executionFencingToken) && result == Obj(r.result)
  }

  lemma ValuesRead(
    status: Json, version: Json, requestId: Json, name: Json, key: Json, hostId: Json, hostVersion: Json,
    code: Json, replayed: Json, completed: Json, token: Json, result: Json, r: Response)
    requires ResponseFromValues(status, version, requestId, name, key, hostId, hostVersion, code, replayed, completed,
                                token, result) == Ok(r)
    ensures ValidResponse(r)
    ensures ValuesSpell(status, version, requestId, name, key, hostId, hostVersion, code, replayed, completed, token, result, r)
  {
    StatusForm(status, r.status);
    TokenForm(token, r.executionFencingToken);
  }

  lemma SpelledReads(
    status: Json, version: Json, requestId: Json, name: Json, key: Json, hostId: Json, hostVersion: Json,
    code: Json, replayed: Json, completed: Json, token: Json, result: Json, r: Response)
    requires ValidResponse(r)
    requires ValuesSpell(status, version, requestId, name, key, hostId, hostVersion, code, replayed, completed, token, result, r)
    ensures ResponseFromValues(status, version, requestId, name, key, hostId, hostVersion, code, replayed, completed,
                               token, result) == Ok(r)
  {
    StatusForm(status, r.status);
    TokenForm(token, r.executionFencingToken);
  }

  lemma ResponseReads(
    status: Json, version: Json, requestId: Json, name: Json, key: Json, hostId: Json, hostVersion: Json,
    code: Json, replayed: Json, completed: Json, token: Json, result: Json, r: Response)
    ensures ResponseFromValues(status, version, requestId, name, key, hostId, hostVersion, code, replayed, completed,
                               token, result) == Ok(r)
            <==> ValidResponse(r)
                 && ValuesSpell(status, version, requestId, name, key, hostId, hostVersion, code, replayed, completed,
                                token, result, r)
  {
    if ResponseFromValues(status, version, requestId, name, key, hostId, hostVersion, code, replayed, completed,
                          token, result) == Ok(r) {
      ValuesRead(status, version, requestId, name, key, hostId, hostVersion, code, replayed, completed,
                 token, result, r);
    }
    if ValidResponse(r) && ValuesSpell(status, version, requestId, name, key, hostId, hostVersion, code, replayed, completed,
                                       token, result, r) {
      SpelledReads(status, version, requestId, name, key, hostId, hostVersion, code, replayed, completed,
                   token, result, r);
    }
  }

  lemma ResponseForm(m: map<string, Json>, r: Response)
    ensures ResponseFrom(m) == Ok(r) <==> ValidResponse(r) && m == ResponseJson(r)
  {
    ResponseSpelled(r);
    if m.Keys == RESPONSE_FIELDS {
      ResponseReads(
        m["status"], m["protocol_version"], m["request_id"], m["operation_name"], m["idempotency_key"], m["host_id"],
        m["host_version"], m["code"], m["replayed"], m["completed_at_ms"], m["execution_fencing_token"], m["result"], r);
      if SpellsResponse(m, r) { SpelledResponse(m, ResponseJson(r), r); }
    }
  }
}
