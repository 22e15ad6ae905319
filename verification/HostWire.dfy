/** Exactly which payloads the host boundary accepts, field by field, and which texts are signed. */
module HostWire {
  import opened Basics
  import opened Wrappers
  import opened JsonText
  import opened JsonForm
  import opened JsonBounds
  import JsonRoundTrip
  import opened HostMessages
  import opened HostProtocol
  import opened Text

  const LOWERS := "abcdefghijklmnopqrstuvwxyz"
  const UPPERS := "ABCDEFGHIJKLMNOPQRSTUVWXYZ"
  const DIGITS := "0123456789"

  lemma CharacterClasses(c: char)
    ensures c in LOWERS <==> Lower(c)
    ensures c in UPPERS <==> Upper(c)
    ensures c in DIGITS <==> IsDigit(c)
    ensures c in HEX <==> LowerHex(c)
  {
  }

  // ----- the patterns

  /** Every character is one of these. */
  predicate Of(s: string, cs: string) { forall c <- s :: c in cs }

  predicate NameText(s: string) {
    1 <= |s| <= 255 && s[0] in LOWERS + UPPERS + DIGITS && Of(s, LOWERS + UPPERS + DIGITS + "._:/-")
  }

  predicate Segment(s: string) { 1 <= |s| && s[0] in LOWERS && Of(s, LOWERS + DIGITS + "_") }

  /** Two to five segments with dots between them. */
  ghost predicate OperationText(s: string) {
    exists parts :: 2 <= |parts| <= 5 && (forall p <- parts :: Segment(p)) && s == Join(parts, '.')
  }

  ghost predicate RepositoryText(s: string) {
    exists owner, name :: owner != "" && name != "" && Of(owner, LOWERS + UPPERS + DIGITS + "_.-")
      && Of(name, LOWERS + UPPERS + DIGITS + "_.-") && s == owner + "/" + name
  }

  predicate UuidText(s: string) {
    |s| == 36 && s[8] == '-' && s[13] == '-' && s[18] == '-' && s[23] == '-'
    && forall i :: 0 <= i < 36 && i != 8 && i != 13 && i != 18 && i != 23 ==> s[i] in HEX
  }

  predicate DigestText(s: string) { |s| == 71 && "sha256:" <= s && Of(s[7..], HEX) }

  predicate SignatureText(s: string) { |s| == 43 && Of(s, LOWERS + UPPERS + DIGITS + "_-") }

  predicate CodeText(s: string) { 1 <= |s| <= 100 && s[0] in UPPERS && Of(s, UPPERS + DIGITS + "_") }

  predicate Positive(n: int) { 1 <= n <= 9_223_372_036_854_775_807 }

  lemma OfMeans(s: string)
    ensures Of(s, LOWERS + UPPERS + DIGITS + "._:/-") <==> forall c <- s :: Alnum(c) || c in "._:/-"
    ensures Of(s, LOWERS + UPPERS + DIGITS + "_.-") <==> forall c <- s :: Alnum(c) || c in "_.-"
    ensures Of(s, LOWERS + UPPERS + DIGITS + "_-") <==> forall c <- s :: Alnum(c) || c == '_' || c == '-'
    ensures Of(s, LOWERS + DIGITS + "_") <==> forall c <- s :: Lower(c) || IsDigit(c) || c == '_'
    ensures Of(s, UPPERS + DIGITS + "_") <==> forall c <- s :: Upper(c) || IsDigit(c) || c == '_'
    ensures Of(s, HEX) <==> forall c <- s :: LowerHex(c)
  {
    forall c ensures c in LOWERS <==> Lower(c)
      ensures c in UPPERS <==> Upper(c)
      ensures c in DIGITS <==> IsDigit(c)
      ensures c in HEX <==> LowerHex(c)
    {
      CharacterClasses(c);
    }
  }

  lemma NameIs(s: string)
    ensures NameText(s) <==> HostMessages.Identifier(s)
  {
    OfMeans(s);
    if s != "" { CharacterClasses(s[0]); }
  }

  lemma SegmentIs(s: string)
    ensures Segment(s) <==> s != [] && Lower(s[0]) && forall c <- s :: Lower(c) || IsDigit(c) || c == '_'
  {
    OfMeans(s);
    if s != "" { CharacterClasses(s[0]); }
  }

  lemma OperationIs(s: string)
    ensures OperationText(s) <==> OperationName(s)
  {
    forall p: string ensures Segment(p) <==> p != [] && Lower(p[0]) && forall c <- p :: Lower(c) || IsDigit(c) || c == '_' { SegmentIs(p); }
    if parts :| 2 <= |parts| <= 5 && (forall p <- parts :: Segment(p)) && s == Join(parts, '.') {
      forall p <- parts ensures '.' !in p { assert Segment(p); }
      SplitJoin(parts, '.');
    }
    JoinSplit(s, '.');
    if OperationName(s) { assert forall p <- Split(s, '.') :: Segment(p); }
  }

  predicate RepositoryPart(p: string) { p != "" && Of(p, LOWERS + UPPERS + DIGITS + "_.-") }

  lemma RepositoryPartIs(p: string)
    ensures RepositoryPart(p) <==> p != [] && forall c <- p :: Alnum(c) || c in "_.-"
    ensures RepositoryPart(p) ==> '/' !in p
  {
    OfMeans(p);
  }

  lemma RepositoryReads(owner: string, name: string)
    requires RepositoryPart(owner) && RepositoryPart(name)
    ensures RepositoryKey(owner + "/" + name)
  {
    RepositoryPartIs(owner);
    RepositoryPartIs(name);
    var parts := [owner, name];
    assert parts[1..] == [name];
    assert Join(parts, '/') == owner + "/" + name;
    SplitJoin(parts, '/');
  }

  lemma RepositoryIs(s: string)
    ensures RepositoryText(s) <==> RepositoryKey(s)
  {
    if owner, name :| owner != "" && name != "" && Of(owner, LOWERS + UPPERS + DIGITS + "_.-")
                      && Of(name, LOWERS + UPPERS + DIGITS + "_.-") && s == owner + "/" + name {
      RepositoryReads(owner, name);
    }
    if RepositoryKey(s) {
      var parts := Split(s, '/');
      var owner, name := parts[0], parts[1];
      JoinSplit(s, '/');
      assert owner in parts && name in parts;
      RepositoryPartIs(owner);
      RepositoryPartIs(name);
      assert parts == [owner, name] && parts[1..] == [name];
      assert s == owner + "/" + name;
    }
  }

  lemma UuidIs(s: string)
    ensures UuidText(s) <==> Uuid(s)
  {
    forall c ensures c in HEX <==> LowerHex(c) { CharacterClasses(c); }
  }

  lemma DigestIs(s: string)
    ensures DigestText(s) <==> Digest(s)
  {
    if |s| == 71 { DigestTail(s[7..]); }
  }

  lemma DigestTail(t: string)
    ensures Of(t, HEX) <==> forall c <- t :: '0' <= c <= '9' || 'a' <= c <= 'f'
  {
    OfMeans(t);
  }

  lemma SignatureIs(s: string)
    ensures SignatureText(s) <==> Signature(s)
  {
    OfMeans(s);
  }

  lemma CodeIs(s: string)
    ensures CodeText(s) <==> ErrorCode(s)
  {
    OfMeans(s);
    if s != "" { CharacterClasses(s[0]); }
  }

  // ----- the fields

  predicate HasText(m: map<string, Json>, k: string) { k in m && m[k].Str? }

  predicate HasPositive(m: map<string, Json>, k: string) { k in m && m[k].Num? && Positive(m[k].n) }

  ghost predicate PinFields(m: map<string, Json>) {
    && HasText(m, "repository_key") && RepositoryText(m["repository_key"].s)
    && HasText(m, "configuration_id") && UuidText(m["configuration_id"].s)
    && HasText(m, "configuration_digest") && DigestText(m["configuration_digest"].s)
  }

  ghost predicate LeaseFields(m: map<string, Json>) {
    && HasText(m, "task_id") && UuidText(m["task_id"].s) && HasText(m, "job_id") && UuidText(m["job_id"].s)
    && HasText(m, "lease_id") && UuidText(m["lease_id"].s) && HasText(m, "worker_id") && NameText(m["worker_id"].s)
    && HasPositive(m, "attempt") && HasPositive(m, "fencing_token") && HasPositive(m, "lease_expires_at_ms")
  }

  /** Nobody in particular, a repository, or the lease of a task in a repository. */
  ghost predicate WireAuthority(m: map<string, Json>) {
    || (m.Keys == {"kind"} && m["kind"] == Str("SYSTEM"))
    || (m.Keys == {"kind", "repository_key", "configuration_id", "configuration_digest"}
        && m["kind"] == Str("REPOSITORY") && PinFields(m))
    || (m.Keys == {"kind", "task_id", "job_id", "lease_id", "worker_id", "attempt", "fencing_token",
                   "lease_expires_at_ms", "repository_key", "configuration_id", "configuration_digest"}
        && m["kind"] == Str("TASK_LEASE") && PinFields(m) && LeaseFields(m))
  }

  ghost predicate WireOperation(m: map<string, Json>) {
    && m.Keys == {"name", "schema_version", "idempotency_key", "arguments"}
    && m["name"].Str? && OperationText(m["name"].s) && m["schema_version"] == Num(1)
    && m["idempotency_key"].Str? && NameText(m["idempotency_key"].s)
    && m["arguments"].Obj? && NormalObject(m["arguments"].fields)
  }

  /** A version-4 identifier, fixed issuer and audience, at most thirty seconds of life. */
  ghost predicate WireRequest(m: map<string, Json>) {
    && m.Keys == {"protocol_version", "request_id", "issuer", "audience", "issued_at_ms", "expires_at_ms", "authority", "operation"}
    && m["protocol_version"] == Num(1) && m["issuer"] == Str("control-plane") && m["audience"] == Str("local-macos-host")
    && m["request_id"].Str? && UuidText(m["request_id"].s) && m["request_id"].s[14] == '4' && m["request_id"].s[19] in "89ab"
    && HasPositive(m, "issued_at_ms") && HasPositive(m, "expires_at_ms")
    && m["issued_at_ms"].n < m["expires_at_ms"].n <= m["issued_at_ms"].n + 30_000
    && m["authority"].Obj? && WireAuthority(m["authority"].fields)
    && m["operation"].Obj? && WireOperation(m["operation"].fields)
  }

  predicate WireStatus(j: Json) {
    j == Str("OK") || j == Str("REJECTED") || j == Str("AMBIGUOUS")
  }

  predicate WireToken(j: Json) {
    j == Null || (j.Num? && Positive(j.n))
  }

  ghost predicate WireNames(requestId: Json, name: Json, key: Json, hostId: Json, hostVersion: Json, code: Json) {
    && requestId.Str? && UuidText(requestId.s) && name.Str? && OperationText(name.s)
    && key.Str? && NameText(key.s) && hostId.Str? && NameText(hostId.s) && hostVersion.Str? && NameText(hostVersion.s)
    && code.Str? && CodeText(code.s)
  }

  ghost predicate WireResponseValues(
    status: Json, version: Json, requestId: Json, name: Json, key: Json, hostId: Json, hostVersion: Json,
    code: Json, replayed: Json, completed: Json, token: Json, result: Json)
  {
    && WireNames(requestId, name, key, hostId, hostVersion, code)
    && version == Num(1) && WireStatus(status) && replayed.Bool? && completed.Num? && Positive(completed.n)
    && WireToken(token) && result.Obj? && NormalObject(result.fields)
  }

  ghost predicate WireResponse(m: map<string, Json>) {
    && m.Keys == {"protocol_version", "request_id", "operation_name", "idempotency_key", "host_id", "host_version", "status",
                  "code", "replayed", "completed_at_ms", "execution_fencing_token", "result"}
    && WireResponseValues(
      m["status"], m["protocol_version"], m["request_id"], m["operation_name"], m["idempotency_key"], m["host_id"],
      m["host_version"], m["code"], m["replayed"], m["completed_at_ms"], m["execution_fencing_token"], m["result"])
  }

  ghost predicate WireEnvelope(j: Json, message: map<string, Json>) {
    && j.Obj? && j.fields.Keys == {"message", "authentication"} && j.fields["message"] == Obj(message)
    && j.fields["authentication"].Obj?
    && var a := j.fields["authentication"].fields;
       a.Keys == {"key_id", "signature"} && a["key_id"].Str? && NameText(a["key_id"].s)
       && a["signature"].Str? && SignatureText(a["signature"].s)
  }

  // ----- authorities

  lemma PinIs(p: Pin)
    ensures RepositoryText(p.repositoryKey) && UuidText(p.configurationId) && DigestText(p.configurationDigest) <==> ValidPin(p)
  {
    RepositoryIs(p.repositoryKey);
    UuidIs(p.configurationId);
    DigestIs(p.configurationDigest);
  }

  lemma LeaseIs(l: Lease)
    ensures UuidText(l.leaseId) && NameText(l.workerId) && Positive(l.attempt) && Positive(l.fencingToken) && Positive(l.expiresAtMs)
            <==> ValidLease(l)
  {
    UuidIs(l.leaseId);
    NameIs(l.workerId);
  }

  lemma PinFieldsAre(m: map<string, Json>, p: Pin)
    requires SpellsPin(m, p)
    ensures PinFields(m) <==> ValidPin(p)
  {
    PinIs(p);
  }

  lemma LeaseFieldsAre(m: map<string, Json>, a: Authority)
    requires a.TaskLease? && SpellsTask(m, a)
    ensures LeaseFields(m) <==> UuidText(a.taskId) && UuidText(a.jobId) && ValidLease(a.lease)
  {
    LeaseIs(a.lease);
  }

  predicate TaskWire(m: map<string, Json>) {
    && m.Keys == {"kind", "task_id", "job_id", "lease_id", "worker_id", "attempt", "fencing_token",
                  "lease_expires_at_ms", "repository_key", "configuration_id", "configuration_digest"}
    && m["kind"] == Str("TASK_LEASE")
  }

  lemma TaskWireValid(m: map<string, Json>, a: Authority)
    requires a.TaskLease? && SpellsTask(m, a)
    ensures TaskWire(m) && (PinFields(m) && LeaseFields(m) <==> ValidAuthority(a))
  {
    assert TASK_FIELDS == {"kind", "task_id", "job_id", "lease_id", "worker_id", "attempt", "fencing_token",
                           "lease_expires_at_ms", "repository_key", "configuration_id", "configuration_digest"};
    PinFieldsAre(m, a.pin);
    LeaseFieldsAre(m, a);
    UuidIs(a.taskId);
    UuidIs(a.jobId);
  }

  lemma TaskWireRead(m: map<string, Json>) returns (a: Authority)
    requires TaskWire(m) && PinFields(m) && LeaseFields(m)
    ensures a.TaskLease? && SpellsTask(m, a)
  {
    a := TaskLease(m["task_id"].s, m["job_id"].s,
                   Lease(m["lease_id"].s, m["worker_id"].s, m["attempt"].n, m["fencing_token"].n, m["lease_expires_at_ms"].n),
                   Pin(m["repository_key"].s, m["configuration_id"].s, m["configuration_digest"].s));
    assert m.Keys == TASK_FIELDS;
  }

  predicate SpellsRepository(m: map<string, Json>, p: Pin) {
    m.Keys == PIN_FIELDS && m["kind"] == Str("REPOSITORY") && SpellsPin(m, p)
  }

  lemma RepositorySpelled(p: Pin)
    ensures SpellsRepository(AuthorityJson(Repository(p)), p)
  {
    assert AuthorityJson(Repository(p)).Keys == PIN_FIELDS;
  }

  lemma SpelledRepository(m: map<string, Json>, n: map<string, Json>, p: Pin)
    requires SpellsRepository(m, p) && SpellsRepository(n, p)
    ensures m == n
  {
    forall k | k in PIN_FIELDS ensures m[k] == n[k] { }
  }

  /** A repository's object, or a task's. */
  lemma AuthorityWire(m: map<string, Json>, a: Authority)
    requires ValidAuthority(a) && m == AuthorityJson(a)
    ensures WireAuthority(m)
  {
    match a
    case System =>
      assert m.Keys == {"kind"};
    case Repository(pin) =>
      RepositorySpelled(pin);
      PinFieldsAre(m, pin);
    case TaskLease(_, _, _, _) =>
      TaskSpelled(a);
      TaskWireValid(m, a);
  }

  lemma WireAuthorityRead(m: map<string, Json>) returns (a: Authority)
    requires WireAuthority(m)
    ensures ValidAuthority(a) && AuthorityJson(a) == m
  {
    if m.Keys == {"kind"} {
      a := System;
      assert AuthorityJson(a).Keys == {"kind"};
    } else if "task_id" !in m {
      a := RepositoryRead(m);
    } else {
      a := TaskWireRead(m);
      TaskWireValid(m, a);
      TaskSpelled(a);
      SpelledTask(m, AuthorityJson(a), a);
    }
  }

  lemma RepositoryRead(m: map<string, Json>) returns (a: Authority)
    requires m.Keys == {"kind", "repository_key", "configuration_id", "configuration_digest"}
    requires m["kind"] == Str("REPOSITORY") && PinFields(m)
    ensures ValidAuthority(a) && AuthorityJson(a) == m
  {
    var pin := Pin(m["repository_key"].s, m["configuration_id"].s, m["configuration_digest"].s);
    a := Repository(pin);
    assert m.Keys == PIN_FIELDS;
    PinFieldsAre(m, pin);
    RepositorySpelled(pin);
    SpelledRepository(m, AuthorityJson(a), pin);
  }

  // ----- operations and messages

  lemma OperationWire(m: map<string, Json>, o: Operation)
    requires SpellsOperation(m, o)
    ensures WireOperation(m) <==> ValidOperation(o)
  {
    OperationIs(o.name);
    NameIs(o.idempotencyKey);
  }

  lemma WireOperationRead(m: map<string, Json>) returns (o: Operation)
    requires WireOperation(m)
    ensures ValidOperation(o) && OperationJson(o) == m
  {
    o := Operation(m["name"].s, m["idempotency_key"].s, m["arguments"].fields);
    assert SpellsOperation(m, o);
    OperationWire(m, o);
    OperationSpelled(o);
    SpelledOperation(m, OperationJson(o), o);
  }

  lemma RequestWire(m: map<string, Json>, r: Request)
    requires SpellsRequest(m, r) && ValidRequest(r)
    ensures WireRequest(m)
  {
    UuidIs(r.requestId);
    AuthorityWire(AuthorityJson(r.authority), r.authority);
    OperationSpelled(r.operation);
    OperationWire(OperationJson(r.operation), r.operation);
  }

  lemma WireRequestRead(m: map<string, Json>) returns (r: Request)
    requires WireRequest(m)
    ensures ValidRequest(r) && RequestJson(r) == m
  {
    var a := WireAuthorityRead(m["authority"].fields);
    var o := WireOperationRead(m["operation"].fields);
    r := Request(m["request_id"].s, m["issued_at_ms"].n, m["expires_at_ms"].n, a, o);
    UuidIs(r.requestId);
    assert SpellsRequest(m, r);
    RequestSpelled(r);
    SpelledRequest(m, RequestJson(r), r);
  }

  lemma NamesAre(requestId: string, name: string, key: string, hostId: string, hostVersion: string, code: string)
    ensures WireNames(Str(requestId), Str(name), Str(key), Str(hostId), Str(hostVersion), Str(code))
            <==> Uuid(requestId) && OperationName(name) && HostMessages.Identifier(key) && HostMessages.Identifier(hostId)
                 && HostMessages.Identifier(hostVersion) && ErrorCode(code)
  {
    UuidIs(requestId);
    OperationIs(name);
    NameIs(key);
    NameIs(hostId);
    NameIs(hostVersion);
    CodeIs(code);
  }

  lemma StatusIs(status: Status)
    ensures WireStatus(Str(StatusText(status)))
  {
  }

  lemma StatusRead(j: Json) returns (status: Status)
    requires WireStatus(j)
    ensures j == Str(StatusText(status))
  {
    status := if j == Str("OK") then OkStatus else if j == Str("REJECTED") then Rejected else Ambiguous;
  }

  lemma TokenIs(token: Option<int>)
    ensures WireToken(TokenJson(token)) <==> (token.Some? ==> PositiveInt(token.value))
  {
  }

  lemma TokenRead(j: Json) returns (token: Option<int>)
    requires WireToken(j)
    ensures j == TokenJson(token)
  {
    token := if j.Num? then Some(j.n) else None;
  }

  lemma ResponseValuesWire(
    status: Json, version: Json, requestId: Json, name: Json, key: Json, hostId: Json, hostVersion: Json,
    code: Json, replayed: Json, completed: Json, token: Json, result: Json, r: Response)
    requires ValuesSpell(status, version, requestId, name, key, hostId, hostVersion, code, replayed, completed, token, result, r)
    ensures WireResponseValues(status, version, requestId, name, key, hostId, hostVersion, code, replayed, completed, token, result)
            <==> ValidResponse(r)
  {
    NamesAre(r.requestId, r.operationName, r.idempotencyKey, r.hostId, r.hostVersion, r.code);
    StatusIs(r.status);
    TokenIs(r.executionFencingToken);
  }

  lemma ResponseValuesRead(
    status: Json, version: Json, requestId: Json, name: Json, key: Json, hostId: Json, hostVersion: Json,
    code: Json, replayed: Json, completed: Json, token: Json, result: Json) returns (r: Response)
    requires WireResponseValues(status, version, requestId, name, key, hostId, hostVersion, code, replayed, completed, token, result)
    ensures ValuesSpell(status, version, requestId, name, key, hostId, hostVersion, code, replayed, completed, token, result, r)
  {
    var state := StatusRead(status);
    var held := TokenRead(token);
    r := Response(requestId.s, name.s, key.s, hostId.s, hostVersion.s, state, code.s, replayed.b, completed.n, held, result.fields);
  }

  ghost predicate ResponseKeyed(m: map<string, Json>) {
    m.Keys == {"protocol_version", "request_id", "operation_name", "idempotency_key", "host_id", "host_version", "status",
               "code", "replayed", "completed_at_ms", "execution_fencing_token", "result"}
  }

  lemma ResponseWire(m: map<string, Json>, r: Response)
    requires SpellsResponse(m, r)
    ensures WireResponse(m) <==> ValidResponse(r)
  {
    assert ResponseKeyed(m);
    ResponseValuesWire(
      m["status"], m["protocol_version"], m["request_id"], m["operation_name"], m["idempotency_key"], m["host_id"],
      m["host_version"], m["code"], m["replayed"], m["completed_at_ms"], m["execution_fencing_token"], m["result"], r);
  }

  lemma WireResponseSpelled(m: map<string, Json>) returns (r: Response)
    requires WireResponse(m)
    ensures SpellsResponse(m, r)
  {
    r := ResponseValuesRead(
      m["status"], m["protocol_version"], m["request_id"], m["operation_name"], m["idempotency_key"], m["host_id"],
      m["host_version"], m["code"], m["replayed"], m["completed_at_ms"], m["execution_fencing_token"], m["result"]);
    assert m.Keys == RESPONSE_FIELDS;
  }

  lemma WireResponseRead(m: map<string, Json>) returns (r: Response)
    requires WireResponse(m)
    ensures ValidResponse(r) && ResponseJson(r) == m
  {
    r := WireResponseSpelled(m);
    ResponseWire(m, r);
    ResponseSpelled(r);
    SpelledResponse(m, ResponseJson(r), r);
  }

  // ----- envelopes

  lemma EnvelopeWire(message: map<string, Json>, keyId: string, signature: string)
    ensures WireEnvelope(Obj(EnvelopeJson(message, keyId, signature)), message)
            <==> HostMessages.Identifier(keyId) && Signature(signature)
  {
    var j := Obj(EnvelopeJson(message, keyId, signature));
    assert j.fields.Keys == {"message", "authentication"};
    assert j.fields["authentication"].fields.Keys == {"key_id", "signature"};
    NameIs(keyId);
    SignatureIs(signature);
  }

  lemma WireEnvelopeRead(j: Json, message: map<string, Json>) returns (keyId: string, signature: string)
    requires WireEnvelope(j, message)
    ensures HostMessages.Identifier(keyId) && Signature(signature) && j == Obj(EnvelopeJson(message, keyId, signature))
  {
    var a := j.fields["authentication"].fields;
    keyId, signature := a["key_id"].s, a["signature"].s;
    NameIs(keyId);
    SignatureIs(signature);
    var form := map["key_id" := Str(keyId), "signature" := Str(signature)];
    assert a.Keys == form.Keys && a["key_id"] == form["key_id"] && a["signature"] == form["signature"];
    assert a == form;
    assert j.fields == EnvelopeJson(message, keyId, signature);
  }

  /** The payload is no longer than a mebibyte and its text is one value. */
  predicate Framed(payload: string) {
    payload != "" && Utf8Length(payload) <= 1_048_576 && Read(payload).Some?
  }

  /** A payload decodes as a request if and only if all its fields are in order. */
  lemma RequestDecodesExactly(payload: string)
    ensures DecodeRequest(payload).Ok?
            <==> Framed(payload) && exists m :: WireEnvelope(Read(payload).value, m) && WireRequest(m)
  {
    if DecodeRequest(payload).Ok? {
      var e := DecodeRequest(payload).value;
      RequestAccepted(payload, e);
      RequestSpelled(e.message);
      RequestWire(RequestJson(e.message), e.message);
      EnvelopeWire(RequestJson(e.message), e.keyId, e.signature);
    }
    if Framed(payload) && exists m :: WireEnvelope(Read(payload).value, m) && WireRequest(m) {
      var m :| WireEnvelope(Read(payload).value, m) && WireRequest(m);
      var r := WireRequestRead(m);
      var keyId, signature := WireEnvelopeRead(Read(payload).value, m);
      RequestAccepted(payload, Signed(r, keyId, signature));
    }
  }

  /** And as a response. */
  lemma ResponseDecodesExactly(payload: string)
    ensures DecodeResponse(payload).Ok?
            <==> Framed(payload) && exists m :: WireEnvelope(Read(payload).value, m) && WireResponse(m)
  {
    if DecodeResponse(payload).Ok? {
      var e := DecodeResponse(payload).value;
      ResponseAccepted(payload, e);
      ResponseSpelled(e.message);
      ResponseWire(ResponseJson(e.message), e.message);
      EnvelopeWire(ResponseJson(e.message), e.keyId, e.signature);
    }
    if Framed(payload) && exists m :: WireEnvelope(Read(payload).value, m) && WireResponse(m) {
      var m :| WireEnvelope(Read(payload).value, m) && WireResponse(m);
      var r := WireResponseRead(m);
      var keyId, signature := WireEnvelopeRead(Read(payload).value, m);
      ResponseAccepted(payload, Signed(r, keyId, signature));
    }
  }

  // ----- signed texts

  /** What is signed is the domain, a zero character, and the canonical text of the message. */
  lemma {:induction false} SignedTexts(mac: string -> string, keyId: string, request: Request, response: Response, t: string)
    ensures Form(Obj(RequestJson(request)), t) ==>
              SignRequest(mac, keyId, request) == Signed(request, keyId, mac("mathews-host-request-v1\0" + t))
    ensures Form(Obj(ResponseJson(response)), t) ==>
              forall e :: VerifyResponse(mac, keyId, e).Ok? && e.message == response ==>
                e.signature == mac("mathews-host-response-v1\0" + t)
  {
    FormIsPrint(Obj(RequestJson(request)), t);
    FormIsPrint(Obj(ResponseJson(response)), t);
  }

  /** A response is believed if and only if it carries the key's own id and signature; without a collision
      of the keyed digest that means that this very response was signed. */
  lemma SignatureBindsResponse(mac: string -> string, keyId: string, otherKey: string, signed: Response, shown: Response)
    requires ValidResponse(signed) && ValidResponse(shown)
    requires mac(ResponseText(signed)) == mac(ResponseText(shown)) ==> ResponseText(signed) == ResponseText(shown)
    ensures VerifyResponse(mac, keyId, Signed(shown, otherKey, mac(ResponseText(signed))))
            == if otherKey == keyId && shown == signed then Ok(signed) else Err(Unauthenticated)
  {
    if ResponseText(signed) == ResponseText(shown) { ResponseTextInjective(signed, shown); }
  }

  lemma ResponseTextInjective(a: Response, b: Response)
    requires ValidResponse(a) && ValidResponse(b) && ResponseText(a) == ResponseText(b)
    ensures a == b
  {
    var x, y := Obj(ResponseJson(a)), Obj(ResponseJson(b));
    assert ResponseText(a)[|RESPONSE_DOMAIN|..] == Print(x);
    assert ResponseText(b)[|RESPONSE_DOMAIN|..] == Print(y);
    ResponseEncodable(a);
    ResponseEncodable(b);
    JsonRoundTrip.PrintInjective(x, y);
    ResponseForm(ResponseJson(a), a);
    ResponseForm(ResponseJson(b), b);
  }
}
