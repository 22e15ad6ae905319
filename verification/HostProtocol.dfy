/** Signed envelopes on the wire, the lease-independent identity of a request, and who may speak. */
module HostProtocol {
  import opened Wrappers
  import opened JsonText
  import opened JsonRoundTrip
  import opened JsonBounds
  import opened HostMessages
  import opened Text

  const MAX_BYTES := 1024 * 1024
  const MAX_CLOCK_SKEW_MS := 5_000
  const REQUEST_DOMAIN := "mathews-host-request-v1\0"
  const RESPONSE_DOMAIN := "mathews-host-response-v1\0"

  // ----- the wire

  lemma {:induction false} AsciiLength(s: string)
    requires Ascii(s)
    ensures Utf8Length(s) == |s|
    decreases |s|
  {
    if s != [] { AsciiLength(s[1..]); }
  }

  function RequestEnvelope(e: Signed<Request>): Json {
    Obj(EnvelopeJson(RequestJson(e.message), e.keyId, e.signature))
  }

  function ResponseEnvelope(e: Signed<Response>): Json {
    Obj(EnvelopeJson(ResponseJson(e.message), e.keyId, e.signature))
  }

  ghost function EncodeRequest(e: Signed<Request>): Result<string, Code> {
    var text := Print(RequestEnvelope(e));
    if |text| > MAX_BYTES then Err(InvalidRequest) else Ok(text)
  }

  ghost function EncodeResponse(e: Signed<Response>): Result<string, Code> {
    var text := Print(ResponseEnvelope(e));
    if |text| > MAX_BYTES then Err(InvalidResponse) else Ok(text)
  }

  function ReadFrame(payload: string): Result<map<string, Json>, Code> {
    if payload == [] || Utf8Length(payload) > MAX_BYTES then Err(InvalidFrame)
    else
      match Read(payload)
      case None => Err(InvalidFrame)
      case Some(j) => ObjectOf(j)
  }

  /** Reads an envelope whose message part is read by from. */
  ghost function DecodeEnvelope<M>(payload: string, from: map<string, Json> -> Result<M, Code>): Result<Signed<M>, Code> {
    var root :- ReadFrame(payload);
    var fields :- EnvelopeParts(root);
    var message :- from(fields);
    var (keyId, signature) :- AuthenticationOf(root);
    Ok(Signed(message, keyId, signature))
  }

  ghost function DecodeRequest(payload: string): Result<Signed<Request>, Code> {
    DecodeEnvelope(payload, RequestFrom)
  }

  ghost function DecodeResponse(payload: string): Result<Signed<Response>, Code> {
    DecodeEnvelope(payload, ResponseFrom)
  }

  lemma EnvelopeForm(m: map<string, Json>, message: map<string, Json>, keyId: string, signature: string)
    ensures EnvelopeParts(m) == Ok(message) && AuthenticationOf(m) == Ok((keyId, signature))
            <==> m == EnvelopeJson(message, keyId, signature) && Identifier(keyId) && Signature(signature)
  {
    var form := EnvelopeJson(message, keyId, signature);
    assert form.Keys == {"message", "authentication"};
    if m.Keys == form.Keys && m["message"] == form["message"] && m["authentication"] == form["authentication"] {
      assert m == form;
    }
    if EnvelopeParts(m) == Ok(message) && AuthenticationOf(m) == Ok((keyId, signature)) {
      AuthenticationForm(m["authentication"], m, keyId, signature);
    }
    if m == form && Identifier(keyId) && Signature(signature) {
      assert m["authentication"].fields.Keys == {"key_id", "signature"};
    }
  }

  lemma AuthenticationForm(j: Json, m: map<string, Json>, keyId: string, signature: string)
    requires "authentication" in m && m["authentication"] == j && AuthenticationOf(m) == Ok((keyId, signature))
    ensures j == Obj(map["key_id" := Str(keyId), "signature" := Str(signature)])
    ensures Identifier(keyId) && Signature(signature)
  {
    var a := j.fields;
    var form := map["key_id" := Str(keyId), "signature" := Str(signature)];
    assert a.Keys == form.Keys;
    assert a["key_id"] == form["key_id"] && a["signature"] == form["signature"];
    assert a == form;
  }

  lemma {:induction false} EnvelopeAccepted<M>(payload: string, from: map<string, Json> -> Result<M, Code>, e: Signed<M>,
                            valid: bool, form: map<string, Json>)
    requires forall m :: from(m) == Ok(e.message) <==> (valid && m == form)
    ensures DecodeEnvelope(payload, from) == Ok(e)
            <==> && valid && ValidSignature(e)
                 && payload != [] && Utf8Length(payload) <= MAX_BYTES
                 && Read(payload) == Some(Obj(EnvelopeJson(form, e.keyId, e.signature)))
  {
    var read := Read(payload);
    if read.Some? && read.value.Obj? {
      EnvelopeForm(read.value.fields, form, e.keyId, e.signature);
    }
  }

  /** A payload is accepted as exactly one envelope: the valid one whose JSON form it spells. */
  lemma {:induction false} RequestAccepted(payload: string, e: Signed<Request>)
    ensures DecodeRequest(payload) == Ok(e)
            <==> && ValidRequest(e.message) && ValidSignature(e)
                 && payload != [] && Utf8Length(payload) <= MAX_BYTES
                 && Read(payload) == Some(RequestEnvelope(e))
  {
    var r, form, valid := e.message, RequestJson(e.message), ValidRequest(e.message);
    forall m ensures RequestFrom(m) == Ok(r) <==> (valid && m == form) { RequestForm(m, r); }
    EnvelopeAccepted(payload, RequestFrom, e, valid, form);
  }

  lemma {:induction false} ResponseAccepted(payload: string, e: Signed<Response>)
    ensures DecodeResponse(payload) == Ok(e)
            <==> && ValidResponse(e.message) && ValidSignature(e)
                 && payload != [] && Utf8Length(payload) <= MAX_BYTES
                 && Read(payload) == Some(ResponseEnvelope(e))
  {
    var r, form, valid := e.message, ResponseJson(e.message), ValidResponse(e.message);
    forall m ensures ResponseFrom(m) == Ok(r) <==> (valid && m == form) { ResponseForm(m, r); }
    EnvelopeAccepted(payload, ResponseFrom, e, valid, form);
  }

  lemma {:induction false} BoundedEncodable(j: Json, depth: nat)
    requires Bounded(j, depth)
    ensures Encodable(j)
    decreases j
  {
    match j
    case Arr(items) =>
      forall x <- items ensures Encodable(x) { BoundedEncodable(x, depth + 1); }
    case Obj(fields) =>
      forall k <- fields ensures Encodable(fields[k]) { BoundedEncodable(fields[k], depth + 1); }
    case _ =>
  }

  lemma AuthorityEncodable(a: Authority)
    requires ValidAuthority(a)
    ensures Encodable(Obj(AuthorityJson(a)))
  {
  }

  lemma OperationEncodable(o: Operation)
    requires ValidOperation(o)
    ensures Encodable(Obj(OperationJson(o)))
  {
    OperationSpelled(o);
    BoundedEncodable(Obj(o.arguments), 0);
    ArgumentsEncodable(OperationJson(o), o);
  }

  lemma ArgumentsEncodable(m: map<string, Json>, o: Operation)
    requires SpellsOperation(m, o) && Encodable(m["arguments"])
    ensures Encodable(Obj(m))
  {
    forall k | k in m ensures Encodable(m[k]) { assert k in OPERATION_FIELDS; }
  }

  lemma RequestEncodable(r: Request)
    requires ValidRequest(r)
    ensures Encodable(Obj(RequestJson(r)))
  {
    RequestSpelled(r);
    AuthorityEncodable(r.authority);
    OperationEncodable(r.operation);
    FieldsEncodable(RequestJson(r), r);
  }

  lemma FieldsEncodable(m: map<string, Json>, r: Request)
    requires SpellsRequest(m, r) && ValidLifetime(r.issuedAtMs, r.expiresAtMs)
    requires Encodable(m["authority"]) && Encodable(m["operation"])
    ensures Encodable(Obj(m))
  {
    forall k | k in m ensures Encodable(m[k]) { assert k in REQUEST_FIELDS; }
  }

  lemma ResponseEncodable(r: Response)
    requires ValidResponse(r)
    ensures Encodable(Obj(ResponseJson(r)))
  {
    ResponseSpelled(r);
    BoundedEncodable(Obj(r.result), 0);
    ResultEncodable(ResponseJson(r), r);
  }

  lemma ResultEncodable(m: map<string, Json>, r: Response)
    requires SpellsResponse(m, r) && PositiveInt(r.completedAtMs)
    requires r.executionFencingToken.Some? ==> PositiveInt(r.executionFencingToken.value)
    requires Encodable(m["result"])
    ensures Encodable(Obj(m))
  {
    forall k | k in m ensures Encodable(m[k]) { assert k in RESPONSE_FIELDS; }
  }

  lemma EnvelopeEncodable(message: map<string, Json>, keyId: string, signature: string)
    requires Encodable(Obj(message))
    ensures Encodable(Obj(EnvelopeJson(message, keyId, signature)))
  {
  }

  /** Decoding what was encoded gives back the envelope, whatever a valid request holds. */
  lemma RequestRoundTrip(e: Signed<Request>)
    requires ValidRequest(e.message) && ValidSignature(e) && EncodeRequest(e).Ok?
    ensures DecodeRequest(EncodeRequest(e).value) == Ok(e)
  {
    var j := RequestEnvelope(e);
    RequestEncodable(e.message);
    EnvelopeEncodable(RequestJson(e.message), e.keyId, e.signature);
    ReadPrint(j);
    PrintStart(j);
    PrintAscii(j);
    AsciiLength(Print(j));
    RequestAccepted(Print(j), e);
  }

  lemma ResponseRoundTrip(e: Signed<Response>)
    requires ValidResponse(e.message) && ValidSignature(e) && EncodeResponse(e).Ok?
    ensures DecodeResponse(EncodeResponse(e).value) == Ok(e)
  {
    var j := ResponseEnvelope(e);
    ResponseEncodable(e.message);
    EnvelopeEncodable(ResponseJson(e.message), e.keyId, e.signature);
    ReadPrint(j);
    PrintStart(j);
    PrintAscii(j);
    AsciiLength(Print(j));
    ResponseAccepted(Print(j), e);
  }

  // ----- duplicate keys

  /** The reader's object hook: the fields in arrival order, or nothing once a key comes twice. */
  method CollectUnique(pairs: seq<(string, Json)>) returns (r: Option<map<string, Json>>)
    ensures r == UniqueObject(pairs)
  {
    var fields: map<string, Json> := map[];
    for n := 0 to |pairs|
      invariant UniqueObject(pairs[..n]) == Some(fields)
    {
      assert pairs[..n + 1][..n] == pairs[..n];
      if pairs[n].0 in fields {
        RefusedStays(pairs, n + 1);
        return None;
      }
      fields := fields[pairs[n].0 := pairs[n].1];
    }
    assert pairs[..|pairs|] == pairs;
    return Some(fields);
  }

  /** An object is built exactly when no key comes twice, and then holds every pair and nothing else. */
  lemma {:induction false} UniqueKeys(pairs: seq<(string, Json)>)
    ensures var r := UniqueObject(pairs);
            && (r.Some? <==> forall i, j :: 0 <= i < j < |pairs| ==> pairs[i].0 != pairs[j].0)
            && (r.Some? ==> forall k, v :: k in r.value && r.value[k] == v <==> (k, v) in pairs)
    decreases |pairs|
  {
    if pairs != [] {
      var n := |pairs| - 1;
      var init, last := pairs[..n], pairs[n];
      UniqueKeys(init);
      assert pairs == init + [last];
      if r: map<string, Json> :| UniqueObject(init) == Some(r) {
        if last.0 in r {
          assert (last.0, r[last.0]) in init;
          var i :| 0 <= i < n && init[i] == (last.0, r[last.0]);
          assert pairs[i].0 == pairs[n].0;
        } else {
          forall i | 0 <= i < n ensures pairs[i].0 != last.0 { assert init[i] in init; }
          assert UniqueObject(pairs) == Some(r[last.0 := last.1]);
        }
      } else {
        var i, j :| 0 <= i < j < n && init[i].0 == init[j].0;
        assert pairs[i].0 == pairs[j].0;
      }
    }
  }

  lemma {:induction false} RefusedStays(pairs: seq<(string, Json)>, n: nat)
    requires n <= |pairs| && UniqueObject(pairs[..n]).None?
    ensures UniqueObject(pairs).None?
    decreases |pairs|
  {
    if n < |pairs| {
      var init := pairs[..|pairs| - 1];
      assert init[..n] == pairs[..n];
      RefusedStays(init, n);
    } else {
      assert pairs[..n] == pairs;
    }
  }

  // ----- what a request means

  /** Two authorities differ at most in the lease they were claimed under. */
  predicate SameSubject(a: Authority, b: Authority) {
    match (a, b)
    case (TaskLease(t, j, _, p), TaskLease(t', j', _, p')) => t == t' && j == j' && p == p'
    case _ => a == b
  }

  /** The authority without the fields that a new lease changes. */
  function SemanticAuthority(a: Authority): map<string, Json> {
    AuthorityJson(a) - (if a.TaskLease? then LEASE_FIELDS else {})
  }

  /** Takes the lease fields out one by one. */
  method WithoutLease(a: Authority) returns (fields: map<string, Json>)
    ensures fields == SemanticAuthority(a)
  {
    fields := AuthorityJson(a);
    if a.TaskLease? {
      var keys := ["lease_id", "worker_id", "attempt", "fencing_token", "lease_expires_at_ms"];
      for i := 0 to |keys|
        invariant fields == AuthorityJson(a) - (set k <- keys[..i])
      {
        assert keys[..i + 1] == keys[..i] + [keys[i]];
        fields := fields - {keys[i]};
      }
      assert keys[..5] == keys;
      assert (set k <- keys) == LEASE_FIELDS;
    }
  }

  function SemanticJson(r: Request): Json {
    Obj(map["authority" := Obj(SemanticAuthority(r.authority)), "operation" := Obj(OperationJson(r.operation))])
  }

  /** The text that is hashed into the fingerprint. */
  ghost function SemanticPreimage(r: Request): string {
    Print(SemanticJson(r))
  }

  lemma SemanticAuthorityForm(a: Authority, b: Authority)
    ensures SemanticAuthority(a) == SemanticAuthority(b) <==> SameSubject(a, b)
  {
    var x, y := SemanticAuthority(a), SemanticAuthority(b);
    KindKept(a);
    KindKept(b);
    if a.TaskLease? && b.TaskLease? {
      SubjectKept(a);
      SubjectKept(b);
      if SameSubject(a, b) { SameSubjectSame(a, b); }
    }
  }

  lemma KindKept(a: Authority)
    ensures var x := SemanticAuthority(a);
            "kind" in x
            && x["kind"] == Str(match a case System => "SYSTEM" case Repository(_) => "REPOSITORY" case _ => "TASK_LEASE")
    ensures !a.TaskLease? ==> SemanticAuthority(a) == AuthorityJson(a)
    ensures a.Repository? ==>
      var x := SemanticAuthority(a);
      && {"repository_key", "configuration_id", "configuration_digest"} <= x.Keys
      && x["repository_key"] == Str(a.pin.repositoryKey) && x["configuration_id"] == Str(a.pin.configurationId)
      && x["configuration_digest"] == Str(a.pin.configurationDigest)
  {
  }

  lemma SubjectKept(a: Authority)
    requires a.TaskLease?
    ensures var x := SemanticAuthority(a);
            && {"task_id", "job_id", "repository_key", "configuration_id", "configuration_digest"} <= x.Keys
            && x["task_id"] == Str(a.taskId) && x["job_id"] == Str(a.jobId)
            && x["repository_key"] == Str(a.pin.repositoryKey) && x["configuration_id"] == Str(a.pin.configurationId)
            && x["configuration_digest"] == Str(a.pin.configurationDigest)
  {
  }

  lemma SameSubjectSame(a: Authority, b: Authority)
    requires a.TaskLease? && b.TaskLease? && SameSubject(a, b)
    ensures SemanticAuthority(a) == SemanticAuthority(b)
  {
    var x, y := SemanticAuthority(a), SemanticAuthority(b);
    assert AuthorityJson(a).Keys == AuthorityJson(b).Keys;
    assert x.Keys == y.Keys;
    forall k | k in x ensures x[k] == y[k] { }
  }

  lemma SubsetEncodable(m: map<string, Json>, keys: set<string>)
    requires Encodable(Obj(m))
    ensures Encodable(Obj(m - keys))
  {
    forall k | k in m - keys ensures Encodable((m - keys)[k]) { assert k in m && Encodable(m[k]); }
  }

  lemma {:induction false} PairEncodable(a: Json, o: Json)
    requires Encodable(a) && Encodable(o)
    ensures Encodable(Obj(map["authority" := a, "operation" := o]))
  {
  }

  lemma SemanticEncodable(r: Request)
    requires ValidRequest(r)
    ensures Encodable(SemanticJson(r))
  {
    AuthorityEncodable(r.authority);
    OperationEncodable(r.operation);
    SubsetEncodable(AuthorityJson(r.authority), if r.authority.TaskLease? then LEASE_FIELDS else {});
    PairEncodable(Obj(SemanticAuthority(r.authority)), Obj(OperationJson(r.operation)));
  }

  lemma OperationJsonInjective(a: Operation, b: Operation)
    requires OperationJson(a) == OperationJson(b)
    ensures a == b
  {
    var x, y := OperationJson(a), OperationJson(b);
    assert x["name"] == y["name"] && x["idempotency_key"] == y["idempotency_key"] && x["arguments"] == y["arguments"];
  }

  /** Two requests hash the same text exactly when they ask for the same operation on behalf of the
      same subject; the lease, worker, attempt, token and expiry never matter, nor do id and times. */
  lemma SemanticIdentity(a: Request, b: Request)
    requires ValidRequest(a) && ValidRequest(b)
    ensures SemanticPreimage(a) == SemanticPreimage(b)
            <==> SameSubject(a.authority, b.authority) && a.operation == b.operation
  {
    SemanticAuthorityForm(a.authority, b.authority);
    if SemanticPreimage(a) == SemanticPreimage(b) {
      SemanticEncodable(a);
      SemanticEncodable(b);
      PrintInjective(SemanticJson(a), SemanticJson(b));
      assert SemanticJson(a).fields["authority"] == SemanticJson(b).fields["authority"];
      assert SemanticJson(a).fields["operation"] == SemanticJson(b).fields["operation"];
      OperationJsonInjective(a.operation, b.operation);
    }
  }

  // ----- signatures; mac stands for the keyed digest in URL-safe text

  ghost function RequestText(r: Request): string {
    REQUEST_DOMAIN + Print(Obj(RequestJson(r)))
  }

  ghost function ResponseText(r: Response): string {
    RESPONSE_DOMAIN + Print(Obj(ResponseJson(r)))
  }

  ghost function SignRequest(mac: string -> string, keyId: string, r: Request): Signed<Request> {
    Signed(r, keyId, mac(RequestText(r)))
  }

  ghost function VerifyRequest(mac: string -> string, keyId: string, e: Signed<Request>, now: int): Result<Request, Code> {
    if e.keyId != keyId || e.signature != mac(RequestText(e.message)) then Err(Unauthenticated)
    else if e.message.issuedAtMs > now + MAX_CLOCK_SKEW_MS then Err(RequestExpired)
    else if now >= e.message.expiresAtMs then Err(RequestExpired)
    else if e.message.authority.TaskLease? && now >= e.message.authority.lease.expiresAtMs then Err(LeaseExpired)
    else Ok(e.message)
  }

  ghost function VerifyResponse(mac: string -> string, keyId: string, e: Signed<Response>): Result<Response, Code> {
    if e.keyId != keyId || e.signature != mac(ResponseText(e.message)) then Err(Unauthenticated) else Ok(e.message)
  }

  ghost predicate NoCollision(mac: string -> string, x: string, y: string) {
    mac(x) == mac(y) ==> x == y
  }

  /** The moments at which a request may be served. */
  predicate Timely(r: Request, now: int) {
    r.issuedAtMs - MAX_CLOCK_SKEW_MS <= now < r.expiresAtMs
    && (r.authority.TaskLease? ==> now < r.authority.lease.expiresAtMs)
  }

  lemma RequestTextInjective(a: Request, b: Request)
    requires ValidRequest(a) && ValidRequest(b) && RequestText(a) == RequestText(b)
    ensures a == b
  {
    var x, y := Obj(RequestJson(a)), Obj(RequestJson(b));
    assert RequestText(a)[|REQUEST_DOMAIN|..] == Print(x);
    assert RequestText(b)[|REQUEST_DOMAIN|..] == Print(y);
    RequestEncodable(a);
    RequestEncodable(b);
    PrintInjective(x, y);
    RequestForm(RequestJson(a), a);
    RequestForm(RequestJson(b), b);
  }

  lemma Checked(mac: string -> string, keyId: string, shown: Request, x: string, y: string, now: int)
    requires y == RequestText(shown) && NoCollision(mac, x, y)
    ensures VerifyRequest(mac, keyId, Signed(shown, keyId, mac(x)), now).Ok? <==> x == y && Timely(shown, now)
  {
  }

  /** A signature made for one request passes for another only if they are the same request, at a
      moment within its lifetime and lease; carrying it through the wire changes nothing. */
  lemma SignatureBindsRequest(mac: string -> string, keyId: string, signed: Request, shown: Request, now: int)
    requires ValidRequest(signed) && ValidRequest(shown)
    requires NoCollision(mac, RequestText(signed), RequestText(shown))
    ensures VerifyRequest(mac, keyId, Signed(shown, keyId, SignRequest(mac, keyId, signed).signature), now).Ok?
            <==> shown == signed && Timely(signed, now)
  {
    var x, y := RequestText(signed), RequestText(shown);
    if x == y { RequestTextInjective(signed, shown); }
    Checked(mac, keyId, shown, x, y, now);
  }

  /** No request signature passes for a response. */
  lemma DomainsSeparate(mac: string -> string, keyId: string, request: Request, response: Response)
    requires NoCollision(mac, RequestText(request), ResponseText(response))
    ensures VerifyResponse(mac, keyId, Signed(response, keyId, SignRequest(mac, keyId, request).signature))
            == Err(Unauthenticated)
  {
    assert RequestText(request)[15] == 'q';
    assert ResponseText(response)[15] == 's';
  }
}
