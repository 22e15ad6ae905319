/** The dictionary form of a compiled contract, and reading it back against the same configuration and
    brief. */
module AssertionContractJson {
  import opened Wrappers
  import opened JsonText
  import opened AssertionContract

  // ----- to a dictionary

  function KindText(k: AssertionKind): string {
    match k
    case ElementValuePresent => "ELEMENT_VALUE_PRESENT"
    case NavigationStateReached => "NAVIGATION_STATE_REACHED"
    case ExpectedNetworkResponse => "EXPECTED_NETWORK_RESPONSE"
    case ExpectedLogEvent => "EXPECTED_LOG_EVENT"
    case NoCrash => "NO_CRASH"
  }

  function BindingJson(b: Binding): map<string, Json> {
    map["acceptance_criterion_id" := Str(b.criterionId), "assertion_id" := Str(b.assertionId),
        "kind" := Str(KindText(b.kind)), "verifier_catalog_key" := Str(b.catalogKey)]
  }

  function Texts(ts: seq<string>): (js: seq<Json>)
    ensures |js| == |ts| && forall i :: 0 <= i < |ts| ==> js[i] == Str(ts[i])
  {
    seq(|ts|, i requires 0 <= i < |ts| => Str(ts[i]))
  }

  function BindingsJson(bs: seq<Binding>): (js: seq<Json>)
    ensures |js| == |bs| && forall i :: 0 <= i < |bs| ==> js[i] == Obj(BindingJson(bs[i]))
  {
    seq(|bs|, i requires 0 <= i < |bs| => Obj(BindingJson(bs[i])))
  }

  function IdentityJson(c: Contract): map<string, Json> {
    map["schema_version" := Num(SCHEMA_VERSION), "configuration_id" := Str(c.configurationId),
        "configuration_version" := Num(c.configurationVersion), "configuration_digest" := Str(c.configurationDigest)]
  }

  function BriefJson(c: Contract): map<string, Json> {
    map["task_id" := Str(c.taskId), "brief_id" := Str(c.briefId), "approval_decision_id" := Str(c.decisionId),
        "brief_version" := Num(c.briefVersion), "brief_digest" := Str(c.briefDigest)]
  }

  function FlowJson(f: Flow): map<string, Json> {
    map["flow_id" := Str(f.flowId), "flow_version" := Num(f.flowVersion), "fixture_id" := Str(f.fixtureId),
        "fixture_version" := Num(f.fixtureVersion), "fixture_digest" := Str(f.fixtureDigest),
        "required_assertion_ids" := Arr(Texts(f.requiredAssertionIds))]
  }

  function BoundJson(c: Contract): map<string, Json> {
    map["acceptance_criterion_ids" := Arr(Texts(c.criterionIds)), "bindings" := Arr(BindingsJson(c.bindings))]
  }

  function ToDict(c: Contract): map<string, Json> {
    IdentityJson(c) + BriefJson(c) + FlowJson(c.flow) + BoundJson(c)
  }

  // ----- from a dictionary; parse reads the text of a UUID and gives its canonical text

  const IDENTITY_FIELDS := {"schema_version", "configuration_id", "configuration_version", "configuration_digest"}
  const BRIEF_FIELDS := {"task_id", "brief_id", "approval_decision_id", "brief_version", "brief_digest"}
  const FLOW_FIELDS := {
    "flow_id", "flow_version", "fixture_id", "fixture_version", "fixture_digest", "required_assertion_ids"}
  const BOUND_FIELDS := {"acceptance_criterion_ids", "bindings"}
  const BINDING_FIELDS := {"acceptance_criterion_id", "assertion_id", "kind", "verifier_catalog_key"}

  function Text(j: Json): Option<string> { if j.Str? then Some(j.s) else None }

  function Integer(j: Json): Option<int> { if j.Num? then Some(j.n) else None }

  function Items(j: Json): Option<seq<Json>> { if j.Arr? then Some(j.items) else None }

  function TextItems(js: seq<Json>): Option<seq<string>>
    decreases |js|
  {
    if js == [] then Some([])
    else
      var init :- TextItems(js[..|js| - 1]);
      var last :- Text(js[|js| - 1]);
      Some(init + [last])
  }

  function TextTuple(j: Json): Option<seq<string>> {
    var items :- Items(j);
    TextItems(items)
  }

  function KindFrom(j: Json): Option<AssertionKind> {
    var t :- Text(j);
    if t == "ELEMENT_VALUE_PRESENT" then Some(ElementValuePresent)
    else if t == "NAVIGATION_STATE_REACHED" then Some(NavigationStateReached)
    else if t == "EXPECTED_NETWORK_RESPONSE" then Some(ExpectedNetworkResponse)
    else if t == "EXPECTED_LOG_EVENT" then Some(ExpectedLogEvent)
    else if t == "NO_CRASH" then Some(NoCrash)
    else None
  }

  function BindingFrom(j: Json): Option<Binding> {
    if !j.Obj? || j.fields.Keys != BINDING_FIELDS then None
    else
      var criterion :- Text(j.fields["acceptance_criterion_id"]);
      var assertion :- Text(j.fields["assertion_id"]);
      var kind :- KindFrom(j.fields["kind"]);
      var key :- Text(j.fields["verifier_catalog_key"]);
      var b := Binding(criterion, assertion, kind, key);
      if BindingWellFormed(b) then Some(b) else None
  }

  function BindingItems(js: seq<Json>): Option<seq<Binding>>
    decreases |js|
  {
    if js == [] then Some([])
    else
      var init :- BindingItems(js[..|js| - 1]);
      var last :- BindingFrom(js[|js| - 1]);
      Some(init + [last])
  }

  function UuidText(parse: string -> Option<string>, j: Json): Option<string> {
    var t :- Text(j);
    parse(t)
  }

  function FlowFrom(m: map<string, Json>): Option<Flow>
    requires FLOW_FIELDS <= m.Keys
  {
    var flowId :- Text(m["flow_id"]);
    var flowVersion :- Integer(m["flow_version"]);
    var fixtureId :- Text(m["fixture_id"]);
    var fixtureVersion :- Integer(m["fixture_version"]);
    var fixtureDigest :- Text(m["fixture_digest"]);
    var required :- TextTuple(m["required_assertion_ids"]);
    Some(Flow(flowId, flowVersion, fixtureId, fixtureVersion, fixtureDigest, required))
  }

  datatype Head = Head(id: string, version: int, digest: string)
  datatype BriefHead = BriefHead(taskId: string, briefId: string, decisionId: string, version: int, digest: string)

  function HeadFrom(parse: string -> Option<string>, m: map<string, Json>): Option<Head>
    requires IDENTITY_FIELDS <= m.Keys
  {
    var schema :- Integer(m["schema_version"]);
    var id :- UuidText(parse, m["configuration_id"]);
    var version :- Integer(m["configuration_version"]);
    var digest :- Text(m["configuration_digest"]);
    if schema == SCHEMA_VERSION then Some(Head(id, version, digest)) else None
  }

  function BriefFrom(parse: string -> Option<string>, m: map<string, Json>): Option<BriefHead>
    requires BRIEF_FIELDS <= m.Keys
  {
    var taskId :- UuidText(parse, m["task_id"]);
    var briefId :- UuidText(parse, m["brief_id"]);
    var decisionId :- UuidText(parse, m["approval_decision_id"]);
    var version :- Integer(m["brief_version"]);
    var digest :- Text(m["brief_digest"]);
    Some(BriefHead(taskId, briefId, decisionId, version, digest))
  }

  function BindingsFrom(j: Json): Option<seq<Binding>> {
    var items :- Items(j);
    BindingItems(items)
  }

  function Assembled(h: Head, b: BriefHead, f: Flow, criteria: seq<string>, bindings: seq<Binding>): Contract {
    Contract(h.id, h.version, h.digest, b.taskId, b.briefId, b.decisionId, b.version, b.digest, f, criteria, bindings)
  }

  /** Any malformed field raises the one configuration error of the module. */
  function FromDict(parse: string -> Option<string>, cfg: Configuration, brief: Brief, m: map<string, Json>): Option<Contract> {
    if m.Keys != IDENTITY_FIELDS + BRIEF_FIELDS + FLOW_FIELDS + BOUND_FIELDS then None
    else
      var h :- HeadFrom(parse, m);
      var b :- BriefFrom(parse, m);
      var f :- FlowFrom(m);
      var criteria :- TextTuple(m["acceptance_criterion_ids"]);
      var bindings :- BindingsFrom(m["bindings"]);
      var c := Assembled(h, b, f, criteria, bindings);
      if WellFormed(c) && Valid(c, cfg, brief) then Some(c) else None
  }

  // ----- round trip

  lemma {:induction false} TextItemsNext(js: seq<Json>, ts: seq<string>, t: string)
    requires TextItems(js) == Some(ts)
    ensures TextItems(js + [Str(t)]) == Some(ts + [t])
  {
    assert (js + [Str(t)])[..|js|] == js;
  }

  lemma {:induction false} TextsBack(ts: seq<string>)
    ensures TextItems(Texts(ts)) == Some(ts)
    decreases |ts|
  {
    if ts == [] {
      assert Texts(ts) == [];
    } else {
      var init, last := ts[..|ts| - 1], ts[|ts| - 1];
      TextsBack(init);
      TextItemsNext(Texts(init), init, last);
      assert Texts(ts) == Texts(init) + [Str(last)] && ts == init + [last];
    }
  }

  lemma BindingBack(b: Binding)
    requires BindingWellFormed(b)
    ensures BindingFrom(Obj(BindingJson(b))) == Some(b)
  {
    assert BindingJson(b).Keys == BINDING_FIELDS;
  }

  lemma {:induction false} BindingItemsNext(js: seq<Json>, bs: seq<Binding>, j: Json, b: Binding)
    requires BindingItems(js) == Some(bs) && BindingFrom(j) == Some(b)
    ensures BindingItems(js + [j]) == Some(bs + [b])
  {
    assert (js + [j])[..|js|] == js;
  }

  lemma {:induction false} BindingsBack(bs: seq<Binding>)
    requires forall b <- bs :: BindingWellFormed(b)
    ensures BindingItems(BindingsJson(bs)) == Some(bs)
    decreases |bs|
  {
    if bs == [] {
      assert BindingsJson(bs) == [];
    } else {
      var init, last := bs[..|bs| - 1], bs[|bs| - 1];
      BindingsBack(init);
      BindingBack(last);
      BindingItemsNext(BindingsJson(init), init, Obj(BindingJson(last)), last);
      assert BindingsJson(bs) == BindingsJson(init) + [Obj(BindingJson(last))] && bs == init + [last];
    }
  }

  /** b's fields are found in m under b's keys. */
  predicate Within(b: map<string, Json>, m: map<string, Json>) {
    forall k <- b :: k in m && m[k] == b[k]
  }

  lemma IdentityBack(parse: string -> Option<string>, c: Contract, m: map<string, Json>)
    requires Within(IdentityJson(c), m) && parse(c.configurationId) == Some(c.configurationId)
    ensures IDENTITY_FIELDS <= m.Keys
    ensures HeadFrom(parse, m) == Some(Head(c.configurationId, c.configurationVersion, c.configurationDigest))
  {
    assert IdentityJson(c).Keys == IDENTITY_FIELDS;
  }

  lemma BriefBack(parse: string -> Option<string>, c: Contract, m: map<string, Json>)
    requires Within(BriefJson(c), m)
    requires parse(c.taskId) == Some(c.taskId) && parse(c.briefId) == Some(c.briefId) && parse(c.decisionId) == Some(c.decisionId)
    ensures BRIEF_FIELDS <= m.Keys
    ensures BriefFrom(parse, m) == Some(BriefHead(c.taskId, c.briefId, c.decisionId, c.briefVersion, c.briefDigest))
  {
    assert BriefJson(c).Keys == BRIEF_FIELDS;
  }

  lemma FlowBack(f: Flow, m: map<string, Json>)
    requires Within(FlowJson(f), m)
    ensures FLOW_FIELDS <= m.Keys && FlowFrom(m) == Some(f)
  {
    assert FlowJson(f).Keys == FLOW_FIELDS;
    TextsBack(f.requiredAssertionIds);
  }

  lemma BoundBack(c: Contract, m: map<string, Json>)
    requires Within(BoundJson(c), m) && forall b <- c.bindings :: BindingWellFormed(b)
    ensures BOUND_FIELDS <= m.Keys && TextTuple(m["acceptance_criterion_ids"]) == Some(c.criterionIds)
    ensures BindingsFrom(m["bindings"]) == Some(c.bindings)
  {
    assert BoundJson(c).Keys == BOUND_FIELDS;
    TextsBack(c.criterionIds);
    BindingsBack(c.bindings);
  }

  lemma FieldsApart()
    ensures IDENTITY_FIELDS !! BRIEF_FIELDS && IDENTITY_FIELDS !! FLOW_FIELDS && IDENTITY_FIELDS !! BOUND_FIELDS
    ensures BRIEF_FIELDS !! FLOW_FIELDS && BRIEF_FIELDS !! BOUND_FIELDS && FLOW_FIELDS !! BOUND_FIELDS
  {
  }

  lemma Union(a: map<string, Json>, b: map<string, Json>, f: map<string, Json>, d: map<string, Json>)
    requires a.Keys !! b.Keys && a.Keys !! f.Keys && a.Keys !! d.Keys && b.Keys !! f.Keys && b.Keys !! d.Keys && f.Keys !! d.Keys
    ensures var m := a + b + f + d;
            m.Keys == a.Keys + b.Keys + f.Keys + d.Keys && Within(a, m) && Within(b, m) && Within(f, m) && Within(d, m)
  {
  }

  lemma DictFields(c: Contract)
    ensures var m := ToDict(c);
            && m.Keys == IDENTITY_FIELDS + BRIEF_FIELDS + FLOW_FIELDS + BOUND_FIELDS
            && Within(IdentityJson(c), m) && Within(BriefJson(c), m) && Within(FlowJson(c.flow), m) && Within(BoundJson(c), m)
  {
    FieldsApart();
    assert IdentityJson(c).Keys == IDENTITY_FIELDS && BriefJson(c).Keys == BRIEF_FIELDS;
    assert FlowJson(c.flow).Keys == FLOW_FIELDS && BoundJson(c).Keys == BOUND_FIELDS;
    Union(IdentityJson(c), BriefJson(c), FlowJson(c.flow), BoundJson(c));
  }

  ghost predicate CanonicalIds(parse: string -> Option<string>, c: Contract) {
    && parse(c.configurationId) == Some(c.configurationId) && parse(c.taskId) == Some(c.taskId)
    && parse(c.briefId) == Some(c.briefId) && parse(c.decisionId) == Some(c.decisionId)
  }

  ghost predicate Reads(parse: string -> Option<string>, t: string, u: string) {
    parse(t) == Some(u)
  }

  /** Reading a UUID gives a text that reads as itself. */
  ghost predicate Normalises(parse: string -> Option<string>) {
    forall t, u :: Reads(parse, t, u) ==> Reads(parse, u, u)
  }

  lemma ReadCanonical(parse: string -> Option<string>, j: Json)
    requires Normalises(parse)
    ensures UuidText(parse, j).Some? ==> parse(UuidText(parse, j).value) == UuidText(parse, j)
  {
    if UuidText(parse, j).Some? { assert Reads(parse, j.s, UuidText(parse, j).value); }
  }

  lemma HeadCanonical(parse: string -> Option<string>, m: map<string, Json>)
    requires Normalises(parse) && IDENTITY_FIELDS <= m.Keys && HeadFrom(parse, m).Some?
    ensures var h := HeadFrom(parse, m).value; parse(h.id) == Some(h.id)
  {
    ReadCanonical(parse, m["configuration_id"]);
  }

  lemma BriefCanonical(parse: string -> Option<string>, m: map<string, Json>)
    requires Normalises(parse) && BRIEF_FIELDS <= m.Keys && BriefFrom(parse, m).Some?
    ensures var b := BriefFrom(parse, m).value;
            parse(b.taskId) == Some(b.taskId) && parse(b.briefId) == Some(b.briefId) && parse(b.decisionId) == Some(b.decisionId)
  {
    ReadCanonical(parse, m["task_id"]);
    ReadCanonical(parse, m["brief_id"]);
    ReadCanonical(parse, m["approval_decision_id"]);
  }

  /** What was read was put together from parts that could be read. */
  lemma ReadsParts(parse: string -> Option<string>, cfg: Configuration, brief: Brief, m: map<string, Json>)
    requires FromDict(parse, cfg, brief, m).Some?
    ensures IDENTITY_FIELDS <= m.Keys && BRIEF_FIELDS <= m.Keys && HeadFrom(parse, m).Some? && BriefFrom(parse, m).Some?
    ensures var c := FromDict(parse, cfg, brief, m).value;
            && WellFormed(c) && Valid(c, cfg, brief) && c.configurationId == HeadFrom(parse, m).value.id
            && c.taskId == BriefFrom(parse, m).value.taskId && c.briefId == BriefFrom(parse, m).value.briefId
            && c.decisionId == BriefFrom(parse, m).value.decisionId
  {
    assert IDENTITY_FIELDS <= m.Keys && BRIEF_FIELDS <= m.Keys && FLOW_FIELDS <= m.Keys;
  }

  /** A contract read back from its own dictionary, against the configuration and brief it is bound
      to, is the same contract. */
  lemma DictRoundTrip(parse: string -> Option<string>, cfg: Configuration, brief: Brief, c: Contract)
    requires WellFormed(c) && Valid(c, cfg, brief) && CanonicalIds(parse, c)
    ensures FromDict(parse, cfg, brief, ToDict(c)) == Some(c)
  {
    var m := ToDict(c);
    DictFields(c);
    IdentityBack(parse, c, m);
    BriefBack(parse, c, m);
    FlowBack(c.flow, m);
    BoundBack(c, m);
  }

  /** So every compiled contract survives; and nothing that reads back escapes validation. */
  lemma CompiledSurvives(parse: string -> Option<string>, cfg: Configuration, brief: Brief, pairs: seq<Pair>, m: map<string, Json>)
    requires Normalises(parse)
    requires Compile(cfg, brief, pairs).Ok? && CanonicalIds(parse, Compile(cfg, brief, pairs).value)
    ensures FromDict(parse, cfg, brief, ToDict(Compile(cfg, brief, pairs).value)) == Some(Compile(cfg, brief, pairs).value)
    ensures var r := FromDict(parse, cfg, brief, m);
            r.Some? ==> WellFormed(r.value) && Valid(r.value, cfg, brief) && CanonicalIds(parse, r.value)
                        && FromDict(parse, cfg, brief, ToDict(r.value)) == r
  {
    DictRoundTrip(parse, cfg, brief, Compile(cfg, brief, pairs).value);
    ReadsCanonical(parse, cfg, brief, m);
    var r := FromDict(parse, cfg, brief, m);
    if r.Some? { DictRoundTrip(parse, cfg, brief, r.value); }
  }

  lemma ReadsCanonical(parse: string -> Option<string>, cfg: Configuration, brief: Brief, m: map<string, Json>)
    requires Normalises(parse)
    ensures var r := FromDict(parse, cfg, brief, m);
            r.Some? ==> WellFormed(r.value) && Valid(r.value, cfg, brief) && CanonicalIds(parse, r.value)
  {
    if FromDict(parse, cfg, brief, m).Some? {
      ReadsParts(parse, cfg, brief, m);
      HeadCanonical(parse, m);
      BriefCanonical(parse, m);
    }
  }
}
