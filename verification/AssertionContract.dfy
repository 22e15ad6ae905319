/** Compiling a task's assertion selections into a contract bound to one repository configuration and
    one accepted brief. */
module AssertionContract {
  import opened Basics
  import opened Wrappers
  import opened JsonText

  const MAX_CRITERIA := 64
  const MAX_BINDINGS := 256
  const SCHEMA_VERSION := 1

  datatype AssertionKind = ElementValuePresent | NavigationStateReached | ExpectedNetworkResponse | ExpectedLogEvent | NoCrash
  datatype Role = FlowBaseline | TaskSelectable

  datatype CatalogEntry = CatalogEntry(assertionId: string, kind: AssertionKind, role: Role, catalogKey: string)

  datatype Flow = Flow(
    flowId: string, flowVersion: int, fixtureId: string, fixtureVersion: int, fixtureDigest: string,
    requiredAssertionIds: seq<string>)

  /** flows are those of the configured simulator operations. */
  datatype Configuration = Configuration(
    id: string, version: int, digest: string, catalog: seq<CatalogEntry>, flows: seq<Flow>)

  datatype Requirement = Requirement(criterionId: string, assertionIds: seq<string>)

  datatype Brief = Brief(
    taskId: string, briefId: string, decisionId: string, version: int, digest: string, requirements: seq<Requirement>)

  datatype Binding = Binding(criterionId: string, assertionId: string, kind: AssertionKind, catalogKey: string)

  datatype Contract = Contract(
    configurationId: string, configurationVersion: int, configurationDigest: string,
    taskId: string, briefId: string, decisionId: string, briefVersion: int, briefDigest: string,
    flow: Flow, criterionIds: seq<string>, bindings: seq<Binding>)

  datatype Refusal = UnknownAssertion | NotSelectable | Mismatched | NoSingleFlow | Malformed | NotBound

  type Pair = (string, string)

  // ----- text forms

  predicate IdChar(c: char) {
    'a' <= c <= 'z' || 'A' <= c <= 'Z' || '0' <= c <= '9' || c in "._:/@+-"
  }

  predicate Identifier(s: string) {
    1 <= |s| <= 255 && s[0] !in "._:/@+-" && forall c <- s :: IdChar(c)
  }

  predicate UniqueIdentifiers(s: seq<string>) {
    (forall x <- s :: Identifier(x)) && Distinct(s)
  }

  // ----- grouping and ordering

  function PairOf(b: Binding): Pair { (b.criterionId, b.assertionId) }

  function PairsOf(bs: seq<Binding>): (ps: seq<Pair>)
    ensures |ps| == |bs| && forall i :: 0 <= i < |bs| ==> ps[i] == PairOf(bs[i])
  {
    seq(|bs|, i requires 0 <= i < |bs| => PairOf(bs[i]))
  }

  /** The assertions selected for each criterion. */
  function Grouped(pairs: seq<Pair>): map<string, set<string>>
    decreases |pairs|
  {
    if pairs == [] then map[]
    else
      var m := Grouped(pairs[..|pairs| - 1]);
      var (c, a) := pairs[|pairs| - 1];
      m[c := (if c in m then m[c] else {}) + {a}]
  }

  /** The assertions that a brief requires for each criterion. */
  function Required(requirements: seq<Requirement>): map<string, set<string>>
    decreases |requirements|
  {
    if requirements == [] then map[]
    else
      var last := requirements[|requirements| - 1];
      Required(requirements[..|requirements| - 1])[last.criterionId := set a <- last.assertionIds]
  }

  function CriterionIds(requirements: seq<Requirement>): (ids: seq<string>)
    ensures |ids| == |requirements|
    ensures forall i :: 0 <= i < |ids| ==> ids[i] == requirements[i].criterionId
  {
    seq(|requirements|, i requires 0 <= i < |requirements| => requirements[i].criterionId)
  }

  predicate PairBefore(a: Pair, b: Pair) {
    Before(a.0, b.0) || (a.0 == b.0 && Before(a.1, b.1))
  }

  /** Inserts b behind everything that does not come after it. */
  function Insert(b: Binding, bs: seq<Binding>): seq<Binding>
    decreases |bs|
  {
    if bs == [] then [b]
    else if PairBefore(PairOf(b), PairOf(bs[0])) then [b] + bs
    else [bs[0]] + Insert(b, bs[1..])
  }

  /** A stable sort by criterion, then assertion. */
  function SortBindings(bs: seq<Binding>): seq<Binding>
    decreases |bs|
  {
    if bs == [] then [] else Insert(bs[|bs| - 1], SortBindings(bs[..|bs| - 1]))
  }

  // ----- well-formed contracts

  predicate FlowWellFormed(f: Flow) {
    && 0 < f.flowVersion && 0 < f.fixtureVersion && Digest(f.fixtureDigest)
    && Identifier(f.flowId) && Identifier(f.fixtureId)
    && 1 <= |f.requiredAssertionIds| <= MAX_BINDINGS && UniqueIdentifiers(f.requiredAssertionIds)
  }

  predicate BindingWellFormed(b: Binding) {
    Identifier(b.criterionId) && Identifier(b.assertionId) && Identifier(b.catalogKey)
  }

  /** The checks a contract makes on itself. */
  predicate WellFormed(c: Contract) {
    && 0 < c.configurationVersion && 0 < c.briefVersion && Digest(c.configurationDigest) && Digest(c.briefDigest)
    && FlowWellFormed(c.flow)
    && 1 <= |c.criterionIds| <= MAX_CRITERIA && UniqueIdentifiers(c.criterionIds)
    && 1 <= |c.bindings| <= MAX_BINDINGS && (forall b <- c.bindings :: BindingWellFormed(b))
    && Distinct(PairsOf(c.bindings)) && c.bindings == SortBindings(c.bindings)
    && (set b <- c.bindings :: b.criterionId) == (set i <- c.criterionIds)
  }

  /** The catalog as a dictionary: the last entry of an id counts. */
  function Find(catalog: seq<CatalogEntry>, id: string): (r: Option<CatalogEntry>)
    ensures r.Some? ==> r.value in catalog && r.value.assertionId == id
    decreases |catalog|
  {
    if catalog == [] then None
    else if catalog[|catalog| - 1].assertionId == id then Some(catalog[|catalog| - 1])
    else Find(catalog[..|catalog| - 1], id)
  }

  predicate Matches(catalog: seq<CatalogEntry>, b: Binding) {
    var e := Find(catalog, b.assertionId);
    e.Some? && b.kind == e.value.kind && b.catalogKey == e.value.catalogKey && e.value.role.TaskSelectable?
  }

  function ConfiguredFlow(cfg: Configuration): Result<Flow, Refusal> {
    if |cfg.flows| == 1 then Ok(cfg.flows[0]) else Err(NoSingleFlow)
  }

  /** Every copied value agrees with the configuration and the brief. */
  predicate Bound(c: Contract, cfg: Configuration, brief: Brief) {
    && |cfg.flows| == 1 && c.flow == cfg.flows[0]
    && c.configurationId == cfg.id && c.configurationVersion == cfg.version && c.configurationDigest == cfg.digest
    && c.taskId == brief.taskId && c.briefId == brief.briefId && c.decisionId == brief.decisionId
    && c.briefVersion == brief.version && c.briefDigest == brief.digest
    && c.criterionIds == CriterionIds(brief.requirements)
  }

  predicate Valid(c: Contract, cfg: Configuration, brief: Brief) {
    && Bound(c, cfg, brief)
    && (forall b <- c.bindings :: Matches(cfg.catalog, b))
    && c.bindings != []
    && Grouped(PairsOf(c.bindings)) == Required(brief.requirements)
  }

  method ValidateAgainst(c: Contract, cfg: Configuration, brief: Brief) returns (ok: bool)
    ensures ok <==> Valid(c, cfg, brief)
  {
    if |cfg.flows| != 1 || !Bound(c, cfg, brief) { return false; }
    var selected: map<string, set<string>> := map[];
    for i := 0 to |c.bindings|
      invariant selected == Grouped(PairsOf(c.bindings)[..i])
      invariant forall k :: 0 <= k < i ==> Matches(cfg.catalog, c.bindings[k])
    {
      var b := c.bindings[i];
      assert b in c.bindings;
      var entry := Find(cfg.catalog, b.assertionId);
      if entry.None? { return false; }
      if b.kind != entry.value.kind || b.catalogKey != entry.value.catalogKey || !entry.value.role.TaskSelectable? { return false; }
      var before := if b.criterionId in selected then selected[b.criterionId] else {};
      selected := selected[b.criterionId := before + {b.assertionId}];
      assert PairsOf(c.bindings)[..i + 1][..i] == PairsOf(c.bindings)[..i];
    }
    assert PairsOf(c.bindings)[..|c.bindings|] == PairsOf(c.bindings);
    if |c.bindings| == 0 { return false; }
    return selected == Required(brief.requirements);
  }

  // ----- compiling

  function BindingFor(catalog: seq<CatalogEntry>, p: Pair): Result<Binding, Refusal> {
    var e := Find(catalog, p.1);
    if e.None? then Err(UnknownAssertion)
    else if !e.value.role.TaskSelectable? then Err(NotSelectable)
    else Ok(Binding(p.0, p.1, e.value.kind, e.value.catalogKey))
  }

  function Bind(catalog: seq<CatalogEntry>, pairs: seq<Pair>): (r: Result<seq<Binding>, Refusal>)
    ensures r.Err? ==> r.error.UnknownAssertion? || r.error.NotSelectable?
    decreases |pairs|
  {
    if pairs == [] then Ok([])
    else
      var bs :- Bind(catalog, pairs[..|pairs| - 1]);
      var b :- BindingFor(catalog, pairs[|pairs| - 1]);
      Ok(bs + [b])
  }

  function Draft(cfg: Configuration, brief: Brief, flow: Flow, bs: seq<Binding>): Contract {
    Contract(cfg.id, cfg.version, cfg.digest, brief.taskId, brief.briefId, brief.decisionId, brief.version, brief.digest,
             flow, CriterionIds(brief.requirements), SortBindings(bs))
  }

  function Compile(cfg: Configuration, brief: Brief, pairs: seq<Pair>): Result<Contract, Refusal> {
    var bs :- Bind(cfg.catalog, pairs);
    if Grouped(pairs) != Required(brief.requirements) then Err(Mismatched)
    else
      var flow :- ConfiguredFlow(cfg);
      var c := Draft(cfg, brief, flow, bs);
      if !WellFormed(c) then Err(Malformed)
      else if !Valid(c, cfg, brief) then Err(NotBound)
      else Ok(c)
  }

  lemma {:induction false} BindFails(catalog: seq<CatalogEntry>, pairs: seq<Pair>, n: nat, e: Refusal)
    requires n < |pairs| && Bind(catalog, pairs[..n]).Ok? && BindingFor(catalog, pairs[n]) == Err(e)
    ensures Bind(catalog, pairs) == Err(e)
    decreases |pairs|
  {
    var init := pairs[..|pairs| - 1];
    if n < |init| {
      assert init[..n] == pairs[..n];
      BindFails(catalog, init, n, e);
    } else {
      assert init == pairs[..n];
    }
  }

  /** Compiles the selections in their order, stopping at the first that the catalog turns down. */
  method ForConfiguration(cfg: Configuration, brief: Brief, pairs: seq<Pair>) returns (r: Result<Contract, Refusal>)
    ensures r == Compile(cfg, brief, pairs)
  {
    var selected: map<string, set<string>> := map[];
    var bindings: seq<Binding> := [];
    for i := 0 to |pairs|
      invariant Bind(cfg.catalog, pairs[..i]) == Ok(bindings) && selected == Grouped(pairs[..i])
    {
      assert pairs[..i + 1][..i] == pairs[..i];
      var (criterion, assertion) := pairs[i];
      var entry := Find(cfg.catalog, assertion);
      if entry.None? {
        BindFails(cfg.catalog, pairs, i, UnknownAssertion);
        return Err(UnknownAssertion);
      }
      if !entry.value.role.TaskSelectable? {
        BindFails(cfg.catalog, pairs, i, NotSelectable);
        return Err(NotSelectable);
      }
      var before := if criterion in selected then selected[criterion] else {};
      selected := selected[criterion := before + {assertion}];
      bindings := bindings + [Binding(criterion, assertion, entry.value.kind, entry.value.catalogKey)];
    }
    assert pairs[..|pairs|] == pairs;
    if selected != Required(brief.requirements) { return Err(Mismatched); }
    if |cfg.flows| != 1 { return Err(NoSingleFlow); }
    var contract := Draft(cfg, brief, cfg.flows[0], bindings);
    if !WellFormed(contract) { return Err(Malformed); }
    var ok := ValidateAgainst(contract, cfg, brief);
    return if ok then Ok(contract) else Err(NotBound);
  }

  // ----- facts about grouping and sorting

  lemma {:induction false} GroupedMeans(pairs: seq<Pair>, c: string, a: string)
    ensures (c in Grouped(pairs) && a in Grouped(pairs)[c]) <==> (c, a) in pairs
    decreases |pairs|
  {
    if pairs != [] {
      var init, last := pairs[..|pairs| - 1], pairs[|pairs| - 1];
      GroupedMeans(init, c, a);
      assert pairs == init + [last];
      assert (c, a) in pairs <==> (c, a) in init || (c == last.0 && a == last.1);
    }
  }

  lemma {:induction false} GroupedInhabited(pairs: seq<Pair>)
    ensures forall c <- Grouped(pairs) :: Grouped(pairs)[c] != {}
    decreases |pairs|
  {
    if pairs != [] {
      GroupedInhabited(pairs[..|pairs| - 1]);
      var (c, a) := pairs[|pairs| - 1];
      assert a in Grouped(pairs)[c];
    }
  }

  /** The same selections group in the same way. */
  lemma {:induction false} GroupedSame(s: seq<Pair>, t: seq<Pair>)
    requires forall p :: p in s <==> p in t
    ensures Grouped(s) == Grouped(t)
  {
    GroupedWithin(s, t);
    GroupedWithin(t, s);
    forall c | c in Grouped(s) ensures Grouped(s)[c] == Grouped(t)[c] {
      forall a ensures a in Grouped(s)[c] <==> a in Grouped(t)[c] {
        GroupedMeans(s, c, a);
        GroupedMeans(t, c, a);
      }
    }
  }

  lemma {:induction false} GroupedWithin(s: seq<Pair>, t: seq<Pair>)
    requires forall p :: p in s <==> p in t
    ensures Grouped(s).Keys <= Grouped(t).Keys
  {
    GroupedInhabited(s);
    forall c | c in Grouped(s) ensures c in Grouped(t) {
      var a :| a in Grouped(s)[c];
      GroupedMeans(s, c, a);
      GroupedMeans(t, c, a);
    }
  }

  lemma {:induction false} InsertElements(b: Binding, bs: seq<Binding>)
    ensures multiset(Insert(b, bs)) == multiset(bs) + multiset{b}
    decreases |bs|
  {
    if bs != [] {
      assert bs == [bs[0]] + bs[1..];
      if !PairBefore(PairOf(b), PairOf(bs[0])) { InsertElements(b, bs[1..]); }
    }
  }

  lemma {:induction false} SortElements(bs: seq<Binding>)
    ensures multiset(SortBindings(bs)) == multiset(bs)
    decreases |bs|
  {
    if bs != [] {
      SortElements(bs[..|bs| - 1]);
      InsertElements(bs[|bs| - 1], SortBindings(bs[..|bs| - 1]));
      assert bs == bs[..|bs| - 1] + [bs[|bs| - 1]];
    }
  }

  lemma SameElements(s: seq<Binding>, t: seq<Binding>)
    requires multiset(s) == multiset(t)
    ensures forall b :: b in s <==> b in t
  {
    forall b ensures b in s <==> b in t { assert b in multiset(s) <==> b in multiset(t); }
  }

  lemma PairOrder(a: Pair, b: Pair)
    ensures !(PairBefore(a, b) && PairBefore(b, a)) && !PairBefore(a, a)
    ensures a == b || PairBefore(a, b) || PairBefore(b, a)
  {
    BeforeTotal(a.0, b.0);
    BeforeTotal(a.1, b.1);
    BeforeTotal(a.0, a.0);
    BeforeTotal(a.1, a.1);
  }

  lemma PairTransitive(a: Pair, b: Pair, c: Pair)
    requires PairBefore(a, b) && PairBefore(b, c)
    ensures PairBefore(a, c)
  {
    if Before(a.0, b.0) && Before(b.0, c.0) { BeforeTransitive(a.0, b.0, c.0); }
    if Before(a.1, b.1) && Before(b.1, c.1) { BeforeTransitive(a.1, b.1, c.1); }
  }

  ghost predicate Rising(bs: seq<Binding>) {
    forall i, j :: 0 <= i < j < |bs| ==> PairBefore(PairOf(bs[i]), PairOf(bs[j]))
  }

  /** Every other binding has another pair. */
  ghost predicate NewPair(b: Binding, bs: seq<Binding>) {
    forall x <- bs :: PairOf(x) != PairOf(b)
  }

  lemma {:induction false} InsertRising(b: Binding, bs: seq<Binding>)
    requires Rising(bs) && NewPair(b, bs)
    ensures Rising(Insert(b, bs))
    decreases |bs|
  {
    if bs != [] {
      var first := bs[0];
      assert first in bs;
      PairOrder(PairOf(b), PairOf(first));
      if PairBefore(PairOf(b), PairOf(first)) {
        BehindFirst(b, bs);
      } else {
        assert Rising(bs[1..]) && NewPair(b, bs[1..]);
        InsertRising(b, bs[1..]);
        InsertElements(b, bs[1..]);
        FirstBefore(first, b, bs[1..]);
      }
    }
  }

  lemma BehindFirst(b: Binding, bs: seq<Binding>)
    requires Rising(bs) && bs != [] && PairBefore(PairOf(b), PairOf(bs[0]))
    ensures Rising([b] + bs)
  {
    forall j | 0 <= j < |bs| ensures PairBefore(PairOf(b), PairOf(bs[j])) {
      if j > 0 { PairTransitive(PairOf(b), PairOf(bs[0]), PairOf(bs[j])); }
    }
  }

  lemma {:induction false} FirstBefore(first: Binding, b: Binding, rest: seq<Binding>)
    requires Rising([first] + rest) && PairBefore(PairOf(first), PairOf(b)) && Rising(Insert(b, rest))
    requires multiset(Insert(b, rest)) == multiset(rest) + multiset{b}
    ensures Rising([first] + Insert(b, rest))
  {
    var more := Insert(b, rest);
    forall x <- more ensures PairBefore(PairOf(first), PairOf(x)) {
      assert x in multiset(more);
      if x != b {
        assert x in rest;
        var k :| 0 <= k < |rest| && rest[k] == x;
        assert ([first] + rest)[0] == first && ([first] + rest)[k + 1] == x;
      }
    }
  }

  /** Bindings with distinct pairs come out strictly rising. */
  lemma {:induction false} SortRising(bs: seq<Binding>)
    requires Distinct(PairsOf(bs))
    ensures Rising(SortBindings(bs))
    decreases |bs|
  {
    if bs != [] {
      var init, last := bs[..|bs| - 1], bs[|bs| - 1];
      forall i, j | 0 <= i < j < |init| ensures PairsOf(init)[i] != PairsOf(init)[j] {
        assert PairsOf(init)[i] == PairsOf(bs)[i] && PairsOf(init)[j] == PairsOf(bs)[j];
      }
      SortRising(init);
      SortElements(init);
      SameElements(SortBindings(init), init);
      forall x <- SortBindings(init) ensures PairOf(x) != PairOf(last) {
        var k :| 0 <= k < |init| && init[k] == x;
        assert PairsOf(bs)[k] != PairsOf(bs)[|bs| - 1];
      }
      InsertRising(last, SortBindings(init));
    }
  }

  /** Two strictly rising lists of the same bindings are the same list. */
  lemma {:induction false} RisingUnique(s: seq<Binding>, t: seq<Binding>)
    requires Rising(s) && Rising(t) && forall b :: b in s <==> b in t
    ensures s == t
    decreases |s|
  {
    if s == [] {
      if t != [] { HasElement(t); }
    } else {
      HasElement(t);
      assert s[0] in s && s[0] in t;
      assert t[0] in s;
      SameFirst(s, t);
      TailElements(s, t);
      TailElements(t, s);
      RisingUnique(s[1..], t[1..]);
      assert s == [s[0]] + s[1..] && t == [t[0]] + t[1..];
    }
  }

  lemma HasElement(t: seq<Binding>)
    ensures (exists b :: b in t) <==> t != []
    ensures t != [] ==> t[0] in t
  {
    if t != [] { assert t[0] in t; }
  }

  lemma SameFirst(s: seq<Binding>, t: seq<Binding>)
    requires Rising(s) && Rising(t) && s != [] && t != [] && s[0] in t && t[0] in s
    ensures s[0] == t[0]
  {
    var i :| 0 <= i < |t| && t[i] == s[0];
    var j :| 0 <= j < |s| && s[j] == t[0];
    PairOrder(PairOf(s[0]), PairOf(t[0]));
    PairOrder(PairOf(t[0]), PairOf(t[0]));
  }

  lemma TailElements(s: seq<Binding>, t: seq<Binding>)
    requires Rising(s) && s != [] && t != [] && s[0] == t[0] && forall b <- s :: b in t
    ensures forall b <- s[1..] :: b in t[1..]
  {
    forall b <- s[1..] ensures b in t[1..] {
      var k :| 1 <= k < |s| && s[k] == b;
      PairOrder(PairOf(s[0]), PairOf(s[0]));
      assert b in s && b in t && b != t[0];
      var n :| 0 <= n < |t| && t[n] == b;
      assert t[1..][n - 1] == b;
    }
  }

  // ----- facts about compiling

  lemma {:induction false} BindMeans(catalog: seq<CatalogEntry>, pairs: seq<Pair>)
    ensures Bind(catalog, pairs).Ok? <==> forall p <- pairs :: BindingFor(catalog, p).Ok?
    ensures Bind(catalog, pairs).Ok? ==> PairsOf(Bind(catalog, pairs).value) == pairs
    ensures Bind(catalog, pairs).Ok? ==> forall b :: b in Bind(catalog, pairs).value <==>
              exists p :: p in pairs && BindingFor(catalog, p) == Ok(b)
    decreases |pairs|
  {
    if pairs != [] {
      var init, last := pairs[..|pairs| - 1], pairs[|pairs| - 1];
      BindMeans(catalog, init);
      assert pairs == init + [last];
      assert (forall p <- pairs :: BindingFor(catalog, p).Ok?) <==>
             (forall p <- init :: BindingFor(catalog, p).Ok?) && BindingFor(catalog, last).Ok?;
      if Bind(catalog, pairs).Ok? {
        forall b ensures b in Bind(catalog, pairs).value <==> exists p :: p in pairs && BindingFor(catalog, p) == Ok(b) {
          if p :| p in pairs && BindingFor(catalog, p) == Ok(b) {
            if p in init { assert b in Bind(catalog, init).value; }
          }
          if b in Bind(catalog, init).value {
            var p :| p in init && BindingFor(catalog, p) == Ok(b);
            assert p in pairs;
          }
        }
      }
    }
  }

  lemma PairsThrough(s: seq<Binding>, t: seq<Binding>)
    requires multiset(s) == multiset(t)
    ensures forall p :: p in PairsOf(s) <==> p in PairsOf(t)
  {
    SameElements(s, t);
    PairsWithin(s, t);
    PairsWithin(t, s);
  }

  lemma PairsWithin(s: seq<Binding>, t: seq<Binding>)
    requires forall b <- s :: b in t
    ensures forall p <- PairsOf(s) :: p in PairsOf(t)
  {
    forall p <- PairsOf(s) ensures p in PairsOf(t) {
      var i :| 0 <= i < |s| && PairsOf(s)[i] == p;
      assert s[i] in s;
      var j :| 0 <= j < |t| && t[j] == s[i];
      assert PairsOf(t)[j] == p;
    }
  }

  /** A contract that is well formed and drafted from accepted selections always validates. */
  lemma AlwaysValid(cfg: Configuration, brief: Brief, pairs: seq<Pair>)
    ensures Compile(cfg, brief, pairs) != Err(NotBound)
  {
    BindMeans(cfg.catalog, pairs);
    var bs := Bind(cfg.catalog, pairs);
    if bs.Ok? && Grouped(pairs) == Required(brief.requirements) && |cfg.flows| == 1 {
      var c := Draft(cfg, brief, cfg.flows[0], bs.value);
      SortElements(bs.value);
      SameElements(c.bindings, bs.value);
      PairsThrough(c.bindings, bs.value);
      GroupedSame(PairsOf(c.bindings), pairs);
      forall b <- c.bindings ensures Matches(cfg.catalog, b) {
        var p :| p in pairs && BindingFor(cfg.catalog, p) == Ok(b);
      }
      assert WellFormed(c) ==> Valid(c, cfg, brief);
    }
  }

  lemma DistinctCount<T>(s: seq<T>)
    ensures Distinct(s) <==> forall x :: multiset(s)[x] <= 1
  {
    if Distinct(s) { DistinctAtMostOnce(s); }
    if !Distinct(s) {
      var i, j :| 0 <= i < j < |s| && s[i] == s[j];
      Twice(s, i, j);
    }
  }

  lemma Twice<T>(s: seq<T>, i: nat, j: nat)
    requires i < j < |s| && s[i] == s[j]
    ensures multiset(s)[s[i]] >= 2
  {
    assert s == s[..i] + [s[i]] + s[i + 1..j] + [s[j]] + s[j + 1..];
  }

  lemma {:induction false} DistinctAtMostOnce<T>(s: seq<T>)
    requires Distinct(s)
    ensures forall x :: multiset(s)[x] <= 1
    decreases |s|
  {
    if s != [] {
      var init := s[..|s| - 1];
      DistinctAtMostOnce(init);
      assert s == init + [s[|s| - 1]];
      assert s[|s| - 1] !in init;
      assert s[|s| - 1] !in multiset(init);
    }
  }

  lemma PairsCons(x: Binding, bs: seq<Binding>)
    ensures PairsOf([x] + bs) == [PairOf(x)] + PairsOf(bs)
    ensures PairsOf(bs + [x]) == PairsOf(bs) + [PairOf(x)]
  {
  }

  lemma {:induction false} InsertPairs(b: Binding, bs: seq<Binding>)
    ensures multiset(PairsOf(Insert(b, bs))) == multiset(PairsOf(bs)) + multiset{PairOf(b)}
    decreases |bs|
  {
    if bs == [] {
      PairsCons(b, []);
      assert [b] + [] == [b] && PairsOf([]) == [];
    } else if PairBefore(PairOf(b), PairOf(bs[0])) {
      PairsCons(b, bs);
    } else {
      InsertPairs(b, bs[1..]);
      PairsCons(bs[0], Insert(b, bs[1..]));
      PairsCons(bs[0], bs[1..]);
      assert bs == [bs[0]] + bs[1..];
    }
  }

  lemma {:induction false} SortPairs(bs: seq<Binding>)
    ensures multiset(PairsOf(SortBindings(bs))) == multiset(PairsOf(bs))
    decreases |bs|
  {
    if bs != [] {
      var init, last := bs[..|bs| - 1], bs[|bs| - 1];
      SortPairs(init);
      InsertPairs(last, SortBindings(init));
      PairsCons(last, init);
      assert bs == init + [last];
    }
  }

  lemma {:induction false} SortedDistinct(bs: seq<Binding>)
    requires Distinct(PairsOf(SortBindings(bs)))
    ensures Distinct(PairsOf(bs))
  {
    SortPairs(bs);
    DistinctCount(PairsOf(SortBindings(bs)));
    DistinctCount(PairsOf(bs));
  }

  /** Any two orders of the same selections compile to the identical contract, or both fail. */
  lemma OrderIndependent(cfg: Configuration, brief: Brief, s: seq<Pair>, t: seq<Pair>)
    requires multiset(s) == multiset(t)
    ensures Compile(cfg, brief, s) == Compile(cfg, brief, t) || (Compile(cfg, brief, s).Err? && Compile(cfg, brief, t).Err?)
  {
    if Compile(cfg, brief, s).Ok? { SameContract(cfg, brief, s, t); }
    if Compile(cfg, brief, t).Ok? { SameContract(cfg, brief, t, s); }
  }

  lemma SameContract(cfg: Configuration, brief: Brief, s: seq<Pair>, t: seq<Pair>)
    requires multiset(s) == multiset(t) && Compile(cfg, brief, s).Ok?
    ensures Compile(cfg, brief, t) == Compile(cfg, brief, s)
  {
    forall p ensures p in s <==> p in t { assert p in multiset(s) <==> p in multiset(t); }
    GroupedSame(s, t);
    SameBindings(cfg.catalog, s, t);
  }

  lemma {:induction false} SameBindings(catalog: seq<CatalogEntry>, s: seq<Pair>, t: seq<Pair>)
    requires multiset(s) == multiset(t) && (forall p :: p in s <==> p in t)
    requires Bind(catalog, s).Ok? && Distinct(PairsOf(SortBindings(Bind(catalog, s).value)))
    ensures Bind(catalog, t).Ok? && SortBindings(Bind(catalog, t).value) == SortBindings(Bind(catalog, s).value)
  {
    BindMeans(catalog, s);
    BindMeans(catalog, t);
    var x, y := Bind(catalog, s).value, Bind(catalog, t).value;
    SortedDistinct(x);
    DistinctCount(s);
    DistinctCount(t);
    SortRising(x);
    SortRising(y);
    SortElements(x);
    SortElements(y);
    SameElements(SortBindings(x), x);
    SameElements(SortBindings(y), y);
    RisingUnique(SortBindings(x), SortBindings(y));
  }

  // ----- what a compiled contract binds

  lemma {:induction false} RequiredMeans(requirements: seq<Requirement>, c: string, a: string)
    requires Distinct(CriterionIds(requirements))
    ensures (c in Required(requirements) && a in Required(requirements)[c])
            <==> exists r :: r in requirements && r.criterionId == c && a in r.assertionIds
    decreases |requirements|
  {
    if requirements != [] {
      var n := |requirements| - 1;
      var init, last := requirements[..n], requirements[n];
      forall i, j | 0 <= i < j < |init| ensures CriterionIds(init)[i] != CriterionIds(init)[j] {
        assert CriterionIds(requirements)[i] != CriterionIds(requirements)[j];
      }
      RequiredMeans(init, c, a);
      assert requirements == init + [last];
      forall r | r in init ensures r.criterionId != last.criterionId {
        var k :| 0 <= k < n && init[k] == r;
        assert CriterionIds(requirements)[k] != CriterionIds(requirements)[n];
      }
      if r :| r in requirements && r.criterionId == c && a in r.assertionIds {
        if r != last { assert r in init; }
      }
      if r :| r in init && r.criterionId == c && a in r.assertionIds { assert r in requirements; }
    }
  }

  /** A compiled contract binds exactly the criterion/assertion pairs of the accepted brief, each once
      and with the catalog's own kind and key, and it validates. */
  lemma BindsExactly(cfg: Configuration, brief: Brief, pairs: seq<Pair>, c: string, a: string)
    requires Compile(cfg, brief, pairs).Ok?
    ensures var contract := Compile(cfg, brief, pairs).value;
            && WellFormed(contract) && Valid(contract, cfg, brief)
            && ((c, a) in PairsOf(contract.bindings)
                <==> exists r :: r in brief.requirements && r.criterionId == c && a in r.assertionIds)
  {
    var contract := Compile(cfg, brief, pairs).value;
    GroupedMeans(PairsOf(contract.bindings), c, a);
    RequiredMeans(brief.requirements, c, a);
  }

  // ----- which selections compile

  /** The pairs are those that the requirements ask for. */
  ghost predicate Lists(pairs: seq<Pair>, requirements: seq<Requirement>) {
    forall c, a :: (c, a) in pairs <==> exists r :: r in requirements && r.criterionId == c && a in r.assertionIds
  }

  lemma {:induction false} RequiredKeys(requirements: seq<Requirement>, c: string)
    ensures c in Required(requirements) <==> exists r :: r in requirements && r.criterionId == c
    decreases |requirements|
  {
    if requirements != [] {
      var init, last := requirements[..|requirements| - 1], requirements[|requirements| - 1];
      RequiredKeys(init, c);
      assert requirements == init + [last];
      if r :| r in init && r.criterionId == c { assert r in requirements; }
      if c == last.criterionId { assert last in requirements; }
    }
  }

  ghost predicate NoneEmpty(requirements: seq<Requirement>) {
    forall r <- requirements :: r.assertionIds != []
  }

  ghost predicate AllInhabited(m: map<string, set<string>>) {
    forall c <- m :: m[c] != {}
  }

  lemma {:induction false} RequiredInhabited(requirements: seq<Requirement>)
    requires Distinct(CriterionIds(requirements))
    ensures NoneEmpty(requirements) <==> AllInhabited(Required(requirements))
  {
    var m := Required(requirements);
    forall r <- requirements
      ensures r.criterionId in m && (r.assertionIds != [] <==> m[r.criterionId] != {})
    {
      OneRequired(requirements, r);
    }
    forall c <- m ensures exists r :: r in requirements && r.criterionId == c { RequiredKeys(requirements, c); }
  }

  lemma {:induction false} OneRequired(requirements: seq<Requirement>, r: Requirement)
    requires Distinct(CriterionIds(requirements)) && r in requirements
    ensures r.criterionId in Required(requirements)
    ensures r.assertionIds != [] <==> Required(requirements)[r.criterionId] != {}
  {
    RequiredKeys(requirements, r.criterionId);
    if r.assertionIds != [] {
      RequiredMeans(requirements, r.criterionId, r.assertionIds[0]);
    }
    if a :| a in Required(requirements)[r.criterionId] {
      RequiredMeans(requirements, r.criterionId, a);
      var other :| other in requirements && other.criterionId == r.criterionId && a in other.assertionIds;
      SameRequirement(requirements, r, other);
    }
  }

  lemma SameRequirement(requirements: seq<Requirement>, r: Requirement, other: Requirement)
    requires Distinct(CriterionIds(requirements)) && r in requirements && other in requirements
    requires r.criterionId == other.criterionId
    ensures r == other
  {
    var i :| 0 <= i < |requirements| && requirements[i] == r;
    var j :| 0 <= j < |requirements| && requirements[j] == other;
    assert CriterionIds(requirements)[i] == CriterionIds(requirements)[j];
  }

  /** The grouped comparison, read without the dictionaries. */
  lemma {:induction false} GroupedIsRequired(pairs: seq<Pair>, requirements: seq<Requirement>)
    requires Distinct(CriterionIds(requirements))
    ensures Grouped(pairs) == Required(requirements) <==> Lists(pairs, requirements) && NoneEmpty(requirements)
  {
    var m, n := Grouped(pairs), Required(requirements);
    GroupedInhabited(pairs);
    RequiredInhabited(requirements);
    forall c, a
      ensures (c in m && a in m[c]) <==> (c, a) in pairs
      ensures (c in n && a in n[c]) <==> exists r :: r in requirements && r.criterionId == c && a in r.assertionIds
    {
      GroupedMeans(pairs, c, a);
      RequiredMeans(requirements, c, a);
    }
    if Lists(pairs, requirements) && NoneEmpty(requirements) {
      forall c, a ensures (c in m && a in m[c]) <==> (c in n && a in n[c]) { assert (c, a) in pairs <==> c in m && a in m[c]; }
      SameMaps(m, n);
    }
  }

  lemma SameMaps(m: map<string, set<string>>, n: map<string, set<string>>)
    requires AllInhabited(m) && AllInhabited(n)
    requires forall c, a :: (c in m && a in m[c]) <==> (c in n && a in n[c])
    ensures m == n
  {
    forall c ensures c in m <==> c in n {
      if c in m {
        var a :| a in m[c];
        assert c in n && a in n[c];
      }
      if c in n {
        var a :| a in n[c];
        assert c in m && a in m[c];
      }
    }
    forall c <- m ensures m[c] == n[c] {
      forall a ensures a in m[c] <==> a in n[c] { }
    }
  }

  /** The catalog has the assertion, offers it to tasks, and both its names are in order. */
  predicate Selectable(catalog: seq<CatalogEntry>, p: Pair) {
    var e := Find(catalog, p.1);
    e.Some? && e.value.role.TaskSelectable? && Identifier(p.1) && Identifier(e.value.catalogKey)
  }

  predicate HeadsOk(cfg: Configuration, brief: Brief) {
    0 < cfg.version && 0 < brief.version && Digest(cfg.digest) && Digest(brief.digest)
  }

  predicate CriteriaOk(brief: Brief) {
    1 <= |brief.requirements| <= MAX_CRITERIA && UniqueIdentifiers(CriterionIds(brief.requirements))
  }

  lemma {:induction false} SortedAgain(bs: seq<Binding>)
    ensures Distinct(PairsOf(SortBindings(bs))) <==> Distinct(PairsOf(bs))
    ensures Distinct(PairsOf(bs)) ==> SortBindings(SortBindings(bs)) == SortBindings(bs)
  {
    SortPairs(bs);
    DistinctCount(PairsOf(SortBindings(bs)));
    DistinctCount(PairsOf(bs));
    if Distinct(PairsOf(bs)) {
      var sorted := SortBindings(bs);
      SortRising(bs);
      SortRising(sorted);
      SortElements(sorted);
      SameElements(SortBindings(sorted), sorted);
      RisingUnique(SortBindings(sorted), sorted);
    }
  }

  lemma {:induction false} BindingsOk(catalog: seq<CatalogEntry>, pairs: seq<Pair>, bs: seq<Binding>)
    requires Bind(catalog, pairs) == Ok(bs)
    ensures (forall b <- SortBindings(bs) :: BindingWellFormed(b))
            <==> forall p <- pairs :: Identifier(p.0) && Selectable(catalog, p)
  {
    BindMeans(catalog, pairs);
    SortElements(bs);
    SameElements(SortBindings(bs), bs);
    forall p <- pairs
      ensures var b := BindingFor(catalog, p).value;
              b in SortBindings(bs) && (BindingWellFormed(b) <==> Identifier(p.0) && Selectable(catalog, p))
    {
      var b := BindingFor(catalog, p).value;
      assert b in bs;
    }
    forall b <- SortBindings(bs) ensures exists p :: p in pairs && BindingFor(catalog, p) == Ok(b) { assert b in bs; }
  }

  /** The criteria of the bindings are those of the brief. */
  lemma CriteriaCovered(bs: seq<Binding>, pairs: seq<Pair>, requirements: seq<Requirement>)
    requires multiset(PairsOf(bs)) == multiset(pairs) && Lists(pairs, requirements) && NoneEmpty(requirements)
    ensures (set b <- bs :: b.criterionId) == (set i <- CriterionIds(requirements))
  {
    forall c ensures c in (set b <- bs :: b.criterionId) <==> c in CriterionIds(requirements) {
      if b :| b in bs && b.criterionId == c {
        var k :| 0 <= k < |bs| && bs[k] == b;
        assert PairsOf(bs)[k] in multiset(pairs);
        assert (c, b.assertionId) in pairs;
        var r :| r in requirements && r.criterionId == c && b.assertionId in r.assertionIds;
        var n :| 0 <= n < |requirements| && requirements[n] == r;
        assert CriterionIds(requirements)[n] == c;
      }
      if c in CriterionIds(requirements) {
        var n :| 0 <= n < |requirements| && CriterionIds(requirements)[n] == c;
        var r := requirements[n];
        assert r in requirements && r.assertionIds[0] in r.assertionIds;
        assert (c, r.assertionIds[0]) in pairs && (c, r.assertionIds[0]) in multiset(PairsOf(bs));
        var k :| 0 <= k < |bs| && PairsOf(bs)[k] == (c, r.assertionIds[0]);
        assert bs[k] in bs;
      }
    }
  }

  /** What a draft is well formed for, when its selections are those of the brief. */
  lemma {:induction false} DraftWellFormed(cfg: Configuration, brief: Brief, flow: Flow, pairs: seq<Pair>, bs: seq<Binding>)
    requires Bind(cfg.catalog, pairs) == Ok(bs) && Grouped(pairs) == Required(brief.requirements)
    ensures WellFormed(Draft(cfg, brief, flow, bs))
            <==> && HeadsOk(cfg, brief) && FlowWellFormed(flow) && CriteriaOk(brief)
                 && 1 <= |pairs| <= MAX_BINDINGS && Distinct(pairs)
                 && (forall p <- pairs :: Identifier(p.0) && Selectable(cfg.catalog, p))
  {
    BindMeans(cfg.catalog, pairs);
    BindingsOk(cfg.catalog, pairs, bs);
    SortedAgain(bs);
    SortPairs(bs);
    assert |SortBindings(bs)| == |bs| == |pairs| by { SortElements(bs); assert |multiset(SortBindings(bs))| == |multiset(bs)|; }
    if CriteriaOk(brief) {
      GroupedIsRequired(pairs, brief.requirements);
      CriteriaCovered(SortBindings(bs), pairs, brief.requirements);
    }
  }

  /** Selections compile exactly when they list the brief's pairs, each once, all offered by the catalog,
      within the size limits, for one configured flow and with every name, version and digest in order. */
  lemma CompilesExactly(cfg: Configuration, brief: Brief, pairs: seq<Pair>)
    ensures Compile(cfg, brief, pairs).Ok?
            <==> && |cfg.flows| == 1 && FlowWellFormed(cfg.flows[0]) && HeadsOk(cfg, brief) && CriteriaOk(brief)
                 && 1 <= |pairs| <= MAX_BINDINGS && Distinct(pairs)
                 && Lists(pairs, brief.requirements) && NoneEmpty(brief.requirements)
                 && (forall p <- pairs :: Selectable(cfg.catalog, p))
  {
    AlwaysValid(cfg, brief, pairs);
    BindMeans(cfg.catalog, pairs);
    var bs := Bind(cfg.catalog, pairs);
    if CriteriaOk(brief) { GroupedIsRequired(pairs, brief.requirements); }
    if bs.Ok? && Grouped(pairs) == Required(brief.requirements) && |cfg.flows| == 1 {
      DraftWellFormed(cfg, brief, cfg.flows[0], pairs, bs.value);
    }
    if CriteriaOk(brief) && Lists(pairs, brief.requirements) { PairNames(brief, pairs); }
    assert (forall p <- pairs :: Selectable(cfg.catalog, p)) ==> forall p <- pairs :: BindingFor(cfg.catalog, p).Ok?;
  }

  lemma PairNames(brief: Brief, pairs: seq<Pair>)
    requires CriteriaOk(brief) && Lists(pairs, brief.requirements)
    ensures forall p <- pairs :: Identifier(p.0)
  {
    forall p <- pairs ensures Identifier(p.0) {
      assert (p.0, p.1) in pairs;
      var r :| r in brief.requirements && r.criterionId == p.0 && p.1 in r.assertionIds;
      var n :| 0 <= n < |brief.requirements| && brief.requirements[n] == r;
      assert CriterionIds(brief.requirements)[n] == p.0;
    }
  }
}
