/** The policy that lets a brief through without a human: every reason against it becomes a flag. */
module BriefPolicy {
  import opened Basics
  import opened Wrappers
  import opened JsonText
  import opened RepositoryPaths

  datatype RiskLevel = Low | Medium | High

  datatype Operation = Operation(id: string, risk: RiskLevel)
  datatype Risk = Risk(id: string, level: RiskLevel)
  datatype Step = Step(operationId: string, proves: seq<string>)

  datatype Draft = Draft(
    paths: seq<string>, operations: seq<Operation>, scopeExpansion: bool, risks: seq<Risk>, criteria: seq<string>,
    plan: seq<Step>, ambiguities: seq<string>)

  datatype Evaluation = Evaluation(accepted: bool, flags: seq<string>, hours: int)

  const DEFAULT_HOURS := 24
  const BUILT_IN := [".github/workflows", "Package.resolved", "package-lock.json", "pyproject.toml", "uv.lock"]
  const POLICY_FIELDS := {"schema_version", "preallowed_operations", "sensitive_path_prefixes", "approval_lifetime_hours"}

  // ----- the stored policy, taken as it comes

  predicate IdentifierChar(c: char) {
    'a' <= c <= 'z' || 'A' <= c <= 'Z' || '0' <= c <= '9' || c in "._:/-"
  }

  predicate Identifier(s: string) {
    1 <= |s| <= 128 && s[0] !in "._:/-" && forall c <- s :: IdentifierChar(c)
  }

  function TextsOf(items: seq<Json>): seq<string> {
    if items == [] then []
    else (if items[0].Str? then [items[0].s] else []) + TextsOf(items[1..])
  }

  /** The operations that need no approval; anything malformed allows none. */
  function Preallowed(j: Json): set<string> {
    if !j.Arr? || |j.items| > 100 then {}
    else
      var ids := TextsOf(j.items);
      if |ids| != |j.items| || !Distinct(ids) || exists s <- ids :: !Identifier(s) then {} else set s <- ids
  }

  function PathsOf(texts: seq<string>): Option<seq<string>> {
    if texts == [] then Some([])
    else
      var first :- BriefPath(texts[0]);
      var rest :- PathsOf(texts[1..]);
      Some([first] + rest)
  }

  function SensitivePrefixes(j: Json): Option<seq<string>> {
    if !j.Arr? || |j.items| > 100 then None
    else
      var paths :- PathsOf(TextsOf(j.items));
      if |paths| != |j.items| || !Distinct(paths) then None else Some(paths)
  }

  function Hours(j: Json): Option<int> {
    if j.Num? && 1 <= j.n <= 168 then Some(j.n) else None
  }

  /** The version compares equal to the number one, which the boolean true does as well. */
  predicate PolicyShaped(raw: Option<Json>) {
    && raw.Some? && raw.value.Obj? && raw.value.fields.Keys == POLICY_FIELDS
    && (raw.value.fields["schema_version"] == Num(1) || raw.value.fields["schema_version"] == Bool(true))
  }

  datatype Policy = Policy(preallowed: set<string>, sensitive: Option<seq<string>>, hours: Option<int>)

  function ReadPolicy(raw: Option<Json>): Policy {
    if !PolicyShaped(raw) then Policy({}, None, None)
    else Policy(Preallowed(raw.value.fields["preallowed_operations"]),
                SensitivePrefixes(raw.value.fields["sensitive_path_prefixes"]),
                Hours(raw.value.fields["approval_lifetime_hours"]))
  }

  predicate PolicyComplete(p: Policy) {
    p.preallowed != {} && p.sensitive.Some? && p.hours.Some?
  }

  function Sensitive(p: Policy, prohibited: seq<string>): seq<string> {
    BUILT_IN + (if p.sensitive.Some? then p.sensitive.value else []) + prohibited
  }

  // ----- flags

  predicate Touches(path: string, sensitive: seq<string>) {
    exists s <- sensitive :: PathScopesOverlap(path, s)
  }

  function PathFlags(paths: seq<string>, sensitive: seq<string>): seq<string>
    decreases |paths|
  {
    if paths == [] then []
    else
      var last := paths[|paths| - 1];
      PathFlags(paths[..|paths| - 1], sensitive) + if Touches(last, sensitive) then ["SENSITIVE_PATH:" + last] else []
  }

  function OperationFlags(operations: seq<Operation>, preallowed: set<string>): seq<string>
    decreases |operations|
  {
    if operations == [] then []
    else
      var last := operations[|operations| - 1];
      OperationFlags(operations[..|operations| - 1], preallowed)
      + (if last.id in preallowed then [] else ["OPERATION_NOT_PREALLOWED:" + last.id])
      + (if last.risk.Low? then [] else ["OPERATION_RISK_NOT_LOW:" + last.id])
  }

  function RiskFlags(risks: seq<Risk>): seq<string>
    decreases |risks|
  {
    if risks == [] then []
    else
      var last := risks[|risks| - 1];
      RiskFlags(risks[..|risks| - 1]) + if last.level.Low? then [] else ["RISK_NOT_LOW:" + last.id]
  }

  function HeadFlags(d: Draft, p: Policy, configurationValid: bool): seq<string> {
    d.ambiguities
    + (if d.scopeExpansion then ["SCOPE_EXPANSION"] else [])
    + (if configurationValid then [] else ["REPOSITORY_CONFIGURATION_INVALID"])
    + (if PolicyComplete(p) then [] else ["POLICY_CONFIGURATION_INVALID"])
  }

  function AllFlags(d: Draft, p: Policy, prohibited: seq<string>, configurationValid: bool): seq<string> {
    HeadFlags(d, p, configurationValid) + PathFlags(d.paths, Sensitive(p, prohibited))
    + OperationFlags(d.operations, p.preallowed) + RiskFlags(d.risks)
  }

  /** Each flag once, in the order of first appearance. */
  function Unique(flags: seq<string>): (u: seq<string>)
    ensures forall f :: f in u <==> f in flags
    ensures Distinct(u)
    decreases |flags|
  {
    if flags == [] then []
    else
      var init, last := Unique(flags[..|flags| - 1]), flags[|flags| - 1];
      assert flags == flags[..|flags| - 1] + [last];
      if last in init then init else init + [last]
  }

  method FlagPaths(before: seq<string>, paths: seq<string>, sensitive: seq<string>) returns (flags: seq<string>)
    ensures flags == before + PathFlags(paths, sensitive)
  {
    flags := before;
    for i := 0 to |paths|
      invariant flags == before + PathFlags(paths[..i], sensitive)
    {
      assert paths[..i + 1][..i] == paths[..i];
      if Touches(paths[i], sensitive) { flags := flags + ["SENSITIVE_PATH:" + paths[i]]; }
    }
    assert paths[..|paths|] == paths;
  }

  method FlagOperations(before: seq<string>, operations: seq<Operation>, preallowed: set<string>) returns (flags: seq<string>)
    ensures flags == before + OperationFlags(operations, preallowed)
  {
    flags := before;
    for i := 0 to |operations|
      invariant flags == before + OperationFlags(operations[..i], preallowed)
    {
      assert operations[..i + 1][..i] == operations[..i];
      var operation := operations[i];
      if operation.id !in preallowed { flags := flags + ["OPERATION_NOT_PREALLOWED:" + operation.id]; }
      if !operation.risk.Low? { flags := flags + ["OPERATION_RISK_NOT_LOW:" + operation.id]; }
    }
    assert operations[..|operations|] == operations;
  }

  method FlagRisks(before: seq<string>, risks: seq<Risk>) returns (flags: seq<string>)
    ensures flags == before + RiskFlags(risks)
  {
    flags := before;
    for i := 0 to |risks|
      invariant flags == before + RiskFlags(risks[..i])
    {
      assert risks[..i + 1][..i] == risks[..i];
      if !risks[i].level.Low? { flags := flags + ["RISK_NOT_LOW:" + risks[i].id]; }
    }
    assert risks[..|risks|] == risks;
  }

  method FlagHead(d: Draft, p: Policy, configurationValid: bool) returns (flags: seq<string>)
    ensures flags == HeadFlags(d, p, configurationValid)
  {
    flags := d.ambiguities;
    if d.scopeExpansion { flags := flags + ["SCOPE_EXPANSION"]; }
    if !configurationValid { flags := flags + ["REPOSITORY_CONFIGURATION_INVALID"]; }
    if !PolicyComplete(p) { flags := flags + ["POLICY_CONFIGURATION_INVALID"]; }
  }

  lemma {:induction false} UniqueEmpty(flags: seq<string>)
    ensures Unique(flags) == [] <==> flags == []
  {
    if flags != [] { assert flags[0] in flags && flags[0] in Unique(flags); }
  }

  /** Collects the flags; a brief without any is accepted by the policy. */
  method Evaluate(d: Draft, raw: Option<Json>, prohibited: seq<string>, configurationValid: bool) returns (e: Evaluation)
    ensures var p := ReadPolicy(raw);
            var flags := AllFlags(d, p, prohibited, configurationValid);
            && e.flags == Unique(flags) && (e.accepted <==> flags == [])
            && e.hours == if p.hours.Some? then p.hours.value else DEFAULT_HOURS
  {
    var p := ReadPolicy(raw);
    var flags := FlagHead(d, p, configurationValid);
    flags := FlagPaths(flags, d.paths, Sensitive(p, prohibited));
    flags := FlagOperations(flags, d.operations, p.preallowed);
    flags := FlagRisks(flags, d.risks);
    UniqueEmpty(flags);
    var unique := Unique(flags);
    e := Evaluation(unique == [], unique, if p.hours.Some? then p.hours.value else DEFAULT_HOURS);
  }

  /** Every step of the test plan stays inside the scope, and together the steps prove every criterion. */
  method ValidateBindings(d: Draft) returns (ok: bool)
    ensures ok <==> && (forall s <- d.plan :: (exists o <- d.operations :: o.id == s.operationId)
                                              && forall c <- s.proves :: c in d.criteria)
                    && (forall c <- d.criteria :: exists s <- d.plan :: c in s.proves)
  {
    var operations := set o <- d.operations :: o.id;
    var criteria := set c <- d.criteria;
    var proven: set<string> := {};
    for i := 0 to |d.plan|
      invariant forall k :: 0 <= k < i ==>
        (exists o <- d.operations :: o.id == d.plan[k].operationId) && forall c <- d.plan[k].proves :: c in d.criteria
      invariant forall c :: c in proven <==> exists k :: 0 <= k < i && c in d.plan[k].proves
      invariant proven <= criteria
    {
      var step := d.plan[i];
      assert step in d.plan;
      if step.operationId !in operations { return false; }
      var proves := set c <- step.proves;
      if !(proves <= criteria) {
        var c :| c in proves && c !in criteria;
        assert c in step.proves && c !in d.criteria;
        return false;
      }
      forall c <- step.proves ensures c in d.criteria { assert c in proves; }
      proven := proven + proves;
      forall c ensures c in proven <==> exists k :: 0 <= k < i + 1 && c in d.plan[k].proves {
        if c in step.proves { assert c in d.plan[i].proves; }
      }
    }
    ok := proven == criteria;
    if ok {
      forall c <- d.criteria ensures exists s <- d.plan :: c in s.proves {
        assert c in proven;
        var k :| 0 <= k < |d.plan| && c in d.plan[k].proves;
        assert d.plan[k] in d.plan;
      }
    } else {
      var c :| c in criteria && c !in proven;
      assert c in d.criteria;
    }
  }

  // ----- what acceptance means

  lemma {:induction false} PathFlagsNone(paths: seq<string>, sensitive: seq<string>)
    ensures PathFlags(paths, sensitive) == [] <==> forall p <- paths :: !Touches(p, sensitive)
    decreases |paths|
  {
    if paths != [] {
      var init, last := paths[..|paths| - 1], paths[|paths| - 1];
      PathFlagsNone(init, sensitive);
      assert paths == init + [last];
    }
  }

  lemma {:induction false} OperationFlagsNone(operations: seq<Operation>, preallowed: set<string>)
    ensures OperationFlags(operations, preallowed) == [] <==> forall o <- operations :: o.id in preallowed && o.risk.Low?
    decreases |operations|
  {
    if operations != [] {
      var init, last := operations[..|operations| - 1], operations[|operations| - 1];
      OperationFlagsNone(init, preallowed);
      assert operations == init + [last];
    }
  }

  lemma {:induction false} RiskFlagsNone(risks: seq<Risk>)
    ensures RiskFlags(risks) == [] <==> forall r <- risks :: r.level.Low?
    decreases |risks|
  {
    if risks != [] {
      var init, last := risks[..|risks| - 1], risks[|risks| - 1];
      RiskFlagsNone(init);
      assert risks == init + [last];
    }
  }

  /** A brief passes without a human exactly when nothing about it is ambiguous or expanding, the
      configuration and the policy are complete, every path avoids every sensitive one, and every
      operation is preallowed and low-risk like every risk. */
  lemma AcceptedExactly(d: Draft, p: Policy, prohibited: seq<string>, configurationValid: bool)
    ensures AllFlags(d, p, prohibited, configurationValid) == []
            <==> && d.ambiguities == [] && !d.scopeExpansion && configurationValid && PolicyComplete(p)
                 && (forall path <- d.paths :: !Touches(path, Sensitive(p, prohibited)))
                 && (forall o <- d.operations :: o.id in p.preallowed && o.risk.Low?)
                 && (forall r <- d.risks :: r.level.Low?)
  {
    PathFlagsNone(d.paths, Sensitive(p, prohibited));
    OperationFlagsNone(d.operations, p.preallowed);
    RiskFlagsNone(d.risks);
  }

  /** No scope path of an accepted brief contains or lies under a prohibited path of the repository,
      component by component, unless the scope is the whole repository. */
  lemma AcceptedAvoids(d: Draft, p: Policy, prohibited: seq<string>, path: string, denied: string)
    requires AllFlags(d, p, prohibited, true) == [] && path in d.paths && denied in prohibited
    requires RelativeRepositoryPath(denied) && exists v :: BriefPath(v) == Some(path)
    ensures !Comparable(Parts(path), Parts(denied)) <==> path != "."
  {
    AcceptedExactly(d, p, prohibited, true);
    assert denied in Sensitive(p, prohibited) && !PathScopesOverlap(path, denied);
    CanonicalIsClean(denied);
    var v :| BriefPath(v) == Some(path);
    BriefPathForm(v);
    if path == "." {
      RootParts();
    } else {
      OverlapIsComparable(path, denied);
    }
  }
}
