/** Which briefs the stored policy lets through, said of the raw policy value and the brief's own columns. */
module PolicyRules {
  import opened Basics
  import opened Wrappers
  import opened JsonText
  import opened RepositoryPaths
  import opened BriefPolicy

  predicate OperationChar(c: char) {
    c in "abcdefghijklmnopqrstuvwxyz" || c in "ABCDEFGHIJKLMNOPQRSTUVWXYZ" || c in "0123456789" || c in "._:/-"
  }

  /** A letter or digit, then up to 127 more letters, digits and marks. */
  predicate OperationId(s: string) {
    && 1 <= |s| <= 128
    && s[0] !in "._:/-" && forall c <- s :: OperationChar(c)
  }

  /** The JSON texts of an array, each once. */
  ghost predicate DistinctTexts(items: seq<Json>) {
    (forall x <- items :: x.Str?) && forall i, j :: 0 <= i < j < |items| ==> items[i] != items[j]
  }

  ghost predicate AllowsOperations(j: Json) {
    j.Arr? && 1 <= |j.items| <= 100 && DistinctTexts(j.items) && forall x <- j.items :: OperationId(x.s)
  }

  /** Every text normalises to a path, and no two to the same. */
  ghost predicate ListsPaths(j: Json) {
    && j.Arr? && |j.items| <= 100 && (forall x <- j.items :: x.Str? && BriefPath(x.s).Some?)
    && forall i, k :: 0 <= i < k < |j.items| ==> BriefPath(j.items[i].s) != BriefPath(j.items[k].s)
  }

  ghost predicate SoundPolicy(raw: Option<Json>) {
    && raw.Some? && raw.value.Obj?
    && var m := raw.value.fields;
    && m.Keys == {"schema_version", "preallowed_operations", "sensitive_path_prefixes", "approval_lifetime_hours"}
    && (m["schema_version"] == Num(1) || m["schema_version"] == Bool(true))
    && AllowsOperations(m["preallowed_operations"]) && ListsPaths(m["sensitive_path_prefixes"])
    && m["approval_lifetime_hours"].Num? && 1 <= m["approval_lifetime_hours"].n <= 168
  }

  /** One path text is the other or continues it after a slash. */
  predicate Meets(a: string, b: string) {
    || a == b
    || (|a| > |b| && a[..|b|] == b && a[|b|] == '/')
    || (|b| > |a| && b[..|a|] == a && b[|a|] == '/')
  }

  lemma MeetsIs(a: string, b: string)
    ensures Meets(a, b) <==> PathScopesOverlap(a, b)
  {
    if |a| > |b| { assert a[..|b| + 1] == a[..|b|] + [a[|b|]]; }
    if |b| > |a| { assert b[..|a| + 1] == b[..|a|] + [b[|a|]]; }
  }

  /** A path that the policy, the repository or the built-in list wants a human to see. */
  ghost predicate SensitivePath(raw: Option<Json>, prohibited: seq<string>, s: string)
    requires SoundPolicy(raw)
  {
    || s == ".github/workflows" || s == "Package.resolved" || s == "package-lock.json" || s == "pyproject.toml" || s == "uv.lock"
    || s in prohibited
    || exists x :: x in raw.value.fields["sensitive_path_prefixes"].items && BriefPath(x.s) == Some(s)
  }

  // ----- the policy as it is read

  lemma {:induction false} TextsAre(items: seq<Json>)
    ensures |TextsOf(items)| <= |items|
    ensures |TextsOf(items)| == |items| <==> forall x <- items :: x.Str?
    ensures |TextsOf(items)| == |items| ==> forall i :: 0 <= i < |items| ==> items[i].Str? && TextsOf(items)[i] == items[i].s
    ensures forall s :: s in TextsOf(items) <==> Str(s) in items
    decreases |items|
  {
    if items != [] {
      TextsAre(items[1..]);
      assert items == [items[0]] + items[1..];
    }
  }

  lemma OperationCharIs(c: char)
    ensures OperationChar(c) <==> IdentifierChar(c)
  {
  }

  lemma OperationIdIs(s: string)
    ensures OperationId(s) <==> BriefPolicy.Identifier(s)
  {
    forall c ensures OperationChar(c) <==> IdentifierChar(c) { OperationCharIs(c); }
  }

  lemma PreallowedIs(j: Json)
    ensures Preallowed(j) != {} <==> AllowsOperations(j)
    ensures AllowsOperations(j) ==> forall id :: id in Preallowed(j) <==> Str(id) in j.items
  {
    if j.Arr? {
      var ids := TextsOf(j.items);
      TextsAre(j.items);
      forall s ensures OperationId(s) <==> BriefPolicy.Identifier(s) { OperationIdIs(s); }
      if |ids| == |j.items| {
        assert Distinct(ids) <==> DistinctTexts(j.items) by { TextsDistinct(j.items, ids); }
        assert (exists s <- ids :: !BriefPolicy.Identifier(s)) <==> !forall x <- j.items :: OperationId(x.s) by {
          if s :| s in ids && !BriefPolicy.Identifier(s) { assert Str(s) in j.items && !OperationId(s); }
          if x :| x in j.items && !OperationId(x.s) { assert x == Str(x.s) && x.s in ids; }
        }
        SetOf(ids);
        if AllowsOperations(j) { assert Preallowed(j) == (set s <- ids); }
        if Preallowed(j) != {} { assert AllowsOperations(j); }
      }
    }
  }

  lemma SetOf(ids: seq<string>)
    ensures ids == [] <==> (set s <- ids) == {}
  {
    var all := set s <- ids;
    if ids == [] {
      forall s ensures s !in all { }
      assert all == {};
    } else {
      assert ids[0] in all;
    }
  }

  lemma TextsDistinct(items: seq<Json>, ids: seq<string>)
    requires |ids| == |items| && forall i :: 0 <= i < |items| ==> items[i].Str? && ids[i] == items[i].s
    ensures Distinct(ids) <==> DistinctTexts(items)
  {
    forall i, j | 0 <= i < j < |items| ensures ids[i] != ids[j] <==> items[i] != items[j] {
      assert items[i] == Str(ids[i]) && items[j] == Str(ids[j]);
    }
    if Distinct(ids) {
      forall i, j | 0 <= i < j < |items| ensures items[i] != items[j] { assert ids[i] != ids[j]; }
      forall x <- items ensures x.Str? { var i :| 0 <= i < |items| && items[i] == x; }
    }
    if DistinctTexts(items) {
      forall i, j | 0 <= i < j < |ids| ensures ids[i] != ids[j] { assert items[i] != items[j]; }
    }
  }

  lemma {:induction false} PathsAre(texts: seq<string>)
    ensures PathsOf(texts).Some? <==> forall t <- texts :: BriefPath(t).Some?
    ensures PathsOf(texts).Some? ==> |PathsOf(texts).value| == |texts|
    ensures PathsOf(texts).Some? ==> forall i :: 0 <= i < |texts| ==> BriefPath(texts[i]) == Some(PathsOf(texts).value[i])
    decreases |texts|
  {
    if texts != [] {
      var first, rest := texts[0], texts[1..];
      PathsAre(rest);
      assert texts == [first] + rest;
      assert (forall t <- texts :: BriefPath(t).Some?) <==> BriefPath(first).Some? && forall t <- rest :: BriefPath(t).Some?;
      if PathsOf(texts).Some? {
        forall i | 0 <= i < |texts| ensures BriefPath(texts[i]) == Some(PathsOf(texts).value[i]) {
          if i > 0 { assert texts[i] == rest[i - 1]; }
        }
      }
    }
  }

  lemma SensitiveIs(j: Json)
    ensures SensitivePrefixes(j).Some? <==> ListsPaths(j)
    ensures ListsPaths(j) ==> forall s :: s in SensitivePrefixes(j).value <==> exists x :: x in j.items && BriefPath(x.s) == Some(s)
  {
    if j.Arr? {
      var texts := TextsOf(j.items);
      TextsAre(j.items);
      PathsAre(texts);
      if |texts| == |j.items| {
        assert (forall t <- texts :: BriefPath(t).Some?) <==> forall x <- j.items :: BriefPath(x.s).Some? by {
          if x :| x in j.items && BriefPath(x.s).None? { assert x == Str(x.s) && x.s in texts; }
          if t :| t in texts && BriefPath(t).None? { assert Str(t) in j.items; }
        }
        if PathsOf(texts).Some? { PathsListed(j.items, texts, PathsOf(texts).value); }
      }
    }
  }

  lemma PathsListed(items: seq<Json>, texts: seq<string>, paths: seq<string>)
    requires |items| == |texts| == |paths|
    requires forall i :: 0 <= i < |items| ==> items[i].Str? && texts[i] == items[i].s && BriefPath(texts[i]) == Some(paths[i])
    ensures Distinct(paths) <==> forall i, k :: 0 <= i < k < |items| ==> BriefPath(items[i].s) != BriefPath(items[k].s)
    ensures forall s :: s in paths <==> exists x :: x in items && BriefPath(x.s) == Some(s)
  {
    forall s ensures s in paths <==> exists x :: x in items && BriefPath(x.s) == Some(s) {
      if s in paths {
        var i :| 0 <= i < |paths| && paths[i] == s;
        assert items[i] in items && BriefPath(items[i].s) == Some(s);
      }
      if x :| x in items && BriefPath(x.s) == Some(s) {
        var i :| 0 <= i < |items| && items[i] == x;
        assert paths[i] == s;
      }
    }
    if Distinct(paths) {
      forall i, k | 0 <= i < k < |items| ensures BriefPath(items[i].s) != BriefPath(items[k].s) { assert paths[i] != paths[k]; }
    }
  }

  lemma SoundIsComplete(raw: Option<Json>)
    ensures SoundPolicy(raw) <==> PolicyComplete(ReadPolicy(raw))
    ensures SoundPolicy(raw) ==> ReadPolicy(raw).hours == Some(raw.value.fields["approval_lifetime_hours"].n)
  {
    if PolicyShaped(raw) {
      PreallowedIs(raw.value.fields["preallowed_operations"]);
      SensitiveIs(raw.value.fields["sensitive_path_prefixes"]);
    }
  }

  lemma SensitivePathIs(raw: Option<Json>, prohibited: seq<string>, s: string)
    requires SoundPolicy(raw)
    ensures SensitivePath(raw, prohibited, s) <==> s in Sensitive(ReadPolicy(raw), prohibited)
  {
    SoundIsComplete(raw);
    SensitiveIs(raw.value.fields["sensitive_path_prefixes"]);
  }

  /** A brief passes without a human if and only if the stored policy is sound, the configuration valid,
      nothing is ambiguous or expanding, no path meets a sensitive one, every operation is listed and
      low-risk, and every risk is low. */
  lemma PassesExactly(d: Draft, raw: Option<Json>, prohibited: seq<string>, configurationValid: bool)
    ensures AllFlags(d, ReadPolicy(raw), prohibited, configurationValid) == []
            <==> && d.ambiguities == [] && d.scopeExpansion == false && configurationValid == true && SoundPolicy(raw)
                 && (forall path, s :: path in d.paths && SensitivePath(raw, prohibited, s) ==> !Meets(path, s))
                 && (forall o :: o in d.operations ==> Str(o.id) in raw.value.fields["preallowed_operations"].items && o.risk == Low)
                 && (forall r :: r in d.risks ==> r.level == Low)
  {
    var p := ReadPolicy(raw);
    AcceptedExactly(d, p, prohibited, configurationValid);
    SoundIsComplete(raw);
    if SoundPolicy(raw) {
      PreallowedIs(raw.value.fields["preallowed_operations"]);
      PathsAvoid(d, raw, prohibited);
    }
  }

  lemma PathsAvoid(d: Draft, raw: Option<Json>, prohibited: seq<string>)
    requires SoundPolicy(raw)
    ensures (forall path <- d.paths :: !Touches(path, Sensitive(ReadPolicy(raw), prohibited)))
            <==> forall path, s :: path in d.paths && SensitivePath(raw, prohibited, s) ==> !Meets(path, s)
  {
    var sensitive := Sensitive(ReadPolicy(raw), prohibited);
    forall path, s
      ensures SensitivePath(raw, prohibited, s) <==> s in sensitive
      ensures Meets(path, s) <==> PathScopesOverlap(path, s)
    {
      SensitivePathIs(raw, prohibited, s);
      MeetsIs(path, s);
    }
  }

  // ----- the flags

  lemma {:induction false} PathFlagIs(paths: seq<string>, sensitive: seq<string>, f: string)
    ensures f in PathFlags(paths, sensitive) <==> exists p :: p in paths && Touches(p, sensitive) && f == "SENSITIVE_PATH:" + p
    decreases |paths|
  {
    if paths != [] {
      var init, last := paths[..|paths| - 1], paths[|paths| - 1];
      PathFlagIs(init, sensitive, f);
      assert paths == init + [last];
    }
  }

  lemma {:induction false} OperationFlagIs(operations: seq<Operation>, preallowed: set<string>, f: string)
    ensures f in OperationFlags(operations, preallowed)
            <==> exists o :: o in operations && ((o.id !in preallowed && f == "OPERATION_NOT_PREALLOWED:" + o.id)
                                                 || (o.risk != Low && f == "OPERATION_RISK_NOT_LOW:" + o.id))
    decreases |operations|
  {
    if operations != [] {
      var init, last := operations[..|operations| - 1], operations[|operations| - 1];
      OperationFlagIs(init, preallowed, f);
      assert operations == init + [last];
    }
  }

  lemma {:induction false} RiskFlagIs(risks: seq<Risk>, f: string)
    ensures f in RiskFlags(risks) <==> exists r :: r in risks && r.level != Low && f == "RISK_NOT_LOW:" + r.id
    decreases |risks|
  {
    if risks != [] {
      var init, last := risks[..|risks| - 1], risks[|risks| - 1];
      RiskFlagIs(init, f);
      assert risks == init + [last];
    }
  }

  /** A flag is raised if and only if the brief gives that reason for it. */
  lemma FlagExactly(d: Draft, raw: Option<Json>, prohibited: seq<string>, configurationValid: bool, f: string)
    ensures f in AllFlags(d, ReadPolicy(raw), prohibited, configurationValid)
            <==> || f in d.ambiguities || (d.scopeExpansion && f == "SCOPE_EXPANSION")
                 || (!configurationValid && f == "REPOSITORY_CONFIGURATION_INVALID")
                 || (!SoundPolicy(raw) && f == "POLICY_CONFIGURATION_INVALID")
                 || (exists p :: p in d.paths && Touches(p, Sensitive(ReadPolicy(raw), prohibited)) && f == "SENSITIVE_PATH:" + p)
                 || (exists o :: o in d.operations && ((o.id !in ReadPolicy(raw).preallowed && f == "OPERATION_NOT_PREALLOWED:" + o.id)
                                                       || (o.risk != Low && f == "OPERATION_RISK_NOT_LOW:" + o.id)))
                 || (exists r :: r in d.risks && r.level != Low && f == "RISK_NOT_LOW:" + r.id)
  {
    SoundIsComplete(raw);
    PathFlagIs(d.paths, Sensitive(ReadPolicy(raw), prohibited), f);
    OperationFlagIs(d.operations, ReadPolicy(raw).preallowed, f);
    RiskFlagIs(d.risks, f);
  }

  /** Of two flags the one that was raised first comes first. */
  lemma {:induction false} UniqueInOrder(flags: seq<string>, a: nat, b: nat) returns (n: nat)
    requires a < b < |Unique(flags)|
    ensures n < |flags| && flags[n] == Unique(flags)[a] && Unique(flags)[b] !in flags[..n + 1]
    decreases |flags|
  {
    var init, last := flags[..|flags| - 1], flags[|flags| - 1];
    if b < |Unique(init)| {
      n := UniqueInOrder(init, a, b);
      assert flags[..n + 1] == init[..n + 1];
    } else {
      assert Unique(init)[a] in init;
      n :| 0 <= n < |init| && init[n] == Unique(init)[a];
      assert Unique(flags)[b] == last && last !in init;
      assert forall f <- flags[..n + 1] :: f in init;
    }
  }
}
