/** What a compiled contract says, column by column, and in which order. */
module ContractRules {
  import opened Basics
  import opened Wrappers
  import opened JsonText
  import opened JsonForm
  import opened AssertionContract

  /** A letter or digit, then up to 254 more letters, digits and marks. */
  predicate IdentifierText(s: string) {
    1 <= |s| <= 255 && s[0] !in "._:/@+-" && forall c <- s :: IdentifierChar(c)
  }

  predicate IdentifierChar(c: char) {
    c in "abcdefghijklmnopqrstuvwxyz" || c in "ABCDEFGHIJKLMNOPQRSTUVWXYZ" || c in "0123456789" || c in "._:/@+-"
  }

  lemma IdentifierCharIs(c: char)
    ensures IdentifierChar(c) <==> IdChar(c)
  {
  }

  lemma IdentifierIs(s: string)
    ensures IdentifierText(s) <==> Identifier(s)
  {
    forall c ensures IdentifierChar(c) <==> IdChar(c) { IdentifierCharIs(c); }
  }

  /** The entry that the catalog, read as a dictionary, has for the id. */
  ghost predicate Listed(catalog: seq<CatalogEntry>, id: string, e: CatalogEntry) {
    exists n :: 0 <= n < |catalog| && catalog[n] == e && e.assertionId == id
                && forall m :: n < m < |catalog| ==> catalog[m].assertionId != id
  }

  lemma {:induction false} FindIs(catalog: seq<CatalogEntry>, id: string, e: CatalogEntry)
    ensures Find(catalog, id) == Some(e) <==> Listed(catalog, id, e)
    decreases |catalog|
  {
    if catalog != [] {
      var init, last := catalog[..|catalog| - 1], |catalog| - 1;
      FindIs(init, id, e);
      if catalog[last].assertionId == id {
        if catalog[last] == e { assert Listed(catalog, id, e); }
        forall n | 0 <= n < |catalog| && catalog[n] == e && forall m :: n < m < |catalog| ==> catalog[m].assertionId != id
          ensures n == last
        {
          assert !(n < last < |catalog|);
        }
      } else {
        if n :| 0 <= n < |catalog| && catalog[n] == e && e.assertionId == id && forall m :: n < m < |catalog| ==> catalog[m].assertionId != id {
          assert n < last && init[n] == e;
        }
        if n :| 0 <= n < |init| && init[n] == e && e.assertionId == id && forall m :: n < m < |init| ==> init[m].assertionId != id {
          assert catalog[n] == e;
          forall m | n < m < |catalog| ensures catalog[m].assertionId != id { if m < last { assert catalog[m] == init[m]; } }
        }
      }
    }
  }

  /** The binding repeats its catalog entry, which is offered to tasks. */
  ghost predicate BindsEntry(catalog: seq<CatalogEntry>, b: Binding) {
    exists e :: Listed(catalog, b.assertionId, e) && e.role == TaskSelectable && b.kind == e.kind && b.catalogKey == e.catalogKey
  }

  lemma MatchesIs(catalog: seq<CatalogEntry>, b: Binding)
    ensures Matches(catalog, b) <==> BindsEntry(catalog, b)
  {
    var found := Find(catalog, b.assertionId);
    if found.Some? { FindIs(catalog, b.assertionId, found.value); }
    if e :| Listed(catalog, b.assertionId, e) && e.role == TaskSelectable && b.kind == e.kind && b.catalogKey == e.catalogKey {
      FindIs(catalog, b.assertionId, e);
    }
  }

  lemma MatchesAll(catalog: seq<CatalogEntry>, bs: seq<Binding>)
    ensures (forall b <- bs :: Matches(catalog, b)) <==> forall b <- bs :: BindsEntry(catalog, b)
  {
    forall b <- bs ensures Matches(catalog, b) <==> BindsEntry(catalog, b) { MatchesIs(catalog, b); }
  }

  /** The requirements ask for this assertion of this criterion. */
  ghost predicate Asked(requirements: seq<Requirement>, c: string, a: string) {
    exists r :: r in requirements && r.criterionId == c && a in r.assertionIds
  }

  /** A contract is valid for a configuration and a brief if and only if it repeats their identities, the one
      flow and the criteria in their order, each binding repeats its catalog entry, and the bindings pair
      exactly the criteria and assertions that the brief asks for, some for every criterion. */
  lemma ValidExactly(c: Contract, cfg: Configuration, brief: Brief)
    requires Distinct(CriterionIds(brief.requirements))
    ensures Valid(c, cfg, brief)
            <==> && |cfg.flows| == 1 && c.flow == cfg.flows[0]
                 && c.configurationId == cfg.id && c.configurationVersion == cfg.version && c.configurationDigest == cfg.digest
                 && c.taskId == brief.taskId && c.briefId == brief.briefId && c.decisionId == brief.decisionId
                 && c.briefVersion == brief.version && c.briefDigest == brief.digest
                 && |c.criterionIds| == |brief.requirements|
                 && (forall i :: 0 <= i < |c.criterionIds| ==> c.criterionIds[i] == brief.requirements[i].criterionId)
                 && c.bindings != [] && (forall b <- c.bindings :: BindsEntry(cfg.catalog, b))
                 && (forall r <- brief.requirements :: r.assertionIds != [])
                 && forall x, y :: (x, y) in PairsOf(c.bindings) <==> Asked(brief.requirements, x, y)
  {
    MatchesAll(cfg.catalog, c.bindings);
    GroupedIsRequired(PairsOf(c.bindings), brief.requirements);
    assert c.criterionIds == CriterionIds(brief.requirements)
      <==> |c.criterionIds| == |brief.requirements|
           && forall i :: 0 <= i < |c.criterionIds| ==> c.criterionIds[i] == brief.requirements[i].criterionId;
    assert Lists(PairsOf(c.bindings), brief.requirements) <==> forall x, y :: (x, y) in PairsOf(c.bindings) <==> Asked(brief.requirements, x, y);
  }

  /** Criterion first, then assertion, by code point. */
  ghost predicate PairSmaller(a: Binding, b: Binding) {
    Smaller(a.criterionId, b.criterionId) || (a.criterionId == b.criterionId && Smaller(a.assertionId, b.assertionId))
  }

  /** A compiled contract lists its bindings in rising order. */
  lemma CompiledInOrder(cfg: Configuration, brief: Brief, pairs: seq<Pair>)
    requires Compile(cfg, brief, pairs).Ok?
    ensures var bs := Compile(cfg, brief, pairs).value.bindings;
            forall i, j :: 0 <= i < j < |bs| ==> PairSmaller(bs[i], bs[j])
  {
    var bound := Bind(cfg.catalog, pairs).value;
    var bs := Compile(cfg, brief, pairs).value.bindings;
    SortedAgain(bound);
    SortRising(bound);
    forall i, j | 0 <= i < j < |bs| ensures PairSmaller(bs[i], bs[j]) {
      assert PairBefore(PairOf(bs[i]), PairOf(bs[j]));
      BeforeIsSmaller(bs[i].criterionId, bs[j].criterionId);
      BeforeIsSmaller(bs[i].assertionId, bs[j].assertionId);
    }
  }
}
