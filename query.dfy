// The `Query` object of src/query.js: a parsed query whose `where` list,
// limit and prefixes its methods update in place.
module Queries {
  import opened Common
  import opened Rdf
  import opened Sparql
  import opened Normalization
  import opened Federation

  class Query {
    var queryType: QueryType
    var where: seq<GraphPattern>
    var template: seq<Triple>
    var limit: Option<nat>
    var prefixes: map<string, string>

    /** The query as a value, as `toString` would serialise it. */
    function Data(): QueryData
      reads this
    {
      QueryData(queryType, where, template, limit, prefixes)
    }

    /**
     * The constructor on an already parsed query: the `where` lists of the
     * query and of its nested queries are normalised. Validation is the
     * separate step `Validate`; `Parse` below chains the two as the source's
     * constructor does.
     */
    constructor (d: QueryData)
      ensures Data() == d.(where := NormalizeWhere(d.where))
    {
      queryType, template, limit, prefixes := d.queryType, d.template, d.limit, d.prefixes;
      where := d.where;
      new;
      Normalize();
    }

    method Normalize()
      modifies this
      ensures where == NormalizeWhere(old(where))
      ensures queryType == old(queryType) && template == old(template) && limit == old(limit) && prefixes == old(prefixes)
    {
      where := NormalizeQuery(where);
    }

    /** `validate`: `None` when the query is accepted. */
    method Validate() returns (err: Option<ValidationError>)
      ensures err == Sparql.Validate(where)
    {
      var k := 0;
      while k < |where|
        invariant 0 <= k <= |where|
        invariant forall m :: 0 <= m < k ==> !where[m].GroupPattern?
      {
        if where[k].GroupPattern? {
          return Some(GroupPatternsUnsupported);
        }
        k := k + 1;
      }
      var ts := WhereTriples(where);
      var i := 0;
      while i < |ts|
        invariant 0 <= i <= |ts|
        invariant forall m :: 0 <= m < i ==> !ts[m].pred.PathPred?
      {
        if ts[i].pred.PathPred? {
          return Some(PropertyPathsUnsupported);
        }
        i := i + 1;
      }
      err := None;
    }

    /** `addWhereTriples`: the triples go, in order, to the end of the first basic graph pattern. */
    method AddWhereTriples(ts: seq<Triple>)
      modifies this
      ensures where == AddTriples(old(where), ts)
      ensures queryType == old(queryType) && template == old(template) && limit == old(limit) && prefixes == old(prefixes)
    {
      var w0 := where;
      var w := where;
      var i := 0;
      while i < |w| && !w[i].BgpPattern?
        invariant 0 <= i <= |w|
        invariant forall m :: 0 <= m < i ==> !w[m].BgpPattern?
      {
        i := i + 1;
      }
      FirstBgpIsFirst(w, i);
      if i == |w| {
        if ts == [] {
          return;
        }
        w := [BgpPattern([])] + w;
        i := 0;
      }
      var start := w;
      var k := 0;
      assert start[i].triples + ts[..0] == start[i].triples;
      while k < |ts|
        invariant 0 <= k <= |ts| && |w| == |start| && i < |start|
        invariant w == start[i := BgpPattern(start[i].triples + ts[..k])]
      {
        w := w[i := BgpPattern(w[i].triples + [ts[k]])];
        assert ts[..k + 1] == ts[..k] + [ts[k]];
        assert start[i].triples + ts[..k] + [ts[k]] == start[i].triples + ts[..k + 1];
        k := k + 1;
      }
      assert ts[..k] == ts;
      if FirstBgp(w0) == |w0| {
        assert [] + ts == ts;
        assert w == [BgpPattern(ts)] + w0;
      }
      where := w;
    }

    /** `removeWhereTriples`: every top-level basic graph pattern loses the listed triples. */
    method RemoveWhereTriples(ts: seq<Triple>)
      modifies this
      ensures where == RemoveTriples(old(where), ts)
      ensures queryType == old(queryType) && template == old(template) && limit == old(limit) && prefixes == old(prefixes)
    {
      var w := where;
      var k := 0;
      while k < |w|
        invariant |w| == |where| && 0 <= k <= |w|
        invariant forall m :: 0 <= m < k ==> w[m] == RemoveTriples(where, ts)[m]
        invariant forall m :: k <= m < |w| ==> w[m] == where[m]
      {
        if w[k].BgpPattern? {
          w := w[k := BgpPattern(Without(w[k].triples, ts))];
        }
        k := k + 1;
      }
      where := w;
    }

    /** `addWhereFilters`: one new top-level filter per expression, at the end. */
    method AddWhereFilters(fs: seq<Expression>)
      modifies this
      ensures where == old(where) + AsFilterPatterns(fs)
      ensures queryType == old(queryType) && template == old(template) && limit == old(limit) && prefixes == old(prefixes)
    {
      var w := where;
      var k := 0;
      while k < |fs|
        invariant 0 <= k <= |fs|
        invariant w == where + AsFilterPatterns(fs[..k])
      {
        w := w + [FilterPattern(fs[k])];
        assert AsFilterPatterns(fs[..k + 1]) == AsFilterPatterns(fs[..k]) + [FilterPattern(fs[k])];
        k := k + 1;
      }
      assert fs[..k] == fs;
      where := w;
    }

    /** `addWhereBinds`: one new top-level bind per pair, at the end. */
    method AddWhereBinds(bs: seq<(Term, Expression)>)
      modifies this
      ensures |where| == |old(where)| + |bs| && where[..|old(where)|] == old(where)
      ensures forall k :: 0 <= k < |bs| ==> where[|old(where)| + k] == BindPattern(bs[k].0, bs[k].1)
      ensures queryType == old(queryType) && template == old(template) && limit == old(limit) && prefixes == old(prefixes)
    {
      var w := where;
      var k := 0;
      while k < |bs|
        invariant 0 <= k <= |bs|
        invariant |w| == |where| + k && w[..|where|] == where
        invariant forall m :: 0 <= m < k ==> w[|where| + m] == BindPattern(bs[m].0, bs[m].1)
      {
        w := w + [BindPattern(bs[k].0, bs[k].1)];
        k := k + 1;
      }
      where := w;
    }

    method SetLimit(l: Option<nat>)
      modifies this
      ensures limit == l
      ensures queryType == old(queryType) && where == old(where) && template == old(template) && prefixes == old(prefixes)
    {
      limit := l;
    }

    method RemoveLimit()
      modifies this
      ensures limit == None
      ensures queryType == old(queryType) && where == old(where) && template == old(template) && prefixes == old(prefixes)
    {
      limit := None;
    }

    method SetPrefixes(p: map<string, string>)
      modifies this
      ensures prefixes == p
      ensures queryType == old(queryType) && where == old(where) && template == old(template) && limit == old(limit)
    {
      prefixes := p;
    }

    /**
     * `federate`: collects the exclusions, builds the offload CONSTRUCT
     * query (rewriting the blank nodes of the offloaded triples, which are
     * this query's own triples), probes with `fx` and adds the subject
     * filters.
     */
    method Federate(preds: seq<string>, fx: QueryData -> Option<seq<map<string, string>>>, fuel: nat)
      returns (r: Result<Option<QueryData>, FederationError>)
      modifies this
      ensures r == Federated(old(where), old(prefixes), preds, fx, fuel)
      ensures where == FederatedWhere(old(where), preds, fuel)
      ensures queryType == old(queryType) && template == old(template) && limit == old(limit) && prefixes == old(prefixes)
    {
      var w0 := where;
      var ts := WhereTriples(where);
      var ex := CollectExclusions(ts, preds, fuel);
      if ex.Err? {
        return Err(ex.error);
      }
      var (exclude, subjects) := ex.value;
      var kept := Without(ts, exclude);
      if kept == [] {
        return Ok(None);
      }
      where := UnblankWhere(where, exclude);
      var offload := UnblankAll(kept);
      var cq := NewConstruct(offload, prefixes);
      var cqvars := VariableNames(cq.where);
      var copied := FiltersContaining(WhereFilters(w0), cqvars, ["&&"]);
      if copied.None? {
        return Err(FilterTypeError);
      }
      var evars := Filtered(VariableNames(where), cqvars);
      var probeFilters := FiltersContaining(WhereFilters(w0), evars, ["&&"]);
      if probeFilters.None? {
        return Err(FilterTypeError);
      }
      var plan := Plan(exclude, subjects, offload, copied.value, probeFilters.value);
      assert PlanOf(w0, preds, fuel) == Ok(plan);
      r := CompleteOffload(cq, plan, prefixes, fx);
    }
  }

  /** `createConstructQuery` once the blank nodes are rewritten: the template and one basic graph pattern of the triples. */
  method NewConstruct(offload: seq<Triple>, prefixes: map<string, string>) returns (cq: Query)
    requires offload != []
    ensures fresh(cq)
    ensures cq.Data() == QueryData(Construct, [BgpPattern(offload)], offload, None, prefixes)
  {
    cq := new Query(QueryData(Construct, [], offload, None, map[]));
    assert NormalizeWhere([]) == [];
    cq.SetPrefixes(prefixes);
    cq.AddWhereTriples(offload);
  }

  /**
   * The end of `federate`: the filters are copied into the offload query,
   * the probe query goes to `fx`, and its bindings become subject filters.
   */
  method CompleteOffload(cq: Query, p: Plan, prefixes: map<string, string>, fx: QueryData -> Option<seq<map<string, string>>>)
    returns (r: Result<Option<QueryData>, FederationError>)
    requires p.offload != []
    requires cq.Data() == QueryData(Construct, [BgpPattern(p.offload)], p.offload, None, prefixes)
    modifies cq
    ensures r == FromPlan(p, prefixes, fx)
  {
    cq.AddWhereFilters(p.copied);
    var bindings := fx(ProbeQuery(p.exclude, p.probeFilters));
    if bindings.Some? {
      var err := AddSubjectFilters(cq, p.subjects, bindings.value);
      if err.Some? {
        return Err(err.value);
      }
    }
    r := Ok(Some(cq.Data()));
    assert AddTriples([], p.offload) == [BgpPattern(p.offload)];
  }

  /** The loop adding one `in` filter per computed subject; it stops at the first subject missing from a binding. */
  method AddSubjectFilters(cq: Query, subjects: seq<string>, bindings: seq<map<string, string>>)
    returns (err: Option<FederationError>)
    modifies cq
    ensures err.None? <==> SubjectFilters(subjects, bindings).Ok?
    ensures err.Some? ==> SubjectFilters(subjects, bindings) == Err(err.value)
    ensures err.None? ==> cq.where == old(cq.where) + AsFilterPatterns(SubjectFilters(subjects, bindings).value)
    ensures cq.queryType == old(cq.queryType) && cq.template == old(cq.template) && cq.limit == old(cq.limit) && cq.prefixes == old(cq.prefixes)
  {
    var k := 0;
    ghost var w0 := cq.where;
    while k < |subjects|
      invariant 0 <= k <= |subjects|
      invariant SubjectFilters(subjects[..k], bindings).Ok?
      invariant cq.where == w0 + AsFilterPatterns(SubjectFilters(subjects[..k], bindings).value)
      invariant cq.queryType == old(cq.queryType) && cq.template == old(cq.template) && cq.limit == old(cq.limit) && cq.prefixes == old(cq.prefixes)
    {
      var values := InValues(subjects[k], bindings);
      if values.Err? {
        SubjectFiltersFirstFailure(subjects, k, bindings);
        return Some(values.error);
      }
      ghost var pre := AsFilterPatterns(SubjectFilters(subjects[..k], bindings).value);
      ghost var added := AsFilterPatterns([InFilter(subjects[k], values.value)]);
      cq.AddWhereFilters([InFilter(subjects[k], values.value)]);
      SubjectFiltersSnoc(subjects, k, bindings);
      assert cq.where == (w0 + pre) + added == w0 + (pre + added);
      k := k + 1;
    }
    assert subjects[..k] == subjects;
    err := None;
  }

  /** The scan for the first basic graph pattern stops where `FirstBgp` points. */
  lemma FirstBgpIsFirst(w: seq<GraphPattern>, i: nat)
    requires i <= |w| && (forall m :: 0 <= m < i ==> !w[m].BgpPattern?) && (i < |w| ==> w[i].BgpPattern?)
    ensures FirstBgp(w) == i
  {
    if w != [] && i > 0 {
      assert forall m :: 0 <= m < i - 1 ==> w[1..][m] == w[m + 1];
      FirstBgpIsFirst(w[1..], i - 1);
    }
  }

  lemma SubjectFiltersSnoc(subjects: seq<string>, k: nat, bindings: seq<map<string, string>>)
    requires k < |subjects| && SubjectFilters(subjects[..k], bindings).Ok? && InValues(subjects[k], bindings).Ok?
    ensures SubjectFilters(subjects[..k + 1], bindings).Ok?
    ensures AsFilterPatterns(SubjectFilters(subjects[..k + 1], bindings).value)
         == AsFilterPatterns(SubjectFilters(subjects[..k], bindings).value) + AsFilterPatterns([InFilter(subjects[k], InValues(subjects[k], bindings).value)])
  {
    var pre := SubjectFilters(subjects[..k], bindings).value;
    var x := InFilter(subjects[k], InValues(subjects[k], bindings).value);
    var s1 := subjects[..k + 1];
    forall m | 0 <= m < k + 1 ensures InValues(s1[m], bindings).Ok? {
      if m < k {
        assert subjects[..k][m] == s1[m];
      }
    }
    var all := SubjectFilters(subjects[..k + 1], bindings).value;
    assert |all| == k + 1;
    forall m | 0 <= m < k + 1 ensures all[m] == (pre + [x])[m] {
      if m < k {
        assert subjects[..k][m] == subjects[..k + 1][m];
      }
    }
    assert all == pre + [x];
    assert AsFilterPatterns(pre + [x]) == AsFilterPatterns(pre) + AsFilterPatterns([x]);
  }

  /** The error is the one of the first subject some binding lacks. */
  lemma {:induction false} SubjectFiltersFirstFailure(subjects: seq<string>, k: nat, bindings: seq<map<string, string>>)
    requires k < |subjects| && InValues(subjects[k], bindings).Err?
    requires forall m :: 0 <= m < k ==> InValues(subjects[m], bindings).Ok?
    ensures SubjectFilters(subjects, bindings) == Err(MissingBinding(subjects[k]))
    ensures InValues(subjects[k], bindings) == Err(MissingBinding(subjects[k]))
  {
    InValuesError(subjects[k], bindings);
    if k > 0 {
      assert forall m :: 0 <= m < k - 1 ==> subjects[1..][m] == subjects[m + 1];
      SubjectFiltersFirstFailure(subjects[1..], k - 1, bindings);
    }
  }

  lemma {:induction false} InValuesError(s: string, bindings: seq<map<string, string>>)
    ensures InValues(s, bindings).Err? ==> InValues(s, bindings).error == MissingBinding(s)
  {
    if bindings != [] && s in bindings[0] {
      InValuesError(s, bindings[1..]);
    }
  }

  /**
   * The constructor followed by `validate`: the normalised query, or the
   * reason it is refused.
   */
  method Parse(d: QueryData) returns (r: Result<Query, ValidationError>)
    ensures r.Ok? <==> Sparql.Validate(NormalizeWhere(d.where)).None?
    ensures r.Err? ==> r.error == Sparql.Validate(NormalizeWhere(d.where)).value
    ensures r.Ok? ==> fresh(r.value) && r.value.Data() == d.(where := NormalizeWhere(d.where))
  {
    var q := new Query(d);
    var err := q.Validate();
    if err.Some? {
      return Err(err.value);
    }
    return Ok(q);
  }
}
