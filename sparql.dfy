// The parsed query (sparqljs JSON) as src/query.js reads it: the `where`
// list of graph patterns and the pure operations over it.
module Sparql {
  import opened Common
  import opened Rdf

  /** A predicate position: a plain term or a property path. */
  datatype Pred =
    | PlainPred(term: Term)
    | PathPred(pathType: string, items: seq<Pred>)

  /** `t.predicate.value`; a path has no value (`undefined` in the source). */
  function PredValue(p: Pred): Option<string>
  {
    if p.PlainPred? then Some(p.term.value) else None
  }

  datatype Triple = Triple(subject: Term, pred: Pred, obj: Term)

  /**
   * A filter expression. `Operation` also stands for a function call, whose
   * IRI takes the place of the operator. `TermList` is a plain list argument
   * (the value list of `in`); `PatternArg` the group pattern of `exists`.
   */
  datatype Expression =
    | Operation(operator: string, args: seq<Expression>)
    | TermArg(term: Term)
    | TermList(terms: seq<Term>)
    | PatternArg

  /** One element of a `where` list. */
  datatype GraphPattern =
    | BgpPattern(triples: seq<Triple>)
    | FilterPattern(expression: Expression)
    | BindPattern(variable: Term, expression: Expression)
    | GroupPattern(patterns: seq<GraphPattern>)
    | OptionalPattern(patterns: seq<GraphPattern>)
    | UnionPattern(patterns: seq<GraphPattern>)
    | SubQuery(where: seq<GraphPattern>)

  datatype QueryType = Select | Construct | OtherQueryType(name: string)

  /** A whole query as a value: what the source serialises with `toString`. */
  datatype QueryData = QueryData(
    queryType: QueryType,
    where: seq<GraphPattern>,
    template: seq<Triple>,
    limit: Option<nat>,
    prefixes: map<string, string>)

  // ---------------------------------------------------------------------
  // Triples of the top-level basic graph patterns.

  /** `whereTriples`: the triples of the top-level basic graph patterns, in order. */
  function WhereTriples(w: seq<GraphPattern>): (r: seq<Triple>)
    ensures forall t :: t in r <==> exists k :: 0 <= k < |w| && w[k].BgpPattern? && t in w[k].triples
  {
    if w == [] then []
    else
      var rest := WhereTriples(w[1..]);
      assert forall t :: (exists k :: 1 <= k < |w| && w[k].BgpPattern? && t in w[k].triples) ==> t in rest by {
        forall t, k | 1 <= k < |w| && w[k].BgpPattern? && t in w[k].triples ensures t in rest {
          assert w[1..][k - 1] == w[k];
        }
      }
      (if w[0].BgpPattern? then w[0].triples else []) + rest
  }

  lemma {:induction false} WhereTriplesAppend(a: seq<GraphPattern>, b: seq<GraphPattern>)
    ensures WhereTriples(a + b) == WhereTriples(a) + WhereTriples(b)
  {
    if a == [] {
      assert a + b == b;
    } else {
      assert (a + b)[0] == a[0];
      assert (a + b)[1..] == a[1..] + b;
      WhereTriplesAppend(a[1..], b);
    }
  }

  // ---------------------------------------------------------------------
  // Validation.

  datatype ValidationError = GroupPatternsUnsupported | PropertyPathsUnsupported

  function HasGroup(w: seq<GraphPattern>): (b: bool)
    ensures b <==> exists k :: 0 <= k < |w| && w[k].GroupPattern?
  {
    if w == [] then false
    else w[0].GroupPattern? || (assert forall k :: 1 <= k < |w| ==> w[1..][k - 1] == w[k]; HasGroup(w[1..]))
  }

  function HasPathTriple(ts: seq<Triple>): (b: bool)
    ensures b <==> exists t :: t in ts && t.pred.PathPred?
  {
    if ts == [] then false
    else ts[0].pred.PathPred? || (assert forall t :: t in ts[1..] ==> t in ts; HasPathTriple(ts[1..]))
  }

  /**
   * `validate`: a top-level group pattern is refused first; otherwise a
   * property path still present among the top-level triples is refused.
   */
  function Validate(w: seq<GraphPattern>): (r: Option<ValidationError>)
    ensures r == Some(GroupPatternsUnsupported) <==> exists k :: 0 <= k < |w| && w[k].GroupPattern?
    ensures r == Some(PropertyPathsUnsupported) <==>
      (forall k :: 0 <= k < |w| ==> !w[k].GroupPattern?) && exists t :: t in WhereTriples(w) && t.pred.PathPred?
    ensures r.None? <==>
      (forall k :: 0 <= k < |w| ==> !w[k].GroupPattern?) && forall t :: t in WhereTriples(w) ==> !t.pred.PathPred?
  {
    if HasGroup(w) then Some(GroupPatternsUnsupported)
    else if HasPathTriple(WhereTriples(w)) then Some(PropertyPathsUnsupported)
    else None
  }

  // ---------------------------------------------------------------------
  // Variables.

  predicate NoDuplicates(s: seq<string>)
  {
    forall i, j :: 0 <= i < j < |s| ==> s[i] != s[j]
  }

  /** Keep the first occurrence of every name, in order (a JavaScript `Set`). */
  function Dedup(s: seq<string>): (r: seq<string>)
    ensures NoDuplicates(r)
    ensures forall x :: x in r <==> x in s
  {
    if s == [] then []
    else
      var r := Dedup(s[..|s| - 1]);
      assert forall x :: x in s <==> x in s[..|s| - 1] || x == s[|s| - 1] by {
        assert s == s[..|s| - 1] + [s[|s| - 1]];
      }
      if s[|s| - 1] in r then r else r + [s[|s| - 1]]
  }

  /** Variable names in the subject, predicate and object of the triples, in order. */
  function TripleVarNames(ts: seq<Triple>): (r: seq<string>)
    ensures forall v :: v in r <==> exists t :: t in ts && MentionsVar(t, v)
  {
    if ts == [] then []
    else
      var t := ts[0];
      assert forall u :: u in ts <==> u == t || u in ts[1..] by {
        assert ts == [t] + ts[1..];
      }
      var head := (if t.subject.Variable? then [t.subject.value] else [])
        + (if t.pred.PlainPred? && t.pred.term.Variable? then [t.pred.term.value] else [])
        + (if t.obj.Variable? then [t.obj.value] else []);
      assert forall v :: v in head <==> MentionsVar(t, v);
      head + TripleVarNames(ts[1..])
  }

  predicate MentionsVar(t: Triple, v: string)
  {
    (t.subject.Variable? && t.subject.value == v)
    || (t.pred.PlainPred? && t.pred.term.Variable? && t.pred.term.value == v)
    || (t.obj.Variable? && t.obj.value == v)
  }

  /** `whereBinds`: the bind elements, as (variable, expression) pairs. */
  function WhereBinds(w: seq<GraphPattern>): (r: seq<(Term, Expression)>)
    ensures forall b :: b in r <==> BindPattern(b.0, b.1) in w
  {
    if w == [] then []
    else
      assert forall g :: g in w <==> g == w[0] || g in w[1..] by {
        assert w == [w[0]] + w[1..];
      }
      (if w[0].BindPattern? then [(w[0].variable, w[0].expression)] else []) + WhereBinds(w[1..])
  }

  function BindNames(bs: seq<(Term, Expression)>): (r: seq<string>)
    ensures forall v :: v in r <==> exists b :: b in bs && b.0.value == v
  {
    if bs == [] then []
    else
      assert forall b :: b in bs <==> b == bs[0] || b in bs[1..] by {
        assert bs == [bs[0]] + bs[1..];
      }
      [bs[0].0.value] + BindNames(bs[1..])
  }

  /** An entry of the list `variables` builds: a name, or a bind's whole variable term. */
  datatype VarEntry = VarName(name: string) | BindTerm(term: Term)

  /**
   * `variables`: the names in top-level triple positions, each once in
   * order of first mention, followed by each top-level bind's variable
   * TERM. A term is an object, so the set never merges it with a name.
   */
  function VariableEntries(w: seq<GraphPattern>): seq<VarEntry>
  {
    var names := VariableNames(w);
    var binds := WhereBinds(w);
    seq(|names|, i requires 0 <= i < |names| => VarName(names[i]))
      + seq(|binds|, i requires 0 <= i < |binds| => BindTerm(binds[i].0))
  }

  /**
   * The names among `variables`, which are all that `includes(name)` can
   * find: each variable named in a top-level triple position, once.
   */
  function VariableNames(w: seq<GraphPattern>): (r: seq<string>)
    ensures NoDuplicates(r)
    ensures forall v :: v in r <==> exists t :: t in WhereTriples(w) && MentionsVar(t, v)
  {
    Dedup(TripleVarNames(WhereTriples(w)))
  }

  /**
   * Looking a name up in `variables` is looking it up in `VariableNames`:
   * the list holds one entry per triple name and one per bind, and no bind
   * entry is a name.
   */
  lemma VariableNamesAreEntries(w: seq<GraphPattern>)
    ensures forall v :: v in VariableNames(w) <==> VarName(v) in VariableEntries(w)
    ensures |VariableEntries(w)| == |VariableNames(w)| + |WhereBinds(w)|
  {
    var names := VariableNames(w);
    var e := VariableEntries(w);
    forall v
      ensures v in names <==> VarName(v) in e
    {
      if v in names {
        var i :| 0 <= i < |names| && names[i] == v;
        assert e[i] == VarName(v);
      }
      if VarName(v) in e {
        var i :| 0 <= i < |e| && e[i] == VarName(v);
        assert i < |names|;
        assert names[i] == v;
      }
    }
  }

  /** A variable bound only by BIND is not among the names `variables` lists. */
  lemma BindNameMissing()
    ensures var w := [BindPattern(Variable("y"), TermArg(Literal("1")))];
            && VariableEntries(w) == [BindTerm(Variable("y"))]
            && "y" !in VariableNames(w)
  {
    var w := [BindPattern(Variable("y"), TermArg(Literal("1")))];
    assert WhereTriples(w) == [];
    assert WhereBinds(w) == [(Variable("y"), TermArg(Literal("1")))];
  }

  // ---------------------------------------------------------------------
  // Adding and removing triples.

  /** Index of the first top-level basic graph pattern, `|w|` if none. */
  function FirstBgp(w: seq<GraphPattern>): (i: nat)
    ensures i <= |w|
    ensures forall k :: 0 <= k < i ==> !w[k].BgpPattern?
    ensures i < |w| ==> w[i].BgpPattern?
  {
    if w == [] then 0
    else if w[0].BgpPattern? then 0
    else 1 + FirstBgp(w[1..])
  }

  /** `addWhereTriples` on the `where` list. */
  function AddTriples(w: seq<GraphPattern>, ts: seq<Triple>): seq<GraphPattern>
  {
    var i := FirstBgp(w);
    if i < |w| then w[i := BgpPattern(w[i].triples + ts)]
    else if ts == [] then w
    else [BgpPattern(ts)] + w
  }

  /**
   * The triples are appended, in order, to the first basic graph pattern
   * and to no other; if there is none, a new one holding them is put in
   * front. Every other element stays as it was, and the top-level triples
   * gain exactly the given ones.
   */
  lemma {:induction false} AddTriplesContents(w: seq<GraphPattern>, ts: seq<Triple>)
    ensures var w' := AddTriples(w, ts); var i := FirstBgp(w);
      && (i < |w| ==> |w'| == |w| && w'[i] == BgpPattern(w[i].triples + ts)
                      && forall k :: 0 <= k < |w| && k != i ==> w'[k] == w[k])
      && (i == |w| && ts != [] ==> w' == [BgpPattern(ts)] + w)
      && (i == |w| && ts == [] ==> w' == w)
      && multiset(WhereTriples(w')) == multiset(WhereTriples(w)) + multiset(ts)
  {
    var i := FirstBgp(w);
    if i < |w| {
      ExtendTriplesAt(w, i, ts);
    } else if ts != [] {
      WhereTriplesAppend([BgpPattern(ts)], w);
      assert WhereTriples([BgpPattern(ts)]) == ts;
    }
  }

  /** Appending to the triples of one element appends to the top-level triples in that place. */
  lemma ExtendTriplesAt(w: seq<GraphPattern>, i: nat, ts: seq<Triple>)
    requires i < |w| && w[i].BgpPattern?
    ensures multiset(WhereTriples(w[i := BgpPattern(w[i].triples + ts)]))
         == multiset(WhereTriples(w)) + multiset(ts)
  {
    var g := BgpPattern(w[i].triples + ts);
    var w' := w[i := g];
    var pre, post := w[..i], w[i + 1..];
    assert w == pre + [w[i]] + post;
    assert w' == pre + [g] + post;
    WhereTriplesAppend(pre + [w[i]], post);
    WhereTriplesAppend(pre, [w[i]]);
    WhereTriplesAppend(pre + [g], post);
    WhereTriplesAppend(pre, [g]);
    assert WhereTriples([w[i]]) == w[i].triples + [];
    assert WhereTriples([g]) == w[i].triples + ts + [];
  }

  /** Remove from every top-level basic graph pattern the triples listed. */
  function Without(ts: seq<Triple>, ex: seq<Triple>): (r: seq<Triple>)
    ensures forall t :: t in r <==> t in ts && t !in ex
    ensures |r| <= |ts|
  {
    if ts == [] then []
    else
      assert forall t :: t in ts <==> t == ts[0] || t in ts[1..] by {
        assert ts == [ts[0]] + ts[1..];
      }
      (if ts[0] in ex then [] else [ts[0]]) + Without(ts[1..], ex)
  }

  lemma {:induction false} WithoutAppend(a: seq<Triple>, b: seq<Triple>, ex: seq<Triple>)
    ensures Without(a + b, ex) == Without(a, ex) + Without(b, ex)
  {
    if a == [] {
      assert a + b == b;
    } else {
      assert (a + b)[0] == a[0];
      assert (a + b)[1..] == a[1..] + b;
      WithoutAppend(a[1..], b, ex);
    }
  }

  /** `removeWhereTriples` on the `where` list. */
  function RemoveTriples(w: seq<GraphPattern>, ex: seq<Triple>): (r: seq<GraphPattern>)
    ensures |r| == |w|
  {
    seq(|w|, k requires 0 <= k < |w| => if w[k].BgpPattern? then BgpPattern(Without(w[k].triples, ex)) else w[k])
  }

  /**
   * Removal filters the top-level triples, keeping their order, and leaves
   * every element that is not a basic graph pattern alone.
   */
  lemma {:induction false} RemoveTriplesContents(w: seq<GraphPattern>, ex: seq<Triple>)
    ensures WhereTriples(RemoveTriples(w, ex)) == Without(WhereTriples(w), ex)
    ensures forall k :: 0 <= k < |w| && !w[k].BgpPattern? ==> RemoveTriples(w, ex)[k] == w[k]
  {
    if w != [] {
      var r := RemoveTriples(w, ex);
      assert r[1..] == RemoveTriples(w[1..], ex);
      RemoveTriplesContents(w[1..], ex);
      WithoutAppend(if w[0].BgpPattern? then w[0].triples else [], WhereTriples(w[1..]), ex);
    }
  }

  // ---------------------------------------------------------------------
  // Filters.

  /** `whereFilters`: the expressions of the top-level filters, in order. */
  function WhereFilters(w: seq<GraphPattern>): (r: seq<Expression>)
    ensures forall e :: e in r <==> FilterPattern(e) in w
  {
    if w == [] then []
    else
      assert forall g :: g in w <==> g == w[0] || g in w[1..] by {
        assert w == [w[0]] + w[1..];
      }
      (if w[0].FilterPattern? then [w[0].expression] else []) + WhereFilters(w[1..])
  }

  /** Filters appended as new top-level elements (`addWhereFilters`). */
  function AsFilterPatterns(fs: seq<Expression>): (r: seq<GraphPattern>)
    ensures |r| == |fs| && forall k :: 0 <= k < |fs| ==> r[k] == FilterPattern(fs[k])
  {
    seq(|fs|, k requires 0 <= k < |fs| => FilterPattern(fs[k]))
  }

  /** A variable argument that is not in the list fails the shallow check. */
  predicate TermKnown(a: Expression, vars: seq<string>)
  {
    a.TermArg? && a.term.Variable? ==> a.term.value in vars
  }

  /**
   * The check applied to each argument of an operation that is not listed:
   * an argument with arguments of its own has those looked at (one level
   * only); any other argument is looked at itself.
   */
  predicate ArgKnown(a: Expression, vars: seq<string>)
  {
    if a.Operation? then forall j :: 0 <= j < |a.args| ==> TermKnown(a.args[j], vars)
    else TermKnown(a, vars)
  }

  /**
   * The test `fx` of `whereFiltersContaining`. `None` stands for the
   * TypeError the source raises when it asks a term, a list or a pattern
   * for its arguments. The arguments of a listed operator are tested in
   * order and the test stops at the first one that fails.
   */
  function Keeps(e: Expression, vars: seq<string>, ops: seq<string>): Option<bool>
    decreases e, 1
  {
    match e
    case Operation(op, args) =>
      if op in ops then KeepsFrom(e, 0, vars, ops)
      else Some(forall j :: 0 <= j < |args| ==> ArgKnown(args[j], vars))
    case _ => None
  }

  function KeepsFrom(e: Expression, i: nat, vars: seq<string>, ops: seq<string>): Option<bool>
    requires e.Operation? && i <= |e.args|
    decreases e, 0, |e.args| - i
  {
    if i == |e.args| then Some(true)
    else match Keeps(e.args[i], vars, ops)
      case None => None
      case Some(false) => Some(false)
      case Some(true) => KeepsFrom(e, i + 1, vars, ops)
  }

  /** The variable names the test looks at, descending through listed operators. */
  function CheckedNames(e: Expression, ops: seq<string>): seq<string>
    decreases e, 1
  {
    match e
    case Operation(op, args) =>
      if op in ops then CheckedNamesFrom(e, 0, ops) else ShallowNamesFrom(args, 0)
    case _ => []
  }

  function CheckedNamesFrom(e: Expression, i: nat, ops: seq<string>): seq<string>
    requires e.Operation? && i <= |e.args|
    decreases e, 0, |e.args| - i
  {
    if i == |e.args| then [] else CheckedNames(e.args[i], ops) + CheckedNamesFrom(e, i + 1, ops)
  }

  function TermName(a: Expression): seq<string>
  {
    if a.TermArg? && a.term.Variable? then [a.term.value] else []
  }

  function ShallowNames(a: Expression): seq<string>
  {
    if a.Operation? then TermNamesFrom(a.args, 0) else TermName(a)
  }

  function TermNamesFrom(aas: seq<Expression>, j: nat): seq<string>
    requires j <= |aas|
    decreases |aas| - j
  {
    if j == |aas| then [] else TermName(aas[j]) + TermNamesFrom(aas, j + 1)
  }

  function ShallowNamesFrom(args: seq<Expression>, j: nat): seq<string>
    requires j <= |args|
    decreases |args| - j
  {
    if j == |args| then [] else ShallowNames(args[j]) + ShallowNamesFrom(args, j + 1)
  }

  predicate AllIn(names: seq<string>, vars: seq<string>)
  {
    forall v :: v in names ==> v in vars
  }

  lemma {:induction false} TermNamesFromKnown(aas: seq<Expression>, j: nat, vars: seq<string>)
    requires j <= |aas|
    ensures AllIn(TermNamesFrom(aas, j), vars) <==> forall m :: j <= m < |aas| ==> TermKnown(aas[m], vars)
    decreases |aas| - j
  {
    if j < |aas| {
      TermNamesFromKnown(aas, j + 1, vars);
      AllInAppend(TermName(aas[j]), TermNamesFrom(aas, j + 1), vars);
      assert (forall m :: j <= m < |aas| ==> TermKnown(aas[m], vars))
        <==> TermKnown(aas[j], vars) && forall m :: j + 1 <= m < |aas| ==> TermKnown(aas[m], vars);
    }
  }

  lemma {:induction false} ShallowNamesFromKnown(args: seq<Expression>, j: nat, vars: seq<string>)
    requires j <= |args|
    ensures AllIn(ShallowNamesFrom(args, j), vars) <==> forall m :: j <= m < |args| ==> ArgKnown(args[m], vars)
    decreases |args| - j
  {
    if j < |args| {
      var head, rest := ShallowNames(args[j]), ShallowNamesFrom(args, j + 1);
      assert ShallowNamesFrom(args, j) == head + rest;
      ShallowNamesFromKnown(args, j + 1, vars);
      ShallowNamesKnown(args[j], vars);
      AllInAppend(head, rest, vars);
      if !AllIn(ShallowNamesFrom(args, j), vars) {
        if AllIn(head, vars) {
          var m :| j + 1 <= m < |args| && !ArgKnown(args[m], vars);
        }
      }
    }
  }

  lemma ShallowNamesKnown(a: Expression, vars: seq<string>)
    ensures AllIn(ShallowNames(a), vars) <==> ArgKnown(a, vars)
  {
    if a.Operation? {
      TermNamesFromKnown(a.args, 0, vars);
    }
  }

  lemma AllInAppend(a: seq<string>, b: seq<string>, vars: seq<string>)
    ensures AllIn(a + b, vars) <==> AllIn(a, vars) && AllIn(b, vars)
  {
  }

  /**
   * Whenever the test gives an answer, it keeps the filter exactly when
   * every variable name it inspects is in the given list.
   */
  lemma {:induction false} KeepsExactly(e: Expression, vars: seq<string>, ops: seq<string>)
    ensures Keeps(e, vars, ops).Some? ==> (Keeps(e, vars, ops).value <==> AllIn(CheckedNames(e, ops), vars))
    decreases e, 1
  {
    match e
    case Operation(op, args) =>
      if op in ops {
        KeepsFromExactly(e, 0, vars, ops);
      } else {
        ShallowNamesFromKnown(args, 0, vars);
      }
    case _ =>
  }

  lemma {:induction false} KeepsFromExactly(e: Expression, i: nat, vars: seq<string>, ops: seq<string>)
    requires e.Operation? && i <= |e.args|
    ensures KeepsFrom(e, i, vars, ops).Some? ==>
      (KeepsFrom(e, i, vars, ops).value <==> AllIn(CheckedNamesFrom(e, i, ops), vars))
    decreases e, 0, |e.args| - i
  {
    if i < |e.args| {
      KeepsExactly(e.args[i], vars, ops);
      KeepsFromExactly(e, i + 1, vars, ops);
    }
  }

  /**
   * `whereFiltersContaining`: the top-level filters the test keeps, in
   * order; `None` when the test raises on one of them.
   */
  function FiltersContaining(fs: seq<Expression>, vars: seq<string>, ops: seq<string>): (r: Option<seq<Expression>>)
    ensures r.Some? ==> forall f :: f in r.value ==> f in fs && AllIn(CheckedNames(f, ops), vars)
    ensures r.Some? ==> forall f :: f in fs && AllIn(CheckedNames(f, ops), vars) ==> f in r.value
    ensures r.None? <==> exists f :: f in fs && Keeps(f, vars, ops).None?
  {
    if fs == [] then Some([])
    else
      assert forall f :: f in fs <==> f == fs[0] || f in fs[1..] by {
        assert fs == [fs[0]] + fs[1..];
      }
      KeepsExactly(fs[0], vars, ops);
      assert fs[0] in fs;
      match Keeps(fs[0], vars, ops)
      case None => None
      case Some(keep) =>
        match FiltersContaining(fs[1..], vars, ops)
        case None => None
        case Some(rest) => Some(if keep then [fs[0]] + rest else rest)
  }

  // ---------------------------------------------------------------------
  // Subqueries.

  /**
   * `subs`: the `where` lists of the nested queries, depth first. A nested
   * SELECT contributes its own list and its subqueries; each union branch
   * contributes one entry, which is empty unless the branch is itself a
   * nested query (the source reads `where` of the branch).
   */
  function Subs(w: seq<GraphPattern>): seq<seq<GraphPattern>>
    decreases w
  {
    if w == [] then [] else SubsOf(w[0]) + Subs(w[1..])
  }

  function SubsOf(p: GraphPattern): seq<seq<GraphPattern>>
    decreases p
  {
    match p
    case SubQuery(inner) => [inner] + Subs(inner)
    case UnionPattern(bs) => BranchSubs(bs)
    case _ => []
  }

  function BranchSubs(bs: seq<GraphPattern>): seq<seq<GraphPattern>>
    decreases bs
  {
    if bs == [] then []
    else (if bs[0].SubQuery? then [bs[0].where] + Subs(bs[0].where) else [[]]) + BranchSubs(bs[1..])
  }

  /**
   * `x` is the `where` list of a query nested in `w`: a nested SELECT at
   * any depth reached through nested SELECTs and union branches, or a union
   * branch itself (whose list is empty unless it is a nested SELECT).
   */
  predicate NestedIn(x: seq<GraphPattern>, w: seq<GraphPattern>)
    decreases w, 1
  {
    exists k :: 0 <= k < |w| && NestedUnder(x, w[k])
  }

  predicate NestedUnder(x: seq<GraphPattern>, p: GraphPattern)
    decreases p, 2
  {
    match p
    case SubQuery(inner) => x == inner || NestedIn(x, inner)
    case UnionPattern(bs) => exists j :: 0 <= j < |bs| && BranchNested(x, bs[j])
    case _ => false
  }

  predicate BranchNested(x: seq<GraphPattern>, b: GraphPattern)
    decreases b, 0
  {
    if b.SubQuery? then x == b.where || NestedIn(x, b.where) else x == []
  }

  /** The subqueries are exactly the nested queries. */
  lemma {:induction false} SubsExactlyNested(w: seq<GraphPattern>)
    ensures forall x :: x in Subs(w) <==> NestedIn(x, w)
    decreases w, 1
  {
    if w != [] {
      SubsOfExactlyNested(w[0]);
      SubsExactlyNested(w[1..]);
      forall x
        ensures NestedIn(x, w) <==> NestedUnder(x, w[0]) || NestedIn(x, w[1..])
      {
        if NestedIn(x, w) {
          var k :| 0 <= k < |w| && NestedUnder(x, w[k]);
          if k > 0 {
            assert w[1..][k - 1] == w[k];
          }
        }
        if NestedIn(x, w[1..]) {
          var k :| 0 <= k < |w[1..]| && NestedUnder(x, w[1..][k]);
          assert w[k + 1] == w[1..][k];
        }
      }
    }
  }

  lemma {:induction false} SubsOfExactlyNested(p: GraphPattern)
    ensures forall x :: x in SubsOf(p) <==> NestedUnder(x, p)
    decreases p, 2
  {
    match p
    case SubQuery(inner) => SubsExactlyNested(inner);
    case UnionPattern(bs) => BranchSubsExactlyNested(bs);
    case _ =>
  }

  lemma {:induction false} BranchSubsExactlyNested(bs: seq<GraphPattern>)
    ensures forall x :: x in BranchSubs(bs) <==> exists j :: 0 <= j < |bs| && BranchNested(x, bs[j])
    decreases bs, 0
  {
    if bs != [] {
      if bs[0].SubQuery? {
        SubsExactlyNested(bs[0].where);
      }
      BranchSubsExactlyNested(bs[1..]);
      forall x
        ensures (exists j :: 0 <= j < |bs| && BranchNested(x, bs[j])) <==>
          BranchNested(x, bs[0]) || exists j :: 0 <= j < |bs[1..]| && BranchNested(x, bs[1..][j])
      {
        if exists j :: 0 <= j < |bs| && BranchNested(x, bs[j]) {
          var j :| 0 <= j < |bs| && BranchNested(x, bs[j]);
          if j > 0 {
            assert bs[1..][j - 1] == bs[j];
          }
        }
        if exists j :: 0 <= j < |bs[1..]| && BranchNested(x, bs[1..][j]) {
          var j :| 0 <= j < |bs[1..]| && BranchNested(x, bs[1..][j]);
          assert bs[j + 1] == bs[1..][j];
        }
      }
    }
  }

  /** The branches of a union that are nested SELECTs, in order. */
  function Selects(bs: seq<GraphPattern>): (r: seq<GraphPattern>)
    ensures |r| <= |bs|
    ensures forall g :: g in r <==> g in bs && g.SubQuery?
  {
    if bs == [] then []
    else
      assert forall g :: g in bs <==> g == bs[0] || g in bs[1..] by {
        assert bs == [bs[0]] + bs[1..];
      }
      (if bs[0].SubQuery? then [bs[0]] else []) + Selects(bs[1..])
  }

  /**
   * A union contributes what its nested-SELECT branches would contribute
   * side by side at the top level, plus one empty entry for every other
   * branch: one entry per branch in all, then each nested branch's own
   * subqueries.
   */
  lemma {:induction false} BranchSubsCount(bs: seq<GraphPattern>)
    ensures |BranchSubs(bs)| == |Subs(Selects(bs))| + (|bs| - |Selects(bs)|)
    ensures |BranchSubs(bs)| >= |bs|
    decreases bs
  {
    if bs != [] {
      BranchSubsCount(bs[1..]);
      SubsAppend(if bs[0].SubQuery? then [bs[0]] else [], Selects(bs[1..]));
    }
  }

  lemma {:induction false} SubsAppend(a: seq<GraphPattern>, b: seq<GraphPattern>)
    ensures Subs(a + b) == Subs(a) + Subs(b)
    decreases a
  {
    if a != [] {
      assert (a + b)[0] == a[0];
      assert (a + b)[1..] == a[1..] + b;
      SubsAppend(a[1..], b);
    } else {
      assert a + b == b;
    }
  }
}
