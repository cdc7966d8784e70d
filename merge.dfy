// Overfetch avoidance (src/predicate.js): constraints and filters of the
// user's query are mined and added to the query of a compute predicate.
module Merge {
  import opened Common
  import opened Rdf
  import opened Sparql
  import opened Queries

  // ---------------------------------------------------------------------
  // Terms.

  /** Blank nodes count as variables. */
  predicate IsVariable(x: Term)
  {
    x.Variable? || x.BlankNode?
  }

  function LowerChar(c: char): char
  {
    if 'A' <= c <= 'Z' then (c as int + 32) as char else c
  }

  /** `s` starts with `scheme`, letters compared without case. */
  predicate HasScheme(s: string, scheme: string)
  {
    |scheme| <= |s| && forall k :: 0 <= k < |scheme| ==> LowerChar(s[k]) == scheme[k]
  }

  /** What follows the scheme, with the leading slashes removed. */
  function Authority(s: string): (r: string)
    ensures |r| <= |s|
    ensures r != [] ==> r[0] != '/'
  {
    if s != [] && s[0] == '/' then Authority(s[1..]) else s
  }

  /** An absolute `http:` or `https:` URL with a host. */
  predicate IsWebUrl(s: string)
  {
    (HasScheme(s, "http:") && Authority(s[5..]) != [])
    || (HasScheme(s, "https:") && Authority(s[6..]) != [])
  }

  /** `getTermType`: an IRI for a web URL, a variable for anything else. */
  function GetTermType(s: string): (r: Term)
    ensures r.value == s
    ensures r.NamedNode? <==> IsWebUrl(s)
    ensures !r.NamedNode? ==> r.Variable?
  {
    if IsWebUrl(s) then NamedNode(s) else Variable(s)
  }

  /** One term of `formatTriple`: `?name` for a variable or blank node, `<value>` otherwise. */
  function FormatTerm(x: Term): (r: string)
    ensures |r| >= 1 && (r[0] == '?' <==> IsVariable(x))
    ensures IsVariable(x) ==> r[1..] == x.value
    ensures !IsVariable(x) ==> |r| >= 2 && r[1..|r| - 1] == x.value && r[|r| - 1] == '>'
  {
    if IsVariable(x) then "?" + x.value else "<" + x.value + ">"
  }

  /**
   * `formatTriple`: the three terms separated by single spaces (for the log
   * line). It opens as its subject does and closes as its object does.
   */
  function FormatTriple(s: Term, p: Term, o: Term): (r: string)
    ensures |r| >= 5
    ensures r[0] == '?' <==> IsVariable(s)
    ensures !IsVariable(o) ==> r[|r| - 1] == '>'
    ensures IsVariable(o) ==> EndsWith(r, o.value)
  {
    var head, last := FormatTerm(s) + " " + FormatTerm(p) + " ", FormatTerm(o);
    assert (head + last)[0] == head[0] && (head + last)[|head + last| - |last|..] == last;
    head + last
  }

  // ---------------------------------------------------------------------
  // Lookups over a query's top-level triples.

  /** Index of the first triple satisfying `p`, `|ts|` if none. */
  function FirstMatch(ts: seq<Triple>, p: Triple -> bool): (i: nat)
    ensures i <= |ts|
    ensures forall k :: 0 <= k < i ==> !p(ts[k])
    ensures i < |ts| ==> p(ts[i])
  {
    if ts == [] then 0 else if p(ts[0]) then 0 else 1 + FirstMatch(ts[1..], p)
  }

  /** `findVariable`: the subject of the first triple with a variable subject and the given predicate. */
  function FindVariable(ts: seq<Triple>, pname: string): (r: Option<string>)
    ensures r.None? <==> forall t :: t in ts ==> !(IsVariable(t.subject) && PredValue(t.pred) == Some(pname))
    ensures r.Some? ==> exists k :: (0 <= k < |ts| && IsVariable(ts[k].subject) && PredValue(ts[k].pred) == Some(pname)
      && ts[k].subject.value == r.value
      && forall m :: 0 <= m < k ==> !(IsVariable(ts[m].subject) && PredValue(ts[m].pred) == Some(pname)))
  {
    var i := FirstMatch(ts, (t: Triple) => IsVariable(t.subject) && PredValue(t.pred) == Some(pname));
    if i < |ts| then Some(ts[i].subject.value) else None
  }

  /** `findSubjectMapping`: the variable subject of the first triple `(?x, predicate, object)`. */
  function FindSubjectMapping(ts: seq<Triple>, pname: string, ovalue: string): (r: Option<string>)
    ensures r.None? <==> forall t :: t in ts ==> !(IsVariable(t.subject) && PredValue(t.pred) == Some(pname) && t.obj.value == ovalue)
    ensures r.Some? ==> exists k :: (0 <= k < |ts| && IsVariable(ts[k].subject) && PredValue(ts[k].pred) == Some(pname)
      && ts[k].obj.value == ovalue && ts[k].subject.value == r.value
      && forall m :: 0 <= m < k ==> !(IsVariable(ts[m].subject) && PredValue(ts[m].pred) == Some(pname) && ts[m].obj.value == ovalue))
  {
    var i := FirstMatch(ts, (t: Triple) => IsVariable(t.subject) && PredValue(t.pred) == Some(pname) && t.obj.value == ovalue);
    if i < |ts| then Some(ts[i].subject.value) else None
  }

  /** `findObjectMapping`: the variable object of the first triple `(subject, predicate, ?x)`. */
  function FindObjectMapping(ts: seq<Triple>, subject: string, pname: string): (r: Option<string>)
    ensures r.None? <==> forall t :: t in ts ==> !(IsVariable(t.obj) && PredValue(t.pred) == Some(pname) && t.subject.value == subject)
    ensures r.Some? ==> exists k :: (0 <= k < |ts| && IsVariable(ts[k].obj) && PredValue(ts[k].pred) == Some(pname)
      && ts[k].subject.value == subject && ts[k].obj.value == r.value
      && forall m :: 0 <= m < k ==> !(IsVariable(ts[m].obj) && PredValue(ts[m].pred) == Some(pname) && ts[m].subject.value == subject))
  {
    var i := FirstMatch(ts, (t: Triple) => IsVariable(t.obj) && PredValue(t.pred) == Some(pname) && t.subject.value == subject);
    if i < |ts| then Some(ts[i].obj.value) else None
  }

  /** A mined constraint: the terms of a triple to add to the predicate's query. */
  datatype Constraint = Constraint(s: Term, p: Term, o: Term)

  /** The values of a triple, as `hasConstraint` compares them. */
  predicate Matches(t: Triple, c: Constraint)
  {
    t.subject.value == c.s.value && PredValue(t.pred) == Some(c.p.value) && t.obj.value == c.o.value
  }

  /** `hasConstraint`: some top-level triple has the constraint's three values. */
  function HasConstraint(ts: seq<Triple>, c: Constraint): (b: bool)
    ensures b <==> exists t :: t in ts && Matches(t, c)
  {
    if ts == [] then false
    else
      assert forall t :: t in ts <==> t == ts[0] || t in ts[1..] by {
        assert ts == [ts[0]] + ts[1..];
      }
      Matches(ts[0], c) || HasConstraint(ts[1..], c)
  }

  // ---------------------------------------------------------------------
  // Mining constraints.

  /** The accumulators of `findConstraints`. */
  datatype MineState = MineState(constraints: seq<Constraint>, variables: seq<string>, mappings: map<string, string>)

  /** The name a newly met user variable is mapped to: the template's own, or `_` + its name. */
  function MappedName(name: string, found: Option<string>): string
  {
    if found.Some? && found.value != "" then found.value else "_" + name
  }

  /** Record a user variable and its mapping; the mapped variable is returned. */
  function Introduce(st: MineState, name: string, found: Option<string>): (MineState, Term)
  {
    var mapped := MappedName(name, found);
    (st.(variables := st.variables + [name], mappings := st.mappings[name := mapped]), Variable(mapped))
  }

  /** `mappings[v] ? mappings[v] : v`. */
  function Mapped(st: MineState, v: string, fallback: Term): Term
  {
    if v in st.mappings && st.mappings[v] != "" then Variable(st.mappings[v]) else fallback
  }

  /**
   * One iteration of `findConstraints` over a user triple, with `ts0` the
   * template's top-level triples, `v0` the template's subject variable and
   * `v1` the user's subject variable of the computed predicate. The four
   * cases are tried in order: subject is `v1`; subject already met; object
   * is `v1`; object already met.
   */
  function MineStep(t: Triple, st: MineState, ts0: seq<Triple>, pname: string, v0: string, v1: Option<string>): MineState
    requires t.pred.PlainPred?
  {
    var pv := t.pred.term.value;
    if pv == pname then st
    else if IsVariable(t.subject) && v1 == Some(t.subject.value) then
      var (st1, o) := if IsVariable(t.obj) then Introduce(st, t.obj.value, FindObjectMapping(ts0, t.subject.value, pv)) else (st, t.obj);
      st1.(constraints := st1.constraints + [Constraint(Variable(v0), t.pred.term, o)])
    else if IsVariable(t.subject) && t.subject.value in st.variables then
      var (st1, o) := if IsVariable(t.obj) then Introduce(st, t.obj.value, FindObjectMapping(ts0, t.subject.value, pv)) else (st, t.obj);
      st1.(constraints := st1.constraints + [Constraint(Mapped(st1, t.subject.value, t.subject), t.pred.term, o)])
    else if IsVariable(t.obj) && v1 == Some(t.obj.value) then
      var (st1, s) := if IsVariable(t.subject) then Introduce(st, t.subject.value, FindSubjectMapping(ts0, pv, t.obj.value)) else (st, t.subject);
      st1.(constraints := st1.constraints + [Constraint(s, t.pred.term, Variable(v0))])
    else if IsVariable(t.obj) && t.obj.value in st.variables then
      var (st1, s) := if IsVariable(t.subject) then Introduce(st, t.subject.value, FindSubjectMapping(ts0, pv, t.obj.value)) else (st, t.subject);
      st1.(constraints := st1.constraints + [Constraint(s, t.pred.term, Mapped(st1, t.obj.value, t.obj))])
    else st
  }

  predicate PlainPredicates(ts: seq<Triple>)
  {
    forall t :: t in ts ==> t.pred.PlainPred?
  }

  /** `findConstraints` over the user's top-level triples, in order. */
  function Mine(ts1: seq<Triple>, ts0: seq<Triple>, pname: string, v0: string, v1: Option<string>): MineState
    requires PlainPredicates(ts1)
  {
    if ts1 == [] then MineState([], [], map[])
    else
      assert ts1[|ts1| - 1] in ts1;
      MineStep(ts1[|ts1| - 1], Mine(ts1[..|ts1| - 1], ts0, pname, v0, v1), ts0, pname, v0, v1)
  }

  /** `findConstraints` as the loop it is. */
  method FindConstraints(ts0: seq<Triple>, ts1: seq<Triple>, pname: string, v0: string, v1: Option<string>)
    returns (st: MineState)
    requires PlainPredicates(ts1)
    ensures st == Mine(ts1, ts0, pname, v0, v1)
  {
    var constraints, variables, mappings := [], [], map[];
    var i := 0;
    while i < |ts1|
      invariant 0 <= i <= |ts1|
      invariant MineState(constraints, variables, mappings) == Mine(ts1[..i], ts0, pname, v0, v1)
    {
      var t := ts1[i];
      assert ts1[..i + 1][..i] == ts1[..i] && ts1[..i + 1][i] == t;
      assert t in ts1;
      var pv := t.pred.term.value;
      if pv != pname {
        if IsVariable(t.subject) && v1 == Some(t.subject.value) {
          var o := t.obj;
          if IsVariable(t.obj) {
            var name := MappedName(t.obj.value, FindObjectMapping(ts0, t.subject.value, pv));
            variables := variables + [t.obj.value];
            mappings := mappings[t.obj.value := name];
            o := Variable(name);
          }
          constraints := constraints + [Constraint(Variable(v0), t.pred.term, o)];
        } else if IsVariable(t.subject) && t.subject.value in variables {
          var o := t.obj;
          if IsVariable(t.obj) {
            var name := MappedName(t.obj.value, FindObjectMapping(ts0, t.subject.value, pv));
            variables := variables + [t.obj.value];
            mappings := mappings[t.obj.value := name];
            o := Variable(name);
          }
          var s := if t.subject.value in mappings && mappings[t.subject.value] != "" then Variable(mappings[t.subject.value]) else t.subject;
          constraints := constraints + [Constraint(s, t.pred.term, o)];
        } else if IsVariable(t.obj) && v1 == Some(t.obj.value) {
          var s := t.subject;
          if IsVariable(t.subject) {
            var name := MappedName(t.subject.value, FindSubjectMapping(ts0, pv, t.obj.value));
            variables := variables + [t.subject.value];
            mappings := mappings[t.subject.value := name];
            s := Variable(name);
          }
          constraints := constraints + [Constraint(s, t.pred.term, Variable(v0))];
        } else if IsVariable(t.obj) && t.obj.value in variables {
          var s := t.subject;
          if IsVariable(t.subject) {
            var name := MappedName(t.subject.value, FindSubjectMapping(ts0, pv, t.obj.value));
            variables := variables + [t.subject.value];
            mappings := mappings[t.subject.value := name];
            s := Variable(name);
          }
          var o := if t.obj.value in mappings && mappings[t.obj.value] != "" then Variable(mappings[t.obj.value]) else t.obj;
          constraints := constraints + [Constraint(s, t.pred.term, o)];
        }
      }
      i := i + 1;
    }
    assert ts1[..i] == ts1;
    st := MineState(constraints, variables, mappings);
  }

  /** Mining only appends constraints. */
  lemma MineStepGrows(t: Triple, st: MineState, ts0: seq<Triple>, pname: string, v0: string, v1: Option<string>)
    requires t.pred.PlainPred?
    ensures st.constraints <= MineStep(t, st, ts0, pname, v0, v1).constraints
  {
  }

  /** No constraint uses the computed predicate: triples using it are skipped. */
  lemma {:induction false} MinedSkipsPredicate(ts1: seq<Triple>, ts0: seq<Triple>, pname: string, v0: string, v1: Option<string>)
    requires PlainPredicates(ts1)
    ensures forall c :: c in Mine(ts1, ts0, pname, v0, v1).constraints ==> c.p.value != pname
  {
    if ts1 != [] {
      assert PlainPredicates(ts1[..|ts1| - 1]) by {
        assert forall t :: t in ts1[..|ts1| - 1] ==> t in ts1;
      }
      MinedSkipsPredicate(ts1[..|ts1| - 1], ts0, pname, v0, v1);
    }
  }

  /**
   * A user triple `(v1, p, x)` with `p` not the computed predicate yields a
   * constraint `(v0, p, _)`; a user triple `(c, p, v1)` with a constant
   * subject yields the constraint `(c, p, v0)`; and a user triple
   * `(?x, p, v1)` whose variable subject is neither `v1` nor met before it
   * yields `(?m, p, v0)`, with `m` the mapping `?x` gets from the template.
   */
  lemma {:induction false} MinedAroundSubject(ts1: seq<Triple>, ts0: seq<Triple>, pname: string, v0: string, v1: Option<string>)
    requires PlainPredicates(ts1)
    ensures forall t :: t in ts1 && IsVariable(t.subject) && v1 == Some(t.subject.value) && t.pred.term.value != pname ==>
      exists c :: c in Mine(ts1, ts0, pname, v0, v1).constraints && c.s == Variable(v0) && c.p == t.pred.term
    ensures forall t :: t in ts1 && !IsVariable(t.subject) && IsVariable(t.obj) && v1 == Some(t.obj.value) && t.pred.term.value != pname ==>
      Constraint(t.subject, t.pred.term, Variable(v0)) in Mine(ts1, ts0, pname, v0, v1).constraints
    ensures forall i :: 0 <= i < |ts1| && FreshSubjectToV1(ts1, i, ts0, pname, v0, v1) ==>
      Constraint(Variable(MappedName(ts1[i].subject.value, FindSubjectMapping(ts0, ts1[i].pred.term.value, ts1[i].obj.value))),
                 ts1[i].pred.term, Variable(v0)) in Mine(ts1, ts0, pname, v0, v1).constraints
  {
    forall i | 0 <= i < |ts1| && FreshSubjectToV1(ts1, i, ts0, pname, v0, v1)
      ensures Constraint(Variable(MappedName(ts1[i].subject.value, FindSubjectMapping(ts0, ts1[i].pred.term.value, ts1[i].obj.value))),
                         ts1[i].pred.term, Variable(v0)) in Mine(ts1, ts0, pname, v0, v1).constraints
    {
      MinedFreshSubject(ts1, i, ts0, pname, v0, v1);
    }
    if ts1 != [] {
      var init, last := ts1[..|ts1| - 1], ts1[|ts1| - 1];
      assert ts1 == init + [last];
      assert forall t :: t in ts1 <==> t in init || t == last;
      assert PlainPredicates(init);
      MinedAroundSubject(init, ts0, pname, v0, v1);
      var st := Mine(init, ts0, pname, v0, v1);
      MineStepGrows(last, st, ts0, pname, v0, v1);
      var cs := Mine(ts1, ts0, pname, v0, v1).constraints;
      assert forall c :: c in st.constraints ==> c in cs;
    }
  }

  /**
   * The user triple at `i` has a variable subject that is not `v1` and was
   * not met by the triples before it, its object is `v1`, and its predicate
   * is not the computed one: the third case of `findConstraints`.
   */
  predicate FreshSubjectToV1(ts1: seq<Triple>, i: nat, ts0: seq<Triple>, pname: string, v0: string, v1: Option<string>)
    requires PlainPredicates(ts1) && i < |ts1|
  {
    assert PlainPredicates(ts1[..i]) by {
      assert forall t :: t in ts1[..i] ==> t in ts1;
    }
    var t := ts1[i];
    && IsVariable(t.subject) && v1 != Some(t.subject.value)
    && t.subject.value !in Mine(ts1[..i], ts0, pname, v0, v1).variables
    && IsVariable(t.obj) && v1 == Some(t.obj.value)
    && t.pred.term.value != pname
  }

  lemma {:induction false} MinedFreshSubject(ts1: seq<Triple>, i: nat, ts0: seq<Triple>, pname: string, v0: string, v1: Option<string>)
    requires PlainPredicates(ts1) && i < |ts1|
    requires FreshSubjectToV1(ts1, i, ts0, pname, v0, v1)
    ensures Constraint(Variable(MappedName(ts1[i].subject.value, FindSubjectMapping(ts0, ts1[i].pred.term.value, ts1[i].obj.value))),
                       ts1[i].pred.term, Variable(v0)) in Mine(ts1, ts0, pname, v0, v1).constraints
  {
    var init, last := ts1[..|ts1| - 1], ts1[|ts1| - 1];
    assert PlainPredicates(init) by {
      assert forall t :: t in init ==> t in ts1;
    }
    var st := Mine(init, ts0, pname, v0, v1);
    assert last in ts1;
    assert Mine(ts1, ts0, pname, v0, v1) == MineStep(last, st, ts0, pname, v0, v1);
    if i == |ts1| - 1 {
      assert init == ts1[..i];
      var pv := last.pred.term.value;
      var (st1, sv) := Introduce(st, last.subject.value, FindSubjectMapping(ts0, pv, last.obj.value));
      assert MineStep(last, st, ts0, pname, v0, v1) == st1.(constraints := st1.constraints + [Constraint(sv, last.pred.term, Variable(v0))]);
    } else {
      assert init[..i] == ts1[..i] && init[i] == ts1[i];
      assert FreshSubjectToV1(init, i, ts0, pname, v0, v1);
      MinedFreshSubject(init, i, ts0, pname, v0, v1);
      MineStepGrows(last, st, ts0, pname, v0, v1);
    }
  }

  /**
   * Every user variable met is mapped, and it is mapped either to `_` +
   * its own name or to a variable found in the template's triples.
   */
  predicate MappingsSound(st: MineState, ts0: seq<Triple>)
  {
    && (forall v :: v in st.variables ==> v in st.mappings)
    && forall v :: v in st.mappings ==>
         st.mappings[v] == "_" + v
         || (exists t :: t in ts0 && IsVariable(t.obj) && t.obj.value == st.mappings[v])
         || (exists t :: t in ts0 && IsVariable(t.subject) && t.subject.value == st.mappings[v])
  }

  /**
   * User variable `v` met through the user triple `t` is mapped to `m`:
   * `v` is the object of `t`, looked up with `findObjectMapping` from the
   * subject, or its subject, looked up with `findSubjectMapping` from the
   * object.
   */
  predicate IntroducedBy(t: Triple, v: string, m: string, ts0: seq<Triple>)
    requires t.pred.PlainPred?
  {
    (IsVariable(t.subject) && IsVariable(t.obj) && t.obj.value == v
      && m == MappedName(v, FindObjectMapping(ts0, t.subject.value, t.pred.term.value)))
    || (IsVariable(t.subject) && IsVariable(t.obj) && t.subject.value == v
      && m == MappedName(v, FindSubjectMapping(ts0, t.pred.term.value, t.obj.value)))
  }

  /** Every mapping was set from a user triple that does not use the computed predicate. */
  predicate MappingsJustified(st: MineState, ts1: seq<Triple>, ts0: seq<Triple>, pname: string)
    requires PlainPredicates(ts1)
  {
    forall v :: v in st.mappings ==>
      exists t :: t in ts1 && t.pred.term.value != pname && IntroducedBy(t, v, st.mappings[v], ts0)
  }

  /** Every user variable met is mapped, to `_` + its own name or to a variable of the template's triples. */
  lemma {:induction false} MinedMappings(ts1: seq<Triple>, ts0: seq<Triple>, pname: string, v0: string, v1: Option<string>)
    requires PlainPredicates(ts1)
    ensures MappingsSound(Mine(ts1, ts0, pname, v0, v1), ts0)
  {
    if ts1 != [] {
      var init, last := ts1[..|ts1| - 1], ts1[|ts1| - 1];
      assert PlainPredicates(init) by {
        assert forall t :: t in init ==> t in ts1;
      }
      assert last in ts1;
      MinedMappings(init, ts0, pname, v0, v1);
      MineStepSound(last, Mine(init, ts0, pname, v0, v1), ts0, pname, v0, v1);
    }
  }

  /** One step of `findConstraints` keeps every met variable mapped, to `_` + its name or a template variable. */
  lemma MineStepSound(t: Triple, st: MineState, ts0: seq<Triple>, pname: string, v0: string, v1: Option<string>)
    requires t.pred.PlainPred? && MappingsSound(st, ts0)
    ensures MappingsSound(MineStep(t, st, ts0, pname, v0, v1), ts0)
  {
    var pv := t.pred.term.value;
    MineStepIntroduces(t, st, ts0, pname, v0, v1);
    if IsVariable(t.obj) {
      var f := FindObjectMapping(ts0, t.subject.value, pv);
      if f.Some? {
        var k :| 0 <= k < |ts0| && IsVariable(ts0[k].obj) && ts0[k].obj.value == f.value;
        assert ts0[k] in ts0;
      }
      IntroduceSound(st, t.obj.value, f, ts0);
    }
    if IsVariable(t.subject) {
      var f := FindSubjectMapping(ts0, pv, t.obj.value);
      if f.Some? {
        var k :| 0 <= k < |ts0| && IsVariable(ts0[k].subject) && ts0[k].subject.value == f.value;
        assert ts0[k] in ts0;
      }
      IntroduceSound(st, t.subject.value, f, ts0);
    }
  }

  /** A step of `findConstraints` records at most one variable: its object's or its subject's. */
  lemma MineStepIntroduces(t: Triple, st: MineState, ts0: seq<Triple>, pname: string, v0: string, v1: Option<string>)
    requires t.pred.PlainPred?
    ensures var st' := MineStep(t, st, ts0, pname, v0, v1);
            var pv := t.pred.term.value;
      || (st'.variables == st.variables && st'.mappings == st.mappings)
      || (IsVariable(t.obj) && var st1 := Introduce(st, t.obj.value, FindObjectMapping(ts0, t.subject.value, pv)).0;
          st'.variables == st1.variables && st'.mappings == st1.mappings)
      || (IsVariable(t.subject) && var st1 := Introduce(st, t.subject.value, FindSubjectMapping(ts0, pv, t.obj.value)).0;
          st'.variables == st1.variables && st'.mappings == st1.mappings)
  {
    var pv := t.pred.term.value;
    var st' := MineStep(t, st, ts0, pname, v0, v1);
    if pv == pname {
    } else if IsVariable(t.subject) && (v1 == Some(t.subject.value) || t.subject.value in st.variables) {
      if IsVariable(t.obj) {
        var st1 := Introduce(st, t.obj.value, FindObjectMapping(ts0, t.subject.value, pv)).0;
        assert st'.variables == st1.variables && st'.mappings == st1.mappings;
      }
    } else if IsVariable(t.obj) && (v1 == Some(t.obj.value) || t.obj.value in st.variables) {
      if IsVariable(t.subject) {
        var st1 := Introduce(st, t.subject.value, FindSubjectMapping(ts0, pv, t.obj.value)).0;
        assert st'.variables == st1.variables && st'.mappings == st1.mappings;
      }
    }
  }

  /** Recording a variable keeps the mappings sound when the name found, if any, is a template variable. */
  lemma IntroduceSound(st: MineState, name: string, found: Option<string>, ts0: seq<Triple>)
    requires MappingsSound(st, ts0)
    requires found.Some? ==>
      (exists t :: t in ts0 && IsVariable(t.obj) && t.obj.value == found.value)
      || (exists t :: t in ts0 && IsVariable(t.subject) && t.subject.value == found.value)
    ensures MappingsSound(Introduce(st, name, found).0, ts0)
  {
  }

  /**
   * One step of `findConstraints` leaves every mapping as it was, except
   * that a user variable it meets is mapped as `findObjectMapping` or
   * `findSubjectMapping` says for that triple.
   */
  lemma MineStepMappings(t: Triple, st: MineState, ts0: seq<Triple>, pname: string, v0: string, v1: Option<string>)
    requires t.pred.PlainPred?
    ensures var st' := MineStep(t, st, ts0, pname, v0, v1);
      forall v :: v in st'.mappings ==>
        (v in st.mappings && st'.mappings[v] == st.mappings[v])
        || (t.pred.term.value != pname && IntroducedBy(t, v, st'.mappings[v], ts0))
  {
  }

  /**
   * Each mapping is the one the template lookups give for some user triple
   * that holds the variable and does not use the computed predicate.
   */
  lemma {:induction false} MinedMappingsJustified(ts1: seq<Triple>, ts0: seq<Triple>, pname: string, v0: string, v1: Option<string>)
    requires PlainPredicates(ts1)
    ensures MappingsJustified(Mine(ts1, ts0, pname, v0, v1), ts1, ts0, pname)
  {
    if ts1 != [] {
      var init, last := ts1[..|ts1| - 1], ts1[|ts1| - 1];
      assert forall t :: t in init ==> t in ts1;
      assert last in ts1;
      assert PlainPredicates(init);
      MinedMappingsJustified(init, ts0, pname, v0, v1);
      var st := Mine(init, ts0, pname, v0, v1);
      var st' := Mine(ts1, ts0, pname, v0, v1);
      assert st' == MineStep(last, st, ts0, pname, v0, v1);
      MineStepMappings(last, st, ts0, pname, v0, v1);
      forall v | v in st'.mappings
        ensures exists t :: t in ts1 && t.pred.term.value != pname && IntroducedBy(t, v, st'.mappings[v], ts0)
      {
        if v in st.mappings && st'.mappings[v] == st.mappings[v] {
          var t :| t in init && t.pred.term.value != pname && IntroducedBy(t, v, st.mappings[v], ts0);
          assert t in ts1;
        } else {
          assert IntroducedBy(last, v, st'.mappings[v], ts0);
        }
      }
    }
  }

  // ---------------------------------------------------------------------
  // Adding the constraints.

  /**
   * The triple added for a constraint, keeping the constraint's terms. The
   * source keeps only their values and rebuilds each term with
   * `getTermType`; `ConstraintTripleAsWritten` is that version.
   */
  function ConstraintTriple(c: Constraint): Triple
  {
    Triple(c.s, PlainPred(c.p), c.o)
  }

  function ConstraintTripleAsWritten(c: Constraint): Triple
  {
    Triple(GetTermType(c.s.value), PlainPred(GetTermType(c.p.value)), GetTermType(c.o.value))
  }

  /** As written, a literal constant of the user's query becomes a variable of the same name. */
  lemma LiteralBecomesVariableAsWritten()
    ensures var c := Constraint(Variable("s"), NamedNode("http://example.org/name"), Literal("Bob"));
      && ConstraintTripleAsWritten(c).obj == Variable("Bob")
      && ConstraintTriple(c).obj == Literal("Bob")
      && Matches(ConstraintTriple(c), c)
  {
    assert !HasScheme("Bob", "http:");
  }

  /** A constraint triple has exactly the values of its constraint. */
  lemma ConstraintTripleMatches(c: Constraint)
    ensures Matches(ConstraintTriple(c), c)
    ensures forall c' :: Matches(ConstraintTriple(c), c') <==> c'.s.value == c.s.value && c'.p.value == c.p.value && c'.o.value == c.o.value
  {
  }

  /**
   * The loop of `merge` over the constraints: a constraint whose values are
   * already in the template (including those just added) is skipped,
   * otherwise its triple goes to the first basic graph pattern. Returns the
   * new `where` list and the triples added.
   */
  function Constrained(w: seq<GraphPattern>, cs: seq<Constraint>): (seq<GraphPattern>, seq<Triple>)
  {
    if cs == [] then (w, [])
    else
      var (w1, added) := Constrained(w, cs[..|cs| - 1]);
      var c := cs[|cs| - 1];
      if HasConstraint(WhereTriples(w1), c) then (w1, added)
      else (AddTriples(w1, [ConstraintTriple(c)]), added + [ConstraintTriple(c)])
  }

  /** What the constraint loop of `merge` guarantees, for any template and constraints. */
  lemma ConstrainedContents(w: seq<GraphPattern>, cs: seq<Constraint>)
    ensures ConstrainedFacts(w, Constrained(w, cs).0, Constrained(w, cs).1, cs)
    ensures AddedFrom(w, Constrained(w, cs).1, cs)
  {
    ConstrainedFactsHold(w, cs);
    ConstrainedAddedFrom(w, cs);
  }

  lemma {:induction false} ConstrainedFactsHold(w: seq<GraphPattern>, cs: seq<Constraint>)
    ensures ConstrainedFacts(w, Constrained(w, cs).0, Constrained(w, cs).1, cs)
  {
    if cs == [] {
      assert multiset(WhereTriples(w)) + multiset([]) == multiset(WhereTriples(w));
    } else {
      var init, c := cs[..|cs| - 1], cs[|cs| - 1];
      assert cs == init + [c];
      ConstrainedFactsHold(w, init);
      var r1 := Constrained(w, init);
      if HasConstraint(WhereTriples(r1.0), c) {
        assert Constrained(w, cs) == r1;
        ConstrainedSkip(w, r1.0, r1.1, init, c);
      } else {
        assert Constrained(w, cs) == (AddTriples(r1.0, [ConstraintTriple(c)]), r1.1 + [ConstraintTriple(c)]);
        ConstrainedAdd(w, r1.0, r1.1, init, c);
      }
    }
  }

  /** The triples of the constraints, in order. */
  function ConstraintTriples(cs: seq<Constraint>): (ts: seq<Triple>)
    ensures |ts| == |cs| && forall k :: 0 <= k < |cs| ==> ts[k] == ConstraintTriple(cs[k])
  {
    if cs == [] then [] else ConstraintTriples(cs[..|cs| - 1]) + [ConstraintTriple(cs[|cs| - 1])]
  }

  /** `a` is `b` with some elements left out, the rest in the same order. */
  predicate Subsequence<T(==)>(a: seq<T>, b: seq<T>)
    decreases |b|
  {
    a == [] || (b != [] &&
      if a[|a| - 1] == b[|b| - 1] then Subsequence(a[..|a| - 1], b[..|b| - 1])
      else Subsequence(a, b[..|b| - 1]))
  }

  /** Appending to the longer sequence keeps a subsequence one. */
  lemma {:induction false} SubsequenceExtend<T>(a: seq<T>, b: seq<T>, x: T)
    requires Subsequence(a, b)
    ensures Subsequence(a, b + [x])
    decreases |b|, 1
  {
    assert (b + [x])[..|b|] == b;
    if a != [] && a[|a| - 1] == x {
      SubsequenceDropLast(a, b);
    }
  }

  /** Appending the same element to both keeps a subsequence one. */
  lemma SubsequenceAppend<T>(a: seq<T>, b: seq<T>, x: T)
    requires Subsequence(a, b)
    ensures Subsequence(a + [x], b + [x])
  {
    assert (a + [x])[..|a|] == a;
    assert (b + [x])[..|b|] == b;
  }

  /** Leaving out the last element keeps a subsequence one. */
  lemma {:induction false} SubsequenceDropLast<T>(a: seq<T>, b: seq<T>)
    requires a != [] && Subsequence(a, b)
    ensures Subsequence(a[..|a| - 1], b)
    decreases |b|, 0
  {
    var a', b' := a[..|a| - 1], b[..|b| - 1];
    assert b == b' + [b[|b| - 1]];
    if a[|a| - 1] == b[|b| - 1] {
      SubsequenceExtend(a', b', b[|b| - 1]);
    } else {
      SubsequenceDropLast(a, b');
      SubsequenceExtend(a', b', b[|b| - 1]);
    }
  }

  /**
   * Every added triple is the triple of a constraint the original template
   * did not have, in the order of the constraints; and every such
   * constraint has a triple among those added.
   */
  predicate AddedFrom(w: seq<GraphPattern>, added: seq<Triple>, cs: seq<Constraint>)
  {
    && AddedInOrder(w, added, cs)
    && (forall c :: c in cs && !HasConstraint(WhereTriples(w), c) ==>
          exists k :: 0 <= k < |added| && Matches(added[k], c))
  }

  predicate AddedInOrder(w: seq<GraphPattern>, added: seq<Triple>, cs: seq<Constraint>)
  {
    && (forall k :: 0 <= k < |added| ==>
          exists c :: c in cs && added[k] == ConstraintTriple(c) && !HasConstraint(WhereTriples(w), c))
    && Subsequence(added, ConstraintTriples(cs))
  }

  lemma ConstrainedAddedFrom(w: seq<GraphPattern>, cs: seq<Constraint>)
    ensures AddedFrom(w, Constrained(w, cs).1, cs)
  {
    ConstrainedInOrder(w, cs);
    ConstrainedFactsHold(w, cs);
    AddedCovers(w, Constrained(w, cs).0, Constrained(w, cs).1, cs);
  }

  lemma {:induction false} ConstrainedInOrder(w: seq<GraphPattern>, cs: seq<Constraint>)
    ensures AddedInOrder(w, Constrained(w, cs).1, cs)
  {
    if cs != [] {
      var init, c := cs[..|cs| - 1], cs[|cs| - 1];
      assert cs == init + [c];
      ConstrainedInOrder(w, init);
      var r1 := Constrained(w, init);
      if HasConstraint(WhereTriples(r1.0), c) {
        assert Constrained(w, cs).1 == r1.1;
        InOrderSkip(w, r1.1, init, c);
      } else {
        assert Constrained(w, cs).1 == r1.1 + [ConstraintTriple(c)];
        ConstrainedFactsHold(w, init);
        NotPresentBefore(WhereTriples(w), WhereTriples(r1.0), c);
        InOrderAdd(w, r1.1, init, c);
      }
    }
  }

  /** A skipped constraint keeps the added triples in order. */
  lemma InOrderSkip(w: seq<GraphPattern>, added: seq<Triple>, init: seq<Constraint>, c: Constraint)
    requires AddedInOrder(w, added, init)
    ensures AddedInOrder(w, added, init + [c])
  {
    assert ConstraintTriples(init + [c]) == ConstraintTriples(init) + [ConstraintTriple(c)];
    SubsequenceExtend(added, ConstraintTriples(init), ConstraintTriple(c));
    assert forall x :: x in init ==> x in init + [c];
  }

  /** The triple of a constraint missing from the template keeps the added triples in order. */
  lemma InOrderAdd(w: seq<GraphPattern>, added: seq<Triple>, init: seq<Constraint>, c: Constraint)
    requires AddedInOrder(w, added, init)
    requires !HasConstraint(WhereTriples(w), c)
    ensures AddedInOrder(w, added + [ConstraintTriple(c)], init + [c])
  {
    assert ConstraintTriples(init + [c]) == ConstraintTriples(init) + [ConstraintTriple(c)];
    SubsequenceAppend(added, ConstraintTriples(init), ConstraintTriple(c));
    assert forall x :: x in init ==> x in init + [c];
    assert c in init + [c];
  }

  /** A constraint missing from a larger list of triples is missing from a smaller one. */
  lemma NotPresentBefore(ts: seq<Triple>, ts': seq<Triple>, c: Constraint)
    requires multiset(ts) <= multiset(ts')
    requires !HasConstraint(ts', c)
    ensures !HasConstraint(ts, c)
  {
    if HasConstraint(ts, c) {
      HasConstraintGrows(ts, ts', [c]);
    }
  }

  /** A constraint present afterwards but not before is matched by an added triple. */
  lemma AddedCovers(w: seq<GraphPattern>, w': seq<GraphPattern>, added: seq<Triple>, cs: seq<Constraint>)
    requires ConstrainedFacts(w, w', added, cs)
    ensures forall c :: c in cs && !HasConstraint(WhereTriples(w), c) ==>
      exists k :: 0 <= k < |added| && Matches(added[k], c)
  {
    forall c | c in cs && !HasConstraint(WhereTriples(w), c)
      ensures exists k :: 0 <= k < |added| && Matches(added[k], c)
    {
      var t :| t in WhereTriples(w') && Matches(t, c);
      assert t in multiset(WhereTriples(w'));
      assert t !in WhereTriples(w);
      assert t in multiset(added);
      var k :| 0 <= k < |added| && added[k] == t;
    }
  }

  /** A constraint already present adds nothing and keeps the facts. */
  lemma ConstrainedSkip(w: seq<GraphPattern>, w1: seq<GraphPattern>, added1: seq<Triple>, init: seq<Constraint>, c: Constraint)
    requires ConstrainedFacts(w, w1, added1, init)
    requires HasConstraint(WhereTriples(w1), c)
    ensures ConstrainedFacts(w, w1, added1, init + [c])
  {
    assert forall x :: x in init + [c] ==> x in init || x == c;
  }

  /**
   * Afterwards every constraint is present; the template's triples gained
   * exactly the added ones, none of which has the values of a triple the
   * template had before or of another added one.
   */
  predicate ConstrainedFacts(w: seq<GraphPattern>, w': seq<GraphPattern>, added: seq<Triple>, cs: seq<Constraint>)
  {
    && multiset(WhereTriples(w')) == multiset(WhereTriples(w)) + multiset(added)
    && (forall c :: c in cs ==> HasConstraint(WhereTriples(w'), c))
    && (forall k :: 0 <= k < |added| ==> forall t :: t in WhereTriples(w) ==> !SameValues(t, added[k]))
    && (forall i, j :: 0 <= i < j < |added| ==> !SameValues(added[i], added[j]))
  }

  /** Adding the triple of a constraint that is not yet present keeps the facts. */
  lemma ConstrainedAdd(w: seq<GraphPattern>, w1: seq<GraphPattern>, added1: seq<Triple>, init: seq<Constraint>, c: Constraint)
    requires ConstrainedFacts(w, w1, added1, init)
    requires !HasConstraint(WhereTriples(w1), c)
    ensures ConstrainedFacts(w, AddTriples(w1, [ConstraintTriple(c)]), added1 + [ConstraintTriple(c)], init + [c])
  {
    var x := ConstraintTriple(c);
    var ts0, ts1, ts' := WhereTriples(w), WhereTriples(w1), WhereTriples(AddTriples(w1, [x]));
    AddTriplesContents(w1, [x]);
    assert multiset(ts') == multiset(ts1) + multiset{x};
    assert multiset(ts') == multiset(ts0) + multiset(added1 + [x]);
    ConstrainedAddPresent(ts1, ts', init, c);
    ConstrainedAddDistinct(ts0, ts1, added1, c);
  }

  lemma ConstrainedAddPresent(ts1: seq<Triple>, ts': seq<Triple>, init: seq<Constraint>, c: Constraint)
    requires multiset(ts') == multiset(ts1) + multiset{ConstraintTriple(c)}
    requires forall c' :: c' in init ==> HasConstraint(ts1, c')
    ensures forall c' :: c' in init + [c] ==> HasConstraint(ts', c')
  {
    HasConstraintGrows(ts1, ts', init);
    assert ConstraintTriple(c) in multiset(ts');
    assert Matches(ConstraintTriple(c), c);
  }

  lemma ConstrainedAddDistinct(ts0: seq<Triple>, ts1: seq<Triple>, added1: seq<Triple>, c: Constraint)
    requires multiset(ts1) == multiset(ts0) + multiset(added1)
    requires !HasConstraint(ts1, c)
    requires forall k :: 0 <= k < |added1| ==> forall t :: t in ts0 ==> !SameValues(t, added1[k])
    requires forall i, j :: 0 <= i < j < |added1| ==> !SameValues(added1[i], added1[j])
    ensures var added := added1 + [ConstraintTriple(c)];
      && (forall k :: 0 <= k < |added| ==> forall t :: t in ts0 ==> !SameValues(t, added[k]))
      && (forall i, j :: 0 <= i < j < |added| ==> !SameValues(added[i], added[j]))
  {
    var x := ConstraintTriple(c);
    forall t | t in ts1 ensures !SameValues(t, x) {
      if SameValues(t, x) {
        assert Matches(t, c);
      }
    }
    forall t | t in ts0 ensures t in ts1 {
      assert t in multiset(ts0);
      assert t in multiset(ts1);
    }
    forall k | 0 <= k < |added1| ensures added1[k] in ts1 {
      assert added1[k] in multiset(added1);
      assert added1[k] in multiset(ts1);
    }
  }

  /** A constraint present in a list of triples stays present in a larger one. */
  lemma HasConstraintGrows(ts: seq<Triple>, ts': seq<Triple>, cs: seq<Constraint>)
    requires multiset(ts) <= multiset(ts')
    requires forall c :: c in cs ==> HasConstraint(ts, c)
    ensures forall c :: c in cs ==> HasConstraint(ts', c)
  {
    forall c | c in cs ensures HasConstraint(ts', c) {
      var t :| t in ts && Matches(t, c);
      assert t in multiset(ts);
    }
  }
  /** Two triples with the same three values. */
  predicate SameValues(t: Triple, u: Triple)
  {
    t.subject.value == u.subject.value && PredValue(t.pred) == PredValue(u.pred) && t.obj.value == u.obj.value
  }

  // ---------------------------------------------------------------------
  // Translating filters.

  datatype Translation = Kept(expression: Expression) | Dropped | TypeFault

  /** The name a user variable has in the template: its own if the template has it, else its mapping. */
  function Translate(v: string, known: seq<string>, m: map<string, string>): Option<string>
  {
    if v in known then Some(v)
    else if v in m && m[v] != "" then Some(m[v])
    else None
  }

  function Renamed(x: Term, v: string): Term
  {
    if x.Variable? then Variable(v) else if x.BlankNode? then BlankNode(v) else x
  }

  /** Every variable (and blank node) of an expression, at any depth, including inside value lists. */
  function VarNames(e: Expression): seq<string>
    decreases e, 1
  {
    match e
    case Operation(_, args) => VarNamesFrom(args, 0)
    case TermArg(x) => if IsVariable(x) then [x.value] else []
    case TermList(xs) => TermVarNames(xs)
    case PatternArg => []
  }

  function VarNamesFrom(args: seq<Expression>, i: nat): seq<string>
    requires i <= |args|
    decreases args, 0, |args| - i
  {
    if i == |args| then [] else VarNames(args[i]) + VarNamesFrom(args, i + 1)
  }

  function TermVarNames(xs: seq<Term>): (r: seq<string>)
    ensures forall v :: v in r <==> exists x :: x in xs && IsVariable(x) && x.value == v
  {
    if xs == [] then []
    else
      assert forall x :: x in xs <==> x == xs[0] || x in xs[1..] by {
        assert xs == [xs[0]] + xs[1..];
      }
      (if IsVariable(xs[0]) then [xs[0].value] else []) + TermVarNames(xs[1..])
  }

  /** The expression with every variable name blanked: what a renaming must keep. */
  function Erase(e: Expression): Expression
  {
    match e
    case Operation(op, args) => Operation(op, seq(|args|, j requires 0 <= j < |args| => Erase(args[j])))
    case TermArg(x) => TermArg(Renamed(x, ""))
    case TermList(xs) => TermList(seq(|xs|, j requires 0 <= j < |xs| => Renamed(xs[j], "")))
    case PatternArg => PatternArg
  }

  /**
   * One argument of an operation that is not `&&` or `||`, renamed
   * throughout (nested operations and value lists included); `None` when a
   * variable in it is unknown to the template.
   */
  function RenameArg(a: Expression, known: seq<string>, m: map<string, string>): Option<Expression>
    decreases a, 1
  {
    match a
    case Operation(op, args) =>
      (match RenameArgsFrom(args, 0, known, m)
       case None => None
       case Some(args') => Some(Operation(op, args')))
    case TermArg(x) =>
      if !IsVariable(x) then Some(a)
      else (match Translate(x.value, known, m)
        case None => None
        case Some(v) => Some(TermArg(Renamed(x, v))))
    case TermList(xs) =>
      (match RenameTerms(xs, known, m)
       case None => None
       case Some(xs') => Some(TermList(xs')))
    case PatternArg => Some(a)
  }

  function RenameArgsFrom(args: seq<Expression>, i: nat, known: seq<string>, m: map<string, string>): Option<seq<Expression>>
    requires i <= |args|
    decreases args, 0, |args| - i
  {
    if i == |args| then Some([])
    else match RenameArg(args[i], known, m)
      case None => None
      case Some(a') =>
        match RenameArgsFrom(args, i + 1, known, m)
        case None => None
        case Some(rest) => Some([a'] + rest)
  }

  function RenameTerms(xs: seq<Term>, known: seq<string>, m: map<string, string>): Option<seq<Term>>
  {
    if xs == [] then Some([])
    else
      var head := if IsVariable(xs[0]) then Translate(xs[0].value, known, m) else Some(xs[0].value);
      match head
      case None => None
      case Some(v) =>
        match RenameTerms(xs[1..], known, m)
        case None => None
        case Some(rest) => Some([if IsVariable(xs[0]) then Renamed(xs[0], v) else xs[0]] + rest)
  }

  /** The results of translating each operand of `&&` or `||`; all are evaluated. */
  function Operands(args: seq<Expression>, known: seq<string>, m: map<string, string>): seq<Translation>
    decreases args, 2
  {
    seq(|args|, j requires 0 <= j < |args| => FindExpression(args[j], known, m))
  }

  /** The kept operands, in order. */
  function KeptOf(outs: seq<Translation>): (r: seq<Expression>)
    ensures |r| <= |outs|
    ensures |r| == |outs| <==> forall j :: 0 <= j < |outs| ==> outs[j].Kept?
    ensures (forall j :: 0 <= j < |outs| ==> outs[j].Kept?) ==> forall j :: 0 <= j < |outs| ==> r[j] == outs[j].expression
  {
    if outs == [] then []
    else
      var rest := KeptOf(outs[1..]);
      assert forall j :: 1 <= j < |outs| ==> outs[1..][j - 1] == outs[j];
      if outs[0].Kept? then [outs[0].expression] + rest else rest
  }

  /**
   * `findExpressions` as intended: a `&&` or an `||` survives only if all
   * its operands survive; any other operation survives only if every
   * variable in it, at any depth, is known to the template, and is then
   * renamed. Asking a term for its arguments is the TypeError it raises.
   */
  function FindExpression(e: Expression, known: seq<string>, m: map<string, string>): Translation
    decreases e, 3
  {
    match e
    case Operation(op, args) =>
      if op == "&&" || op == "||" then
        var outs := Operands(args, known, m);
        if exists j :: 0 <= j < |outs| && outs[j].TypeFault? then TypeFault
        else
          var kept := KeptOf(outs);
          if |kept| == |args| then Kept(Operation(op, kept)) else Dropped
      else
        (match RenameArgsFrom(args, 0, known, m)
         case None => Dropped
         case Some(args') => Kept(Operation(op, args')))
    case _ => TypeFault
  }

  /** A filter whose `&&`/`||` operands are operations all the way down: it never faults. */
  predicate WellShaped(e: Expression)
    decreases e
  {
    e.Operation? && (e.operator == "&&" || e.operator == "||" ==> forall j :: 0 <= j < |e.args| ==> WellShaped(e.args[j]))
  }

  /** Every variable name in `names` can be translated. */
  predicate AllTranslatable(names: seq<string>, known: seq<string>, m: map<string, string>)
  {
    forall v :: v in names ==> Translate(v, known, m).Some?
  }

  predicate InTemplate(names: seq<string>, known: seq<string>, m: map<string, string>)
  {
    forall v :: v in names ==> v in known || v in m.Values
  }

  lemma {:induction false} RenameArgSound(a: Expression, known: seq<string>, m: map<string, string>)
    ensures RenameArg(a, known, m).Some? <==> AllTranslatable(VarNames(a), known, m)
    ensures RenameArg(a, known, m).Some? ==>
      var a' := RenameArg(a, known, m).value; Erase(a') == Erase(a) && InTemplate(VarNames(a'), known, m)
    decreases a, 1
  {
    match a
    case Operation(op, args) =>
      RenameArgsFromSound(args, 0, known, m);
      if RenameArg(a, known, m).Some? {
        var args' := RenameArgsFrom(args, 0, known, m).value;
        assert |args'| == |args|;
        assert seq(|args'|, j requires 0 <= j < |args'| => Erase(args'[j])) == seq(|args|, j requires 0 <= j < |args| => Erase(args[j]));
      }
    case TermArg(x) =>
    case TermList(xs) =>
      RenameTermsSound(xs, known, m);
      if RenameArg(a, known, m).Some? {
        var xs' := RenameTerms(xs, known, m).value;
        assert seq(|xs'|, j requires 0 <= j < |xs'| => Renamed(xs'[j], "")) == seq(|xs|, j requires 0 <= j < |xs| => Renamed(xs[j], ""));
      }
    case PatternArg =>
  }

  lemma {:induction false} RenameArgsFromSound(args: seq<Expression>, i: nat, known: seq<string>, m: map<string, string>)
    requires i <= |args|
    ensures RenameArgsFrom(args, i, known, m).Some? <==> AllTranslatable(VarNamesFrom(args, i), known, m)
    ensures RenameArgsFrom(args, i, known, m).Some? ==>
      var r := RenameArgsFrom(args, i, known, m).value;
      && |r| == |args| - i
      && (forall j :: 0 <= j < |r| ==> Erase(r[j]) == Erase(args[i + j]))
      && InTemplate(VarNamesFrom(r, 0), known, m)
    decreases args, 0, |args| - i
  {
    if i < |args| {
      RenameArgSound(args[i], known, m);
      RenameArgsFromSound(args, i + 1, known, m);
      var h := RenameArg(args[i], known, m);
      var t := RenameArgsFrom(args, i + 1, known, m);
      if h.Some? && t.Some? {
        var r := [h.value] + t.value;
        assert r[1..] == t.value;
        VarNamesFromCons(r);
      }
    }
  }

  lemma VarNamesFromCons(r: seq<Expression>)
    requires r != []
    ensures VarNamesFrom(r, 0) == VarNames(r[0]) + VarNamesFrom(r[1..], 0)
  {
    VarNamesFromShift(r, 1);
  }

  lemma {:induction false} VarNamesFromShift(r: seq<Expression>, i: nat)
    requires 1 <= i <= |r|
    ensures VarNamesFrom(r, i) == VarNamesFrom(r[1..], i - 1)
    decreases |r| - i
  {
    if i < |r| {
      VarNamesFromShift(r, i + 1);
      assert r[1..][i - 1] == r[i];
    }
  }

  lemma {:induction false} RenameTermsSound(xs: seq<Term>, known: seq<string>, m: map<string, string>)
    ensures RenameTerms(xs, known, m).Some? <==> AllTranslatable(TermVarNames(xs), known, m)
    ensures RenameTerms(xs, known, m).Some? ==>
      var r := RenameTerms(xs, known, m).value;
      && |r| == |xs|
      && (forall j :: 0 <= j < |r| ==> Renamed(r[j], "") == Renamed(xs[j], ""))
      && InTemplate(TermVarNames(r), known, m)
  {
    if xs != [] {
      RenameTermsSound(xs[1..], known, m);
      var r := RenameTerms(xs, known, m);
      if r.Some? {
        assert r.value[1..] == RenameTerms(xs[1..], known, m).value;
        forall j | 1 <= j < |xs| ensures Renamed(r.value[j], "") == Renamed(xs[j], "") {
          assert r.value[j] == r.value[1..][j - 1];
        }
      }
    }
  }

  /**
   * The intended `findExpressions`: it faults exactly on a filter that is
   * not well shaped; otherwise it keeps the filter exactly when every
   * variable in it can be translated, and what it keeps is the same filter
   * with only variable names changed, each to a name the template knows.
   */
  lemma {:induction false} FindExpressionSound(e: Expression, known: seq<string>, m: map<string, string>)
    ensures FindExpression(e, known, m).TypeFault? <==> !WellShaped(e)
    ensures WellShaped(e) ==> (FindExpression(e, known, m).Kept? <==> AllTranslatable(VarNames(e), known, m))
    ensures FindExpression(e, known, m).Kept? ==>
      var e' := FindExpression(e, known, m).expression; Erase(e') == Erase(e) && InTemplate(VarNames(e'), known, m)
    decreases e, 3
  {
    if e.Operation? && (e.operator == "&&" || e.operator == "||") {
      JunctionExpressionSound(e, known, m);
    } else if e.Operation? {
      OperationExpressionSound(e, known, m);
    }
  }

  lemma JunctionExpressionSound(e: Expression, known: seq<string>, m: map<string, string>)
    requires e.Operation? && (e.operator == "&&" || e.operator == "||")
    ensures TranslationSound(e, FindExpression(e, known, m), known, m)
    decreases e, 2
  {
    var args := e.args;
    var outs := Operands(args, known, m);
    forall j | 0 <= j < |args| ensures TranslationSound(args[j], outs[j], known, m) {
      FindExpressionSound(args[j], known, m);
    }
    JunctionSound(args, outs, known, m);
  }

  lemma OperationExpressionSound(e: Expression, known: seq<string>, m: map<string, string>)
    requires e.Operation? && e.operator != "&&" && e.operator != "||"
    ensures FindExpression(e, known, m).TypeFault? <==> !WellShaped(e)
    ensures WellShaped(e) ==> (FindExpression(e, known, m).Kept? <==> AllTranslatable(VarNames(e), known, m))
    ensures FindExpression(e, known, m).Kept? ==>
      var e' := FindExpression(e, known, m).expression; Erase(e') == Erase(e) && InTemplate(VarNames(e'), known, m)
    decreases e, 2
  {
    var args := e.args;
    RenameArgsFromSound(args, 0, known, m);
    if FindExpression(e, known, m).Kept? {
      var args' := RenameArgsFrom(args, 0, known, m).value;
      assert seq(|args'|, j requires 0 <= j < |args'| => Erase(args'[j])) == seq(|args|, j requires 0 <= j < |args| => Erase(args[j]));
    }
  }

  /** What `FindExpressionSound` states, for one operand and its translation. */
  predicate TranslationSound(e: Expression, t: Translation, known: seq<string>, m: map<string, string>)
  {
    && (t.TypeFault? <==> !WellShaped(e))
    && (WellShaped(e) ==> (t.Kept? <==> AllTranslatable(VarNames(e), known, m)))
    && (t.Kept? ==> Erase(t.expression) == Erase(e) && InTemplate(VarNames(t.expression), known, m))
  }

  /** The `&&`/`||` case, given the operands' own properties. */
  lemma JunctionSound(args: seq<Expression>, outs: seq<Translation>, known: seq<string>, m: map<string, string>)
    requires outs == Operands(args, known, m)
    requires forall j :: 0 <= j < |args| ==> TranslationSound(args[j], outs[j], known, m)
    ensures (forall j :: 0 <= j < |args| ==> WellShaped(args[j])) ==>
      ((forall j :: 0 <= j < |outs| ==> outs[j].Kept?) <==> AllTranslatable(VarNamesFrom(args, 0), known, m))
    ensures (forall j :: 0 <= j < |outs| ==> outs[j].Kept?) ==>
      var kept := KeptOf(outs);
      && seq(|kept|, j requires 0 <= j < |kept| => Erase(kept[j])) == seq(|args|, j requires 0 <= j < |args| => Erase(args[j]))
      && InTemplate(VarNamesFrom(kept, 0), known, m)
  {
    VarNamesFromAll(args, 0);
    if forall j :: 0 <= j < |outs| ==> outs[j].Kept? {
      var kept := KeptOf(outs);
      VarNamesFromAll(kept, 0);
    }
  }

  /** A name occurs in the operands' names exactly when it occurs in one operand's. */
  lemma {:induction false} VarNamesFromAll(args: seq<Expression>, i: nat)
    requires i <= |args|
    ensures forall v :: v in VarNamesFrom(args, i) <==> exists j :: i <= j < |args| && v in VarNames(args[j])
    decreases |args| - i
  {
    if i < |args| {
      VarNamesFromAll(args, i + 1);
    }
  }

  /**
   * `findExpressions` as the source writes it: an `||` keeps whichever
   * operands survive (tested against the original operand count, so an
   * `||` left with none survives as well), and any other operation renames
   * only its direct variable arguments, copying nested operations and
   * value lists untouched.
   */
  function FindExpressionAsWritten(e: Expression, known: seq<string>, m: map<string, string>): Translation
    decreases e, 3
  {
    match e
    case Operation(op, args) =>
      if op == "&&" || op == "||" then
        var outs := seq(|args|, j requires 0 <= j < |args| => FindExpressionAsWritten(args[j], known, m));
        if exists j :: 0 <= j < |outs| && outs[j].TypeFault? then TypeFault
        else
          var kept := KeptOf(outs);
          if op == "&&" then (if |kept| == |args| then Kept(Operation(op, kept)) else Dropped)
          else if |args| > 0 then Kept(Operation(op, kept)) else Dropped
      else
        (match ShallowRename(args, 0, known, m)
         case None => Dropped
         case Some(args') => Kept(Operation(op, args')))
    case _ => TypeFault
  }

  function ShallowRename(args: seq<Expression>, i: nat, known: seq<string>, m: map<string, string>): Option<seq<Expression>>
    requires i <= |args|
    decreases |args| - i
  {
    if i == |args| then Some([])
    else
      var a := args[i];
      if a.TermArg? && IsVariable(a.term) then
        (match Translate(a.term.value, known, m)
         case None => None
         case Some(v) =>
           (match ShallowRename(args, i + 1, known, m)
            case None => None
            case Some(rest) => Some([TermArg(Renamed(a.term, v))] + rest)))
      else
        match ShallowRename(args, i + 1, known, m)
        case None => None
        case Some(rest) => Some([a] + rest)
  }

  /** `?a > 1 || ?b > 2` with only `?a` known: as written the filter `?a > 1` is kept, a stronger condition than the user's. */
  lemma OrDisjunctDroppedAsWritten()
    ensures var gt1 := Operation(">", [TermArg(Variable("a")), TermArg(Literal("1"))]);
            var gt2 := Operation(">", [TermArg(Variable("b")), TermArg(Literal("2"))]);
            var e := Operation("||", [gt1, gt2]);
      && FindExpressionAsWritten(e, ["a"], map[]) == Kept(Operation("||", [gt1]))
      && Erase(Operation("||", [gt1])) != Erase(e)
      && FindExpression(e, ["a"], map[]) == Dropped
  {
    var gt1 := Operation(">", [TermArg(Variable("a")), TermArg(Literal("1"))]);
    var gt2 := Operation(">", [TermArg(Variable("b")), TermArg(Literal("2"))]);
    var e := Operation("||", [gt1, gt2]);
    OrDisjunctKeptAsWritten();
    OrDisjunctDropped();
    assert |Erase(Operation("||", [gt1])).args| != |Erase(e).args|;
  }

  lemma OrDisjunctKeptAsWritten()
    ensures var gt1 := Operation(">", [TermArg(Variable("a")), TermArg(Literal("1"))]);
            var gt2 := Operation(">", [TermArg(Variable("b")), TermArg(Literal("2"))]);
      FindExpressionAsWritten(Operation("||", [gt1, gt2]), ["a"], map[]) == Kept(Operation("||", [gt1]))
  {
    var gt1 := Operation(">", [TermArg(Variable("a")), TermArg(Literal("1"))]);
    var gt2 := Operation(">", [TermArg(Variable("b")), TermArg(Literal("2"))]);
    var args1 := [TermArg(Variable("a")), TermArg(Literal("1"))];
    assert ShallowRename(args1, 2, ["a"], map[]) == Some([]);
    assert ShallowRename(args1, 1, ["a"], map[]) == Some([args1[1]] + []);
    assert Translate("a", ["a"], map[]) == Some("a");
    assert Renamed(Variable("a"), "a") == Variable("a");
    assert ShallowRename(args1, 0, ["a"], map[]) == Some([args1[0]] + ([args1[1]] + []));
    assert [args1[0]] + ([args1[1]] + []) == args1;
    assert FindExpressionAsWritten(gt1, ["a"], map[]) == Kept(gt1);
    assert FindExpressionAsWritten(gt2, ["a"], map[]) == Dropped;
    var e := Operation("||", [gt1, gt2]);
    var outs := seq(|e.args|, j requires 0 <= j < |e.args| => FindExpressionAsWritten(e.args[j], ["a"], map[]));
    assert outs == [Kept(gt1), Dropped];
    assert KeptOf(outs[1..]) == [];
    assert KeptOf(outs) == [gt1];
  }

  lemma OrDisjunctDropped()
    ensures var gt1 := Operation(">", [TermArg(Variable("a")), TermArg(Literal("1"))]);
            var gt2 := Operation(">", [TermArg(Variable("b")), TermArg(Literal("2"))]);
      FindExpression(Operation("||", [gt1, gt2]), ["a"], map[]) == Dropped
  {
    var gt1 := Operation(">", [TermArg(Variable("a")), TermArg(Literal("1"))]);
    var gt2 := Operation(">", [TermArg(Variable("b")), TermArg(Literal("2"))]);
    assert RenameArgsFrom(gt2.args, 0, ["a"], map[]) == None;
    assert FindExpression(gt2, ["a"], map[]) == Dropped;
    var e := Operation("||", [gt1, gt2]);
    assert RenameArgsFrom(gt1.args, 0, ["a"], map[]).Some? by {
      assert RenameArg(gt1.args[1], ["a"], map[]) == Some(gt1.args[1]);
      assert RenameArg(gt1.args[0], ["a"], map[]).Some?;
      assert RenameArgsFrom(gt1.args, 2, ["a"], map[]) == Some([]);
      assert RenameArgsFrom(gt1.args, 1, ["a"], map[]).Some?;
    }
    assert FindExpression(gt1, ["a"], map[]).Kept?;
    var outs' := Operands(e.args, ["a"], map[]);
    assert outs'[0].Kept? && outs'[1] == Dropped;
    assert |KeptOf(outs')| != |e.args|;
  }

  /** `?x + 1 > 3` with `?x` unknown: as written it is kept with `?x` untranslated. */
  lemma NestedVariableKeptAsWritten()
    ensures var e := Operation(">", [Operation("+", [TermArg(Variable("x")), TermArg(Literal("1"))]), TermArg(Literal("3"))]);
      && FindExpressionAsWritten(e, [], map[]) == Kept(e)
      && !InTemplate(VarNames(e), [], map[])
      && FindExpression(e, [], map[]) == Dropped
  {
    var plus := Operation("+", [TermArg(Variable("x")), TermArg(Literal("1"))]);
    var e := Operation(">", [plus, TermArg(Literal("3"))]);
    var args := [plus, TermArg(Literal("3"))];
    assert ShallowRename(args, 2, [], map[]) == Some([]);
    assert ShallowRename(args, 1, [], map[]) == Some([args[1]] + []);
    assert ShallowRename(args, 0, [], map[]) == Some([args[0]] + ([args[1]] + []));
    assert [args[0]] + ([args[1]] + []) == args;
    assert VarNames(TermArg(Variable("x"))) == ["x"];
    assert VarNamesFrom(plus.args, 0) == ["x"] + VarNamesFrom(plus.args, 1);
    assert "x" in VarNames(plus);
    assert VarNamesFrom(e.args, 0) == VarNames(plus) + VarNamesFrom(e.args, 1);
    assert RenameArgsFrom(plus.args, 0, [], map[]) == None;
  }

  /** `findFilters`: the translations the user's filters keep, in order; a TypeError aborts. */
  function FindFilters(fs: seq<Expression>, known: seq<string>, m: map<string, string>): (r: Result<seq<Expression>, Translation>)
    ensures r.Ok? <==> forall f :: f in fs ==> !FindExpression(f, known, m).TypeFault?
    ensures r.Ok? ==> forall e' :: e' in r.value ==> exists f :: f in fs && FindExpression(f, known, m) == Kept(e')
    ensures r.Ok? ==> forall f :: f in fs && FindExpression(f, known, m).Kept? ==> FindExpression(f, known, m).expression in r.value
  {
    if fs == [] then Ok([])
    else
      assert forall f :: f in fs <==> f == fs[0] || f in fs[1..] by {
        assert fs == [fs[0]] + fs[1..];
      }
      match FindExpression(fs[0], known, m)
      case TypeFault => assert fs[0] in fs; Err(TypeFault)
      case Dropped => FindFilters(fs[1..], known, m)
      case Kept(e') =>
        match FindFilters(fs[1..], known, m)
        case Err(x) => Err(x)
        case Ok(rest) => Ok([e'] + rest)
  }

  // ---------------------------------------------------------------------
  // merge.

  /** What `merge` mines from the user's query against the template's `where` list. */
  function Mined(w0: seq<GraphPattern>, user: QueryData, subject: string, pname: string): MineState
    requires PlainPredicates(WhereTriples(user.where))
  {
    var ts1 := WhereTriples(user.where);
    Mine(ts1, WhereTriples(w0), pname, subject, FindVariable(ts1, pname))
  }

  /** The first loop of `merge`: each constraint whose values no top-level triple has is added as a triple. */
  method AddConstraints(q0: Query, cs: seq<Constraint>)
    modifies q0
    ensures q0.where == Constrained(old(q0.where), cs).0
    ensures q0.queryType == old(q0.queryType) && q0.template == old(q0.template)
    ensures q0.prefixes == old(q0.prefixes) && q0.limit == old(q0.limit)
  {
    var k := 0;
    while k < |cs|
      invariant 0 <= k <= |cs|
      invariant q0.where == Constrained(old(q0.where), cs[..k]).0
      invariant q0.queryType == old(q0.queryType) && q0.template == old(q0.template)
      invariant q0.prefixes == old(q0.prefixes) && q0.limit == old(q0.limit)
    {
      ConstrainedStep(old(q0.where), cs, k);
      var c := cs[k];
      if !HasConstraint(WhereTriples(q0.where), c) {
        q0.AddWhereTriples([ConstraintTriple(c)]);
      }
      k := k + 1;
    }
    assert cs[..|cs|] == cs;
  }

  /** One more constraint either is already present or is added to the first basic graph pattern. */
  lemma ConstrainedStep(w: seq<GraphPattern>, cs: seq<Constraint>, k: nat)
    requires k < |cs|
    ensures var w1 := Constrained(w, cs[..k]).0;
      Constrained(w, cs[..k + 1]).0 == if HasConstraint(WhereTriples(w1), cs[k]) then w1 else AddTriples(w1, [ConstraintTriple(cs[k])])
  {
    assert cs[..k + 1][..k] == cs[..k];
  }

  /**
   * `Predicate.merge` on the template query `q0`: the mined constraints not
   * already present are added, then the translated filters (if any), and
   * the user's limit is copied when it is set and not zero. A TypeError
   * while translating filters leaves the constraints added.
   */
  method MergeQuery(q0: Query, user: QueryData, subject: string, pname: string) returns (r: Result<Query, Translation>)
    requires PlainPredicates(WhereTriples(user.where))
    modifies q0
    ensures var st := Mined(old(q0.where), user, subject, pname);
            var w1 := Constrained(old(q0.where), st.constraints).0;
            var fs := FindFilters(WhereFilters(user.where), VariableNames(w1), st.mappings);
      && (fs.Err? ==> r.Err? && q0.where == w1 && q0.limit == old(q0.limit))
      && (fs.Ok? ==> r == Ok(q0) && q0.where == w1 + AsFilterPatterns(fs.value)
                     && q0.limit == if user.limit.Some? && user.limit.value != 0 then user.limit else old(q0.limit))
    ensures q0.queryType == old(q0.queryType) && q0.template == old(q0.template) && q0.prefixes == old(q0.prefixes)
  {
    var ts1 := WhereTriples(user.where);
    var v1 := FindVariable(ts1, pname);
    var st := FindConstraints(WhereTriples(q0.where), ts1, pname, subject, v1);
    AddConstraints(q0, st.constraints);
    var filters := FindFilters(WhereFilters(user.where), VariableNames(q0.where), st.mappings);
    if filters.Err? {
      return Err(filters.error);
    }
    if |filters.value| > 0 {
      q0.AddWhereFilters(filters.value);
    } else {
      assert AsFilterPatterns(filters.value) == [];
      assert q0.where + [] == q0.where;
    }
    if user.limit.Some? && user.limit.value != 0 {
      q0.SetLimit(user.limit);
    }
    r := Ok(q0);
  }
}
