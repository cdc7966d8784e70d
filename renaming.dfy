// Variable renaming inside a substitution template (`_renameVariables` and
// `_renameVariables_internal` of src/substitutionHandler.js).
//
// A template is instantiated in two passes over its algebra: the first
// appends the instance's appendix to every variable except the boundary
// variables `_s` and `_o`; the second replaces `_s` and `_o` by the subject
// and object of the user's triple pattern.
module Renaming {
  import opened Common
  import opened Rdf
  import opened Algebra

  /** The two renamers of the source: suffixing and boundary binding. */
  datatype Renamer =
    | Unique(appendix: string)
    | Special(subject: Term, obj: Term)

  predicate IsBoundary(v: string)
  {
    v == "_s" || v == "_o"
  }

  /** One application of a renamer to a term; only variables change. */
  function Rename(t: Term, f: Renamer): Term
  {
    if !t.Variable? then t
    else match f
      case Unique(a) =>
        if IsBoundary(t.value) || EndsWith(t.value, a) then t else Variable(t.value + a)
      case Special(s, o) =>
        if t.value == "_s" then s else if t.value == "_o" then o else t
  }

  /** A renamer applied `k` times to the same term position. */
  function RenameTimes(t: Term, f: Renamer, k: nat): Term
    decreases k
  {
    if k == 0 then t else RenameTimes(Rename(t, f), f, k - 1)
  }

  function RenamePattern(p: Pattern, f: Renamer, k: nat): Pattern
  {
    Pattern(RenameTimes(p.subject, f, k), RenameTimes(p.pred, f, k), RenameTimes(p.obj, f, k))
  }

  function RenameTerms(vs: seq<Term>, f: Renamer, k: nat): seq<Term>
  {
    seq(|vs|, i requires 0 <= i < |vs| => RenameTimes(vs[i], f, k))
  }

  /**
   * `k` walks of `_renameVariables_internal` with renamer `f`. The walk
   * visits pattern terms, path subjects and objects, projected, grouped and
   * extended variables, term and aggregate expressions, and every input.
   * It leaves link IRIs, a left join's condition and named-function
   * arguments alone. The input of an existence expression is visited twice
   * per walk, once by its own case and once by the trailing input step.
   */
  function RenameNode(n: Node, f: Renamer, k: nat): Node
    decreases n
  {
    match n
    case Bgp(ps) => Bgp(seq(|ps|, i requires 0 <= i < |ps| => RenamePattern(ps[i], f, k)))
    case Join(ins) => Join(seq(|ins|, i requires 0 <= i < |ins| => RenameNode(ins[i], f, k)))
    case LeftJoin(l, r, c) => LeftJoin(RenameNode(l, f, k), RenameNode(r, f, k), c)
    case Union(ins) => Union(seq(|ins|, i requires 0 <= i < |ins| => RenameNode(ins[i], f, k)))
    case Filter(inp, e) => Filter(RenameNode(inp, f, k), RenameExpr(e, f, k))
    case PathNode(s, p, o) => PathNode(RenameTimes(s, f, k), p, RenameTimes(o, f, k))
    case Project(inp, vs) => Project(RenameNode(inp, f, k), RenameTerms(vs, f, k))
    case Group(inp, vs, ags) =>
      Group(RenameNode(inp, f, k), RenameTerms(vs, f, k),
            seq(|ags|, i requires 0 <= i < |ags| => RenameExpr(ags[i], f, k)))
    case OrderBy(inp, es) =>
      OrderBy(RenameNode(inp, f, k), seq(|es|, i requires 0 <= i < |es| => RenameExpr(es[i], f, k)))
    case Extend(inp, v, e) => Extend(RenameNode(inp, f, k), RenameTimes(v, f, k), RenameExpr(e, f, k))
    case Slice(inp, st, len) => Slice(RenameNode(inp, f, k), st, len)
    case Distinct(inp) => Distinct(RenameNode(inp, f, k))
  }

  function RenameExpr(e: Expr, f: Renamer, k: nat): Expr
    decreases e
  {
    match e
    case Operator(op, args) => Operator(op, seq(|args|, i requires 0 <= i < |args| => RenameExpr(args[i], f, k)))
    case Existence(neg, inp) => Existence(neg, RenameNode(inp, f, 2 * k))
    case TermExpr(t) => TermExpr(RenameTimes(t, f, k))
    case Aggregate(ag, x, v) => Aggregate(ag, RenameExpr(x, f, k), RenameTimes(v, f, k))
    case Named(_, _) => e
  }

  /** `_renameVariables`: the suffix pass followed by the boundary pass. */
  function RenameVariables(t: Node, appendix: string, subject: Term, obj: Term): Node
  {
    RenameNode(RenameNode(t, Unique(appendix), 1), Special(subject, obj), 1)
  }

  // ---------------------------------------------------------------------
  // Which variables a tree mentions at the positions the walk visits.

  predicate TermOk(t: Term, ok: string -> bool)
  {
    t.Variable? ==> ok(t.value)
  }

  ghost predicate VarsOk(n: Node, ok: string -> bool)
    decreases n
  {
    match n
    case Bgp(ps) =>
      forall i :: 0 <= i < |ps| ==>
        TermOk(ps[i].subject, ok) && TermOk(ps[i].pred, ok) && TermOk(ps[i].obj, ok)
    case Join(ins) => forall i :: 0 <= i < |ins| ==> VarsOk(ins[i], ok)
    case LeftJoin(l, r, _) => VarsOk(l, ok) && VarsOk(r, ok)
    case Union(ins) => forall i :: 0 <= i < |ins| ==> VarsOk(ins[i], ok)
    case Filter(inp, e) => VarsOk(inp, ok) && ExprVarsOk(e, ok)
    case PathNode(s, _, o) => TermOk(s, ok) && TermOk(o, ok)
    case Project(inp, vs) => VarsOk(inp, ok) && forall i :: 0 <= i < |vs| ==> TermOk(vs[i], ok)
    case Group(inp, vs, ags) =>
      VarsOk(inp, ok) && (forall i :: 0 <= i < |vs| ==> TermOk(vs[i], ok))
      && forall i :: 0 <= i < |ags| ==> ExprVarsOk(ags[i], ok)
    case OrderBy(inp, es) => VarsOk(inp, ok) && forall i :: 0 <= i < |es| ==> ExprVarsOk(es[i], ok)
    case Extend(inp, v, e) => VarsOk(inp, ok) && TermOk(v, ok) && ExprVarsOk(e, ok)
    case Slice(inp, _, _) => VarsOk(inp, ok)
    case Distinct(inp) => VarsOk(inp, ok)
  }

  ghost predicate ExprVarsOk(e: Expr, ok: string -> bool)
    decreases e
  {
    match e
    case Operator(_, args) => forall i :: 0 <= i < |args| ==> ExprVarsOk(args[i], ok)
    case Existence(_, inp) => VarsOk(inp, ok)
    case TermExpr(t) => TermOk(t, ok)
    case Aggregate(_, x, v) => ExprVarsOk(x, ok) && TermOk(v, ok)
    case Named(_, _) => true
  }

  // ---------------------------------------------------------------------
  // Walks compose.

  lemma {:induction false} RenameTimesAdd(t: Term, f: Renamer, j: nat, k: nat)
    ensures RenameTimes(RenameTimes(t, f, j), f, k) == RenameTimes(t, f, j + k)
    decreases j
  {
    if j > 0 {
      RenameTimesAdd(Rename(t, f), f, j - 1, k);
    }
  }

  /** Walking `j` times and then `k` times is walking `j + k` times. */
  lemma {:induction false} RenameNodeAdd(n: Node, f: Renamer, j: nat, k: nat)
    ensures RenameNode(RenameNode(n, f, j), f, k) == RenameNode(n, f, j + k)
    decreases n, 1
  {
    if n.Bgp? || n.PathNode? {
      RenameLeafAdd(n, f, j, k);
    } else if n.Join? || n.Union? || n.LeftJoin? {
      RenameInputsAdd(n, f, j, k);
    } else if n.Group? || n.OrderBy? {
      RenameListsAdd(n, f, j, k);
    } else if n.Filter? || n.Extend? {
      RenameExtendedAdd(n, f, j, k);
    } else {
      RenameWrappedAdd(n, f, j, k);
    }
  }

  lemma RenameLeafAdd(n: Node, f: Renamer, j: nat, k: nat)
    requires n.Bgp? || n.PathNode?
    ensures RenameNode(RenameNode(n, f, j), f, k) == RenameNode(n, f, j + k)
  {
    if n.Bgp? {
      var ps := n.patterns;
      forall i | 0 <= i < |ps| ensures RenamePattern(RenamePattern(ps[i], f, j), f, k) == RenamePattern(ps[i], f, j + k) {
        RenameTimesAdd(ps[i].subject, f, j, k);
        RenameTimesAdd(ps[i].pred, f, j, k);
        RenameTimesAdd(ps[i].obj, f, j, k);
      }
    } else {
      RenameTimesAdd(n.subject, f, j, k);
      RenameTimesAdd(n.obj, f, j, k);
    }
  }

  lemma RenameInputsAdd(n: Node, f: Renamer, j: nat, k: nat)
    requires n.Join? || n.Union? || n.LeftJoin?
    ensures RenameNode(RenameNode(n, f, j), f, k) == RenameNode(n, f, j + k)
    decreases n, 0
  {
    if n.LeftJoin? {
      RenameNodeAdd(n.left, f, j, k);
      RenameNodeAdd(n.right, f, j, k);
    } else {
      forall i | 0 <= i < |n.inputs| { RenameNodeAdd(n.inputs[i], f, j, k); }
    }
  }

  lemma RenameListsAdd(n: Node, f: Renamer, j: nat, k: nat)
    requires n.Group? || n.OrderBy?
    ensures RenameNode(RenameNode(n, f, j), f, k) == RenameNode(n, f, j + k)
    decreases n, 0
  {
    RenameNodeAdd(n.input, f, j, k);
    if n.Group? {
      RenameTermsAdd(n.variables, f, j, k);
      RenameExprsAdd(n.aggregates, f, j, k);
    } else {
      RenameExprsAdd(n.expressions, f, j, k);
    }
  }

  lemma RenameWrappedAdd(n: Node, f: Renamer, j: nat, k: nat)
    requires n.Project? || n.Slice? || n.Distinct?
    ensures RenameNode(RenameNode(n, f, j), f, k) == RenameNode(n, f, j + k)
    decreases n, 0
  {
    RenameNodeAdd(n.input, f, j, k);
    match n
    case Project(_, vs) =>
      RenameTermsAdd(vs, f, j, k);
    case Slice(_, _, _) =>
    case Distinct(_) =>
  }

  lemma RenameExtendedAdd(n: Node, f: Renamer, j: nat, k: nat)
    requires n.Filter? || n.Extend?
    ensures RenameNode(RenameNode(n, f, j), f, k) == RenameNode(n, f, j + k)
    decreases n, 0
  {
    RenameNodeAdd(n.input, f, j, k);
    match n
    case Filter(_, e) =>
      RenameExprAdd(e, f, j, k);
    case Extend(_, v, e) =>
      RenameTimesAdd(v, f, j, k);
      RenameExprAdd(e, f, j, k);
  }

  lemma RenameExprsAdd(es: seq<Expr>, f: Renamer, j: nat, k: nat)
    ensures forall i :: 0 <= i < |es| ==> RenameExpr(RenameExpr(es[i], f, j), f, k) == RenameExpr(es[i], f, j + k)
    decreases es
  {
    forall i | 0 <= i < |es| { RenameExprAdd(es[i], f, j, k); }
  }

  lemma {:induction false} RenameExprAdd(e: Expr, f: Renamer, j: nat, k: nat)
    ensures RenameExpr(RenameExpr(e, f, j), f, k) == RenameExpr(e, f, j + k)
    decreases e
  {
    match e
    case Operator(_, args) =>
      forall i | 0 <= i < |args| { RenameExprAdd(args[i], f, j, k); }
    case Existence(_, inp) =>
      RenameNodeAdd(inp, f, 2 * j, 2 * k);
    case TermExpr(t) =>
      RenameTimesAdd(t, f, j, k);
    case Aggregate(_, x, v) =>
      RenameExprAdd(x, f, j, k);
      RenameTimesAdd(v, f, j, k);
    case Named(_, _) =>
  }

  lemma {:induction false} RenameTermsAdd(vs: seq<Term>, f: Renamer, j: nat, k: nat)
    ensures RenameTerms(RenameTerms(vs, f, j), f, k) == RenameTerms(vs, f, j + k)
  {
    forall i | 0 <= i < |vs| { RenameTimesAdd(vs[i], f, j, k); }
  }

  // ---------------------------------------------------------------------
  // The suffix pass is idempotent.

  /** A suffixed name is never suffixed again. */
  lemma {:induction false} UniqueTimesStable(t: Term, a: string, k: nat)
    requires k >= 1
    ensures RenameTimes(t, Unique(a), k) == Rename(t, Unique(a))
    decreases k
  {
    var u := Rename(t, Unique(a));
    if t.Variable? && !IsBoundary(t.value) && !EndsWith(t.value, a) {
      var w := t.value + a;
      assert w[|w| - |a|..] == a;
    }
    assert Rename(u, Unique(a)) == u;
    if k > 1 {
      UniqueTimesStable(u, a, k - 1);
    }
  }

  lemma {:induction false} UniqueNodeStable(n: Node, a: string, k: nat)
    requires k >= 1
    ensures RenameNode(n, Unique(a), k) == RenameNode(n, Unique(a), 1)
    decreases n, 1
  {
    if n.Bgp? || n.PathNode? {
      UniqueLeafStable(n, a, k);
    } else if n.Join? || n.Union? || n.LeftJoin? {
      UniqueInputsStable(n, a, k);
    } else if n.Group? || n.OrderBy? {
      UniqueListsStable(n, a, k);
    } else {
      UniqueWrappedStable(n, a, k);
    }
  }

  lemma UniqueLeafStable(n: Node, a: string, k: nat)
    requires n.Bgp? || n.PathNode?
    requires k >= 1
    ensures RenameNode(n, Unique(a), k) == RenameNode(n, Unique(a), 1)
  {
    var f := Unique(a);
    if n.Bgp? {
      var ps := n.patterns;
      forall i | 0 <= i < |ps| ensures RenamePattern(ps[i], f, k) == RenamePattern(ps[i], f, 1) {
        UniqueTimesStable(ps[i].subject, a, k);
        UniqueTimesStable(ps[i].pred, a, k);
        UniqueTimesStable(ps[i].obj, a, k);
        UniqueTimesStable(ps[i].subject, a, 1);
        UniqueTimesStable(ps[i].pred, a, 1);
        UniqueTimesStable(ps[i].obj, a, 1);
      }
    } else {
      UniqueTimesStable(n.subject, a, k); UniqueTimesStable(n.subject, a, 1);
      UniqueTimesStable(n.obj, a, k); UniqueTimesStable(n.obj, a, 1);
    }
  }

  lemma UniqueInputsStable(n: Node, a: string, k: nat)
    requires n.Join? || n.Union? || n.LeftJoin?
    requires k >= 1
    ensures RenameNode(n, Unique(a), k) == RenameNode(n, Unique(a), 1)
    decreases n, 0
  {
    if n.LeftJoin? {
      UniqueNodeStable(n.left, a, k);
      UniqueNodeStable(n.right, a, k);
    } else {
      forall i | 0 <= i < |n.inputs| { UniqueNodeStable(n.inputs[i], a, k); }
    }
  }

  lemma UniqueListsStable(n: Node, a: string, k: nat)
    requires n.Group? || n.OrderBy?
    requires k >= 1
    ensures RenameNode(n, Unique(a), k) == RenameNode(n, Unique(a), 1)
    decreases n, 0
  {
    UniqueNodeStable(n.input, a, k);
    if n.Group? {
      UniqueTermsStable(n.variables, a, k);
      UniqueExprsStable(n.aggregates, a, k);
    } else {
      UniqueExprsStable(n.expressions, a, k);
    }
  }

  lemma UniqueWrappedStable(n: Node, a: string, k: nat)
    requires n.Filter? || n.Project? || n.Extend? || n.Slice? || n.Distinct?
    requires k >= 1
    ensures RenameNode(n, Unique(a), k) == RenameNode(n, Unique(a), 1)
    decreases n, 0
  {
    UniqueNodeStable(n.input, a, k);
    match n
    case Filter(_, e) =>
      UniqueExprStable(e, a, k);
    case Project(_, vs) =>
      UniqueTermsStable(vs, a, k);
    case Extend(_, v, e) =>
      UniqueTimesStable(v, a, k); UniqueTimesStable(v, a, 1);
      UniqueExprStable(e, a, k);
    case Slice(_, _, _) =>
    case Distinct(_) =>
  }

  lemma UniqueExprsStable(es: seq<Expr>, a: string, k: nat)
    requires k >= 1
    ensures forall i :: 0 <= i < |es| ==> RenameExpr(es[i], Unique(a), k) == RenameExpr(es[i], Unique(a), 1)
    decreases es
  {
    forall i | 0 <= i < |es| { UniqueExprStable(es[i], a, k); }
  }

  lemma {:induction false} UniqueExprStable(e: Expr, a: string, k: nat)
    requires k >= 1
    ensures RenameExpr(e, Unique(a), k) == RenameExpr(e, Unique(a), 1)
    decreases e
  {
    match e
    case Operator(_, args) =>
      forall i | 0 <= i < |args| { UniqueExprStable(args[i], a, k); }
    case Existence(_, inp) =>
      UniqueNodeStable(inp, a, 2 * k);
      UniqueNodeStable(inp, a, 2);
    case TermExpr(t) =>
      UniqueTimesStable(t, a, k); UniqueTimesStable(t, a, 1);
    case Aggregate(_, x, v) =>
      UniqueExprStable(x, a, k);
      UniqueTimesStable(v, a, k); UniqueTimesStable(v, a, 1);
    case Named(_, _) =>
  }

  lemma {:induction false} UniqueTermsStable(vs: seq<Term>, a: string, k: nat)
    requires k >= 1
    ensures RenameTerms(vs, Unique(a), k) == RenameTerms(vs, Unique(a), 1)
  {
    forall i | 0 <= i < |vs| ensures RenameTimes(vs[i], Unique(a), k) == RenameTimes(vs[i], Unique(a), 1) {
      UniqueTimesStable(vs[i], a, k);
      UniqueTimesStable(vs[i], a, 1);
    }
  }

  /** Renaming an already renamed template a second time changes nothing. */
  lemma {:induction false} UniqueIdempotent(n: Node, a: string)
    ensures RenameNode(RenameNode(n, Unique(a), 1), Unique(a), 1) == RenameNode(n, Unique(a), 1)
  {
    RenameNodeAdd(n, Unique(a), 1, 1);
    UniqueNodeStable(n, a, 2);
  }

  // ---------------------------------------------------------------------
  // What the walks leave at the visited positions.

  /**
   * If every variable the renamer produces from an `ok1` name is an `ok2`
   * name, and `ok2` names are mapped to `ok2` names, then a tree whose
   * variables are `ok1` names has only `ok2` names after the walk.
   */
  lemma {:induction false} RenameTimesOk(t: Term, f: Renamer, k: nat, ok1: string -> bool, ok2: string -> bool)
    requires k >= 1 && TermOk(t, ok1)
    requires forall v :: ok1(v) ==> TermOk(Rename(Variable(v), f), ok2)
    requires forall v :: ok2(v) ==> TermOk(Rename(Variable(v), f), ok2)
    ensures TermOk(RenameTimes(t, f, k), ok2)
    decreases k
  {
    var u := Rename(t, f);
    assert TermOk(u, ok2) by {
      if t.Variable? { assert Rename(t, f) == Rename(Variable(t.value), f); }
    }
    if k > 1 {
      RenameTimesOk(u, f, k - 1, ok2, ok2);
    }
  }

  lemma {:induction false} RenameNodeOk(n: Node, f: Renamer, k: nat, ok1: string -> bool, ok2: string -> bool)
    requires k >= 1 && VarsOk(n, ok1)
    requires forall v :: ok1(v) ==> TermOk(Rename(Variable(v), f), ok2)
    requires forall v :: ok2(v) ==> TermOk(Rename(Variable(v), f), ok2)
    ensures VarsOk(RenameNode(n, f, k), ok2)
    decreases n, 1
  {
    if n.Bgp? || n.PathNode? {
      RenameLeafOk(n, f, k, ok1, ok2);
    } else if n.Join? || n.Union? || n.LeftJoin? {
      RenameInputsOk(n, f, k, ok1, ok2);
    } else if n.Group? || n.OrderBy? {
      RenameListsOk(n, f, k, ok1, ok2);
    } else if n.Filter? || n.Extend? {
      RenameExtendedOk(n, f, k, ok1, ok2);
    } else {
      RenameWrappedOk(n, f, k, ok1, ok2);
    }
  }

  lemma RenameLeafOk(n: Node, f: Renamer, k: nat, ok1: string -> bool, ok2: string -> bool)
    requires (n.Bgp? || n.PathNode?) && k >= 1 && VarsOk(n, ok1)
    requires forall v :: ok1(v) ==> TermOk(Rename(Variable(v), f), ok2)
    requires forall v :: ok2(v) ==> TermOk(Rename(Variable(v), f), ok2)
    ensures VarsOk(RenameNode(n, f, k), ok2)
  {
    if n.Bgp? {
      var ps := n.patterns;
      forall i | 0 <= i < |ps| ensures
        var p := RenamePattern(ps[i], f, k);
        TermOk(p.subject, ok2) && TermOk(p.pred, ok2) && TermOk(p.obj, ok2)
      {
        RenameTimesOk(ps[i].subject, f, k, ok1, ok2);
        RenameTimesOk(ps[i].pred, f, k, ok1, ok2);
        RenameTimesOk(ps[i].obj, f, k, ok1, ok2);
      }
    } else {
      RenameTimesOk(n.subject, f, k, ok1, ok2);
      RenameTimesOk(n.obj, f, k, ok1, ok2);
    }
  }

  lemma RenameInputsOk(n: Node, f: Renamer, k: nat, ok1: string -> bool, ok2: string -> bool)
    requires (n.Join? || n.Union? || n.LeftJoin?) && k >= 1 && VarsOk(n, ok1)
    requires forall v :: ok1(v) ==> TermOk(Rename(Variable(v), f), ok2)
    requires forall v :: ok2(v) ==> TermOk(Rename(Variable(v), f), ok2)
    ensures VarsOk(RenameNode(n, f, k), ok2)
    decreases n, 0
  {
    if n.LeftJoin? {
      RenameNodeOk(n.left, f, k, ok1, ok2);
      RenameNodeOk(n.right, f, k, ok1, ok2);
    } else {
      var ins := n.inputs;
      forall i | 0 <= i < |ins| ensures VarsOk(RenameNode(ins[i], f, k), ok2) {
        RenameNodeOk(ins[i], f, k, ok1, ok2);
      }
    }
  }

  lemma RenameListsOk(n: Node, f: Renamer, k: nat, ok1: string -> bool, ok2: string -> bool)
    requires (n.Group? || n.OrderBy?) && k >= 1 && VarsOk(n, ok1)
    requires forall v :: ok1(v) ==> TermOk(Rename(Variable(v), f), ok2)
    requires forall v :: ok2(v) ==> TermOk(Rename(Variable(v), f), ok2)
    ensures VarsOk(RenameNode(n, f, k), ok2)
    decreases n, 0
  {
    RenameNodeOk(n.input, f, k, ok1, ok2);
    if n.Group? {
      RenameTermsOk(n.variables, f, k, ok1, ok2);
      RenameExprsOk(n.aggregates, f, k, ok1, ok2);
    } else {
      RenameExprsOk(n.expressions, f, k, ok1, ok2);
    }
  }

  lemma RenameWrappedOk(n: Node, f: Renamer, k: nat, ok1: string -> bool, ok2: string -> bool)
    requires (n.Project? || n.Slice? || n.Distinct?) && k >= 1 && VarsOk(n, ok1)
    requires forall v :: ok1(v) ==> TermOk(Rename(Variable(v), f), ok2)
    requires forall v :: ok2(v) ==> TermOk(Rename(Variable(v), f), ok2)
    ensures VarsOk(RenameNode(n, f, k), ok2)
    decreases n, 0
  {
    RenameNodeOk(n.input, f, k, ok1, ok2);
    match n
    case Project(_, vs) =>
      RenameTermsOk(vs, f, k, ok1, ok2);
    case Slice(_, _, _) =>
    case Distinct(_) =>
  }

  lemma RenameExtendedOk(n: Node, f: Renamer, k: nat, ok1: string -> bool, ok2: string -> bool)
    requires (n.Filter? || n.Extend?) && k >= 1 && VarsOk(n, ok1)
    requires forall v :: ok1(v) ==> TermOk(Rename(Variable(v), f), ok2)
    requires forall v :: ok2(v) ==> TermOk(Rename(Variable(v), f), ok2)
    ensures VarsOk(RenameNode(n, f, k), ok2)
    decreases n, 0
  {
    RenameNodeOk(n.input, f, k, ok1, ok2);
    match n
    case Filter(_, e) =>
      RenameExprOk(e, f, k, ok1, ok2);
    case Extend(_, v, e) =>
      RenameTimesOk(v, f, k, ok1, ok2);
      RenameExprOk(e, f, k, ok1, ok2);
  }

  lemma RenameTermsOk(vs: seq<Term>, f: Renamer, k: nat, ok1: string -> bool, ok2: string -> bool)
    requires k >= 1 && forall i :: 0 <= i < |vs| ==> TermOk(vs[i], ok1)
    requires forall v :: ok1(v) ==> TermOk(Rename(Variable(v), f), ok2)
    requires forall v :: ok2(v) ==> TermOk(Rename(Variable(v), f), ok2)
    ensures forall i :: 0 <= i < |RenameTerms(vs, f, k)| ==> TermOk(RenameTerms(vs, f, k)[i], ok2)
  {
    forall i | 0 <= i < |vs| ensures TermOk(RenameTimes(vs[i], f, k), ok2) {
      RenameTimesOk(vs[i], f, k, ok1, ok2);
    }
  }

  lemma RenameExprsOk(es: seq<Expr>, f: Renamer, k: nat, ok1: string -> bool, ok2: string -> bool)
    requires k >= 1 && forall i :: 0 <= i < |es| ==> ExprVarsOk(es[i], ok1)
    requires forall v :: ok1(v) ==> TermOk(Rename(Variable(v), f), ok2)
    requires forall v :: ok2(v) ==> TermOk(Rename(Variable(v), f), ok2)
    ensures forall i :: 0 <= i < |es| ==> ExprVarsOk(RenameExpr(es[i], f, k), ok2)
    decreases es
  {
    forall i | 0 <= i < |es| ensures ExprVarsOk(RenameExpr(es[i], f, k), ok2) {
      RenameExprOk(es[i], f, k, ok1, ok2);
    }
  }

  lemma {:induction false} RenameExprOk(e: Expr, f: Renamer, k: nat, ok1: string -> bool, ok2: string -> bool)
    requires k >= 1 && ExprVarsOk(e, ok1)
    requires forall v :: ok1(v) ==> TermOk(Rename(Variable(v), f), ok2)
    requires forall v :: ok2(v) ==> TermOk(Rename(Variable(v), f), ok2)
    ensures ExprVarsOk(RenameExpr(e, f, k), ok2)
    decreases e
  {
    match e
    case Operator(_, args) =>
      forall i | 0 <= i < |args| ensures ExprVarsOk(RenameExpr(args[i], f, k), ok2) {
        RenameExprOk(args[i], f, k, ok1, ok2);
      }
    case Existence(_, inp) =>
      RenameNodeOk(inp, f, 2 * k, ok1, ok2);
    case TermExpr(t) =>
      RenameTimesOk(t, f, k, ok1, ok2);
    case Aggregate(_, x, v) =>
      RenameExprOk(x, f, k, ok1, ok2);
      RenameTimesOk(v, f, k, ok1, ok2);
    case Named(_, _) =>
  }

  /** Names the suffix pass may leave: the boundary names or suffixed ones. */
  predicate Internal(a: string, v: string)
  {
    IsBoundary(v) || EndsWith(v, a)
  }
  function InternalNames(a: string): string -> bool
  {
    v => Internal(a, v)
  }

  function AnyName(): string -> bool
  {
    v => true
  }

  /** Names that are boundary names or do not carry the appendix `a`. */
  function ForeignTo(a: string): string -> bool
  {
    v => IsBoundary(v) || !EndsWith(v, a)
  }


  lemma AppendedEndsWith(v: string, a: string)
    ensures EndsWith(v + a, a)
  {
    var w := v + a;
    assert w[|w| - |a|..] == a;
  }

  /** After the suffix pass every variable is `_s`, `_o` or carries the appendix. */
  lemma {:induction false} UniqueShape(n: Node, a: string)
    ensures VarsOk(RenameNode(n, Unique(a), 1), InternalNames(a))
  {
    var ok1 := AnyName();
    var ok2 := InternalNames(a);
    AnyVarsOk(n);
    forall v | ok1(v) ensures TermOk(Rename(Variable(v), Unique(a)), ok2) {
      AppendedEndsWith(v, a);
    }
    RenameNodeOk(n, Unique(a), 1, ok1, ok2);
  }

  /** Every tree satisfies the predicate that accepts every name. */
  lemma {:induction false} AnyVarsOk(n: Node)
    ensures VarsOk(n, AnyName())
    decreases n
  {
    match n
    case Bgp(_) =>
    case Join(ins) => forall i | 0 <= i < |ins| { AnyVarsOk(ins[i]); }
    case LeftJoin(l, r, _) => AnyVarsOk(l); AnyVarsOk(r);
    case Union(ins) => forall i | 0 <= i < |ins| { AnyVarsOk(ins[i]); }
    case Filter(inp, e) => AnyVarsOk(inp); AnyExprVarsOk(e);
    case PathNode(_, _, _) =>
    case Project(inp, _) => AnyVarsOk(inp);
    case Group(inp, _, ags) => AnyVarsOk(inp); forall i | 0 <= i < |ags| { AnyExprVarsOk(ags[i]); }
    case OrderBy(inp, es) => AnyVarsOk(inp); forall i | 0 <= i < |es| { AnyExprVarsOk(es[i]); }
    case Extend(inp, _, e) => AnyVarsOk(inp); AnyExprVarsOk(e);
    case Slice(inp, _, _) => AnyVarsOk(inp);
    case Distinct(inp) => AnyVarsOk(inp);
  }

  lemma {:induction false} AnyExprVarsOk(e: Expr)
    ensures ExprVarsOk(e, AnyName())
    decreases e
  {
    match e
    case Operator(_, args) => forall i | 0 <= i < |args| { AnyExprVarsOk(args[i]); }
    case Existence(_, inp) => AnyVarsOk(inp);
    case TermExpr(_) =>
    case Aggregate(_, x, _) => AnyExprVarsOk(x);
    case Named(_, _) =>
  }

  function InstantiatedNames(a: string, s: Term, o: Term): string -> bool
  {
    v => Instantiated(a, s, o, v)
  }

  /** Names an instantiated template may mention. */
  predicate Instantiated(a: string, s: Term, o: Term, v: string)
  {
    EndsWith(v, a) || (s.Variable? && v == s.value) || (o.Variable? && v == o.value)
  }

  /**
   * After both passes the only variables left are suffixed template
   * variables and the variables of the user's subject and object: the
   * boundary names `_s` and `_o` themselves are gone unless the user's
   * triple used such a name.
   */
  lemma {:induction false} BoundaryBinding(t: Node, a: string, s: Term, o: Term)
    requires |a| >= 1 && a[|a| - 1] != 's' && a[|a| - 1] != 'o'
    ensures VarsOk(RenameVariables(t, a, s, o), InstantiatedNames(a, s, o))
  {
    UniqueShape(t, a);
    SpecialPassOk(RenameNode(t, Unique(a), 1), a, s, o);
  }

  /** The boundary pass takes a tree of internal names to one of instantiated names. */
  lemma SpecialPassOk(u: Node, a: string, s: Term, o: Term)
    requires |a| >= 1 && a[|a| - 1] != 's' && a[|a| - 1] != 'o'
    requires VarsOk(u, InternalNames(a))
    ensures VarsOk(RenameNode(u, Special(s, o), 1), InstantiatedNames(a, s, o))
  {
    var ok1 := InternalNames(a);
    var ok2 := InstantiatedNames(a, s, o);
    forall v | ok1(v) ensures TermOk(Rename(Variable(v), Special(s, o)), ok2) {
      SpecialInstantiated(a, s, o, v);
    }
    forall v | ok2(v) ensures TermOk(Rename(Variable(v), Special(s, o)), ok2) {
      SpecialInstantiated(a, s, o, v);
    }
    RenameNodeOk(u, Special(s, o), 1, ok1, ok2);
  }

  /** The boundary pass maps an internal or instantiated name to an instantiated one. */
  lemma SpecialInstantiated(a: string, s: Term, o: Term, v: string)
    requires |a| >= 1 && a[|a| - 1] != 's' && a[|a| - 1] != 'o'
    requires Internal(a, v) || Instantiated(a, s, o, v)
    ensures var t := Rename(Variable(v), Special(s, o)); t.Variable? ==> Instantiated(a, s, o, t.value)
  {
    if v != "_s" && v != "_o" && !EndsWith(v, a) {
      assert Instantiated(a, s, o, v);
    } else if EndsWith(v, a) {
      assert v != "_s" && v != "_o" by {
        assert v[|v| - 1] == a[|a| - 1];
      }
    }
  }

  /**
   * Two instances with different appendices share no internal variable:
   * no variable left by the suffix pass of instance `m`, other than `_s`
   * and `_o`, carries the appendix of instance `n`.
   */
  lemma {:induction false} InstancesDisjoint(t: Node, m: nat, n: nat)
    requires m != n
    ensures VarsOk(RenameNode(t, Unique(Appendix(m)), 1), ForeignTo(Appendix(n)))
  {
    var am := Appendix(m);
    var ok1 := AnyName();
    var ok2 := ForeignTo(Appendix(n));
    AnyVarsOk(t);
    forall v | true ensures TermOk(Rename(Variable(v), Unique(am)), ok2) {
      if !IsBoundary(v) && EndsWith(v, am) {
        if EndsWith(v, Appendix(n)) { AppendixSuffixesDisjoint(v, m, n); }
      } else if !IsBoundary(v) {
        AppendedEndsWith(v, am);
        if EndsWith(v + am, Appendix(n)) { AppendixSuffixesDisjoint(v + am, m, n); }
      }
    }
    RenameNodeOk(t, Unique(am), 1, ok1, ok2);
  }
}
