// The substitution engine of src/substitutionHandler.js: every triple
// pattern whose predicate IRI is in the catalog is replaced by that
// predicate's template algebra, renamed apart and bound to the pattern's
// subject and object; a catalog predicate inside a property path is an error.
module Substitution {
  import opened Common
  import opened Rdf
  import opened Algebra
  import opened Renaming

  /** Predicate IRI to the parsed algebra of its substitution template. */
  type Catalog = map<string, Node>

  datatype SubstError =
    | PathNotSubstitutable(iri: string, context: string)
    | OutOfFuel

  /** The source looks the predicate's value up, whatever its term type. */
  predicate Substitutable(p: Pattern, cat: Catalog)
  {
    p.pred.value in cat
  }

  function CatalogCount(ps: seq<Pattern>, cat: Catalog): nat
  {
    if ps == [] then 0 else (if Substitutable(ps[0], cat) then 1 else 0) + CatalogCount(ps[1..], cat)
  }

  /** Index of the first substitutable pattern, or `|ps|` if there is none. */
  function FirstCatalogIndex(ps: seq<Pattern>, cat: Catalog): (i: nat)
    ensures i <= |ps|
    ensures forall k :: 0 <= k < i ==> !Substitutable(ps[k], cat)
    ensures i < |ps| ==> Substitutable(ps[i], cat)
  {
    if ps == [] then 0
    else if Substitutable(ps[0], cat) then 0
    else 1 + FirstCatalogIndex(ps[1..], cat)
  }

  // ---------------------------------------------------------------------
  // Dropping the template's outer projection.

  function SkipExtends(n: Node): (r: Node)
    ensures !r.Extend?
  {
    if n.Extend? then SkipExtends(n.input) else n
  }

  /** The projection must stay when it sits over ordering, grouping or a slice. */
  predicate KeepsProjection(below: Node)
  {
    var m := SkipExtends(below);
    m.OrderBy? || m.Group? || m.Slice?
  }

  /**
   * The drop as the source writes it: any root with an `input` loses its
   * root node. `None` stands for a root whose input is a list (join, union,
   * left join), where the source would go on with a bare list.
   */
  function DropOuterAsWritten(t: Node): Option<Node>
  {
    if t.Join? || t.Union? || t.LeftJoin? then None
    else if HasSingleInput(t) && !KeepsProjection(t.input) then Some(t.input)
    else Some(t)
  }

  /**
   * The drop as intended: only a projection is removed, and only when no
   * ordering, grouping or slice sits beneath it.
   */
  function DropProjection(t: Node): (r: Node)
    ensures r == t || (t.Project? && r == t.input)
    ensures r != t <==> t.Project? && !KeepsProjection(t.input)
  {
    if t.Project? && !KeepsProjection(t.input) then t.input else t
  }

  /**
   * A template with a LIMIT loses it in the source: the slice at its root is
   * dropped and the projection beneath it is kept. The intended drop keeps
   * the whole template.
   */
  lemma SliceDroppedAsWritten(b: Node, vars: seq<Term>, len: nat)
    requires !b.Extend? && !b.OrderBy? && !b.Group? && !b.Slice?
    ensures var t := Slice(Project(b, vars), 0, Some(len));
            DropOuterAsWritten(t) == Some(Project(b, vars))
            && DropProjection(t) == t
  {
  }

  /** The same happens to DISTINCT. */
  lemma DistinctDroppedAsWritten(b: Node, vars: seq<Term>)
    requires !b.Extend? && !b.OrderBy? && !b.Group? && !b.Slice?
    ensures var t := Distinct(Project(b, vars));
            DropOuterAsWritten(t) == Some(Project(b, vars))
            && DropProjection(t) == t
  {
  }

  // ---------------------------------------------------------------------
  // One replacement inside a basic graph pattern (`_handleBGP`).

  /** The template instance for pattern `p`: renamed, bound, projection dropped. */
  function Instantiate(template: Node, appendix: string, p: Pattern): Node
  {
    DropProjection(RenameVariables(template, appendix, p.subject, p.obj))
  }

  /** Put the remaining patterns and the template instance together. */
  function Assemble(rest: seq<Pattern>, inst: Node): Node
  {
    if rest == [] then inst
    else if inst.Bgp? then Bgp(rest + inst.patterns)
    else Join([Bgp(rest), inst])
  }

  /**
   * The outcome of `_handleBGP`: `None` when no pattern is substitutable,
   * otherwise the first substitutable pattern is taken out and the template
   * instance numbered `next` takes its place.
   */
  function Rewrite(ps: seq<Pattern>, cat: Catalog, next: nat): (r: Option<Node>)
    ensures r.None? <==> forall k :: 0 <= k < |ps| ==> !Substitutable(ps[k], cat)
  {
    var i := FirstCatalogIndex(ps, cat);
    if i == |ps| then None
    else Some(Assemble(ps[..i] + ps[i + 1..], Instantiate(cat[ps[i].pred.value], Appendix(next), ps[i])))
  }

  lemma {:induction false} CatalogCountAppend(a: seq<Pattern>, b: seq<Pattern>, cat: Catalog)
    ensures CatalogCount(a + b, cat) == CatalogCount(a, cat) + CatalogCount(b, cat)
  {
    if a != [] {
      assert (a + b)[0] == a[0];
      assert (a + b)[1..] == a[1..] + b;
      CatalogCountAppend(a[1..], b, cat);
      calc {
        CatalogCount(a + b, cat);
        (if Substitutable(a[0], cat) then 1 else 0) + CatalogCount(a[1..] + b, cat);
        (if Substitutable(a[0], cat) then 1 else 0) + CatalogCount(a[1..], cat) + CatalogCount(b, cat);
        CatalogCount(a, cat) + CatalogCount(b, cat);
      }
    } else {
      assert a + b == b;
    }
  }

  /**
   * Characterisation by the first match: exactly the first substitutable
   * pattern is removed, the others keep their order, one substitutable
   * pattern fewer remains, and the result is the processed template alone,
   * one merged basic graph pattern, or a join of the rest and the template.
   */
  lemma {:induction false} RewriteAtFirstMatch(ps: seq<Pattern>, cat: Catalog, next: nat, i: nat)
    requires i < |ps| && Substitutable(ps[i], cat)
    requires forall k :: 0 <= k < i ==> !Substitutable(ps[k], cat)
    ensures var rest := ps[..i] + ps[i + 1..];
            var inst := Instantiate(cat[ps[i].pred.value], Appendix(next), ps[i]);
            && Rewrite(ps, cat, next) == Some(Assemble(rest, inst))
            && (rest == [] ==> Rewrite(ps, cat, next) == Some(inst))
            && (rest != [] && inst.Bgp? ==> Rewrite(ps, cat, next) == Some(Bgp(rest + inst.patterns)))
            && (rest != [] && !inst.Bgp? ==> Rewrite(ps, cat, next) == Some(Join([Bgp(rest), inst])))
            && CatalogCount(rest, cat) + 1 == CatalogCount(ps, cat)
  {
    var j := FirstCatalogIndex(ps, cat);
    assert j == i;
    assert ps == ps[..i] + ([ps[i]] + ps[i + 1..]);
    CatalogCountAppend(ps[..i], [ps[i]] + ps[i + 1..], cat);
    CatalogCountAppend([ps[i]], ps[i + 1..], cat);
    CatalogCountAppend(ps[..i], ps[i + 1..], cat);
    assert CatalogCount([ps[i]], cat) == 1 by {
      assert [ps[i]][1..] == [];
    }
  }

  /** `_handleBGP`: scan for the first substitutable pattern. */
  method HandleBgp(ps: seq<Pattern>, cat: Catalog, next: nat) returns (r: Option<Node>, next': nat)
    ensures r == Rewrite(ps, cat, next)
    ensures next' == if r.Some? then next + 1 else next
  {
    var i := 0;
    while i < |ps|
      invariant 0 <= i <= |ps|
      invariant forall k :: 0 <= k < i ==> !Substitutable(ps[k], cat)
    {
      var p := ps[i];
      if p.pred.value in cat {
        var rest := ps[..i] + ps[i + 1..];
        var inst := DropProjection(RenameVariables(cat[p.pred.value], Appendix(next), p.subject, p.obj));
        if |rest| > 0 {
          if inst.Bgp? {
            r := Some(Bgp(rest + inst.patterns));
          } else {
            r := Some(Join([Bgp(rest), inst]));
          }
        } else {
          r := Some(inst);
        }
        RewriteAtFirstMatch(ps, cat, next, i);
        return r, next + 1;
      }
      i := i + 1;
    }
    return None, next;
  }

  /** Within a join, a replacement that is itself a join is spliced flat. */
  function Splice(input: seq<Node>, i: nat, x: Node): (r: seq<Node>)
    requires i < |input|
    ensures var xs := if x.Join? then x.inputs else [x];
            && |r| == |input| - 1 + |xs|
            && r[..i] == input[..i]
            && r[i..i + |xs|] == xs
            && r[i + |xs|..] == input[i + 1..]
  {
    input[..i] + (if x.Join? then x.inputs else [x]) + input[i + 1..]
  }

  // ---------------------------------------------------------------------
  // Property paths.

  /** The context message the source reports for a path operator. */
  function PathTypeName(p: Path): string
  {
    match p
    case Link(_) => "link"
    case Inv(_) => "inv"
    case Alt(_) => "alt"
    case SeqPath(_) => "seq"
    case ZeroOrMorePath(_) => "ZeroOrMorePath"
    case OneOrMorePath(_) => "OneOrMorePath"
    case ZeroOrOnePath(_) => "ZeroOrOnePath"
    case Nps(_) => "nps"
  }

  /** The context an operator hands to the paths directly inside it. */
  function Enclosing(p: Path): string
  {
    match p
    case Inv(_) => "inv ^"
    case Alt(_) => "alt |"
    case SeqPath(_) => "seq /"
    case ZeroOrMorePath(_) => "ZeroOrMorePath"
    case OneOrMorePath(_) => "OneOrMorePath"
    case ZeroOrOnePath(_) => "ZeroOrOnePath"
    case _ => ""
  }

  /** A catalog IRI occurs as a link (negated property sets are not inspected). */
  predicate HasCatalogLink(p: Path, cat: Catalog)
    decreases p
  {
    match p
    case Link(iri) => iri in cat
    case Inv(q) => HasCatalogLink(q, cat)
    case Alt(qs) => exists k :: 0 <= k < |qs| && HasCatalogLink(qs[k], cat)
    case SeqPath(qs) => exists k :: 0 <= k < |qs| && HasCatalogLink(qs[k], cat)
    case ZeroOrMorePath(q) => HasCatalogLink(q, cat)
    case OneOrMorePath(q) => HasCatalogLink(q, cat)
    case ZeroOrOnePath(q) => HasCatalogLink(q, cat)
    case Nps(_) => false
  }

  /**
   * `p` contains a link to `iri` whose directly enclosing operator hands
   * down the context `c`; `outer` is the context of `p` itself, so a bare
   * link is under `outer`.
   */
  predicate LinkUnder(p: Path, iri: string, c: string, outer: string)
    decreases p
  {
    match p
    case Link(x) => x == iri && c == outer
    case Inv(q) => LinkUnder(q, iri, c, Enclosing(p))
    case Alt(qs) => exists k :: 0 <= k < |qs| && LinkUnder(qs[k], iri, c, Enclosing(p))
    case SeqPath(qs) => exists k :: 0 <= k < |qs| && LinkUnder(qs[k], iri, c, Enclosing(p))
    case ZeroOrMorePath(q) => LinkUnder(q, iri, c, Enclosing(p))
    case OneOrMorePath(q) => LinkUnder(q, iri, c, Enclosing(p))
    case ZeroOrOnePath(q) => LinkUnder(q, iri, c, Enclosing(p))
    case Nps(_) => false
  }

  /** The first error the walk over a path raises, in walk order. */
  function PathError(p: Path, cat: Catalog, context: string): Option<SubstError>
    decreases p, 1
  {
    match p
    case Link(iri) => if iri in cat then Some(PathNotSubstitutable(iri, context)) else None
    case Inv(q) => PathError(q, cat, Enclosing(p))
    case Alt(_) => PathErrorFrom(p, 0, cat, Enclosing(p))
    case SeqPath(_) => PathErrorFrom(p, 0, cat, Enclosing(p))
    case ZeroOrMorePath(q) => PathError(q, cat, Enclosing(p))
    case OneOrMorePath(q) => PathError(q, cat, Enclosing(p))
    case ZeroOrOnePath(q) => PathError(q, cat, Enclosing(p))
    case Nps(_) => None
  }

  function PathErrorFrom(p: Path, i: nat, cat: Catalog, context: string): Option<SubstError>
    requires p.Alt? || p.SeqPath?
    requires i <= |p.input|
    decreases p, 0, |p.input| - i
  {
    if i == |p.input| then None
    else match PathError(p.input[i], cat, context)
      case Some(err) => Some(err)
      case None => PathErrorFrom(p, i + 1, cat, context)
  }

  /** The operator names an error can report from inside a path operator. */
  predicate PathContext(c: string)
  {
    c in {"inv ^", "alt |", "seq /", "ZeroOrMorePath", "OneOrMorePath", "ZeroOrOnePath"}
  }

  /** What the walk can report: an operator, or `link` for a path that is a bare link. */
  predicate ReportedContext(c: string)
  {
    PathContext(c) || c == "link"
  }

  /**
   * The walk fails exactly when a catalog IRI occurs as a link; the error
   * names such a link and the operator directly enclosing it (the caller's
   * context for a bare link).
   */
  lemma {:induction false} PathErrorExactly(p: Path, cat: Catalog, context: string)
    ensures PathError(p, cat, context).Some? <==> HasCatalogLink(p, cat)
    ensures PathError(p, cat, context).Some? ==>
      && PathError(p, cat, context).value.PathNotSubstitutable?
      && PathError(p, cat, context).value.iri in cat
      && (PathContext(PathError(p, cat, context).value.context) || PathError(p, cat, context).value.context == context)
      && LinkUnder(p, PathError(p, cat, context).value.iri, PathError(p, cat, context).value.context, context)
    ensures !p.Link? && PathError(p, cat, context).Some? ==> PathContext(PathError(p, cat, context).value.context)
    decreases p, 1
  {
    match p
    case Link(_) =>
    case Inv(q) => PathErrorExactly(q, cat, Enclosing(p));
    case Alt(qs) => PathErrorFromExactly(p, 0, cat, Enclosing(p));
    case SeqPath(qs) => PathErrorFromExactly(p, 0, cat, Enclosing(p));
    case ZeroOrMorePath(q) => PathErrorExactly(q, cat, Enclosing(p));
    case OneOrMorePath(q) => PathErrorExactly(q, cat, Enclosing(p));
    case ZeroOrOnePath(q) => PathErrorExactly(q, cat, Enclosing(p));
    case Nps(_) =>
  }

  lemma {:induction false} PathErrorFromExactly(p: Path, i: nat, cat: Catalog, context: string)
    requires p.Alt? || p.SeqPath?
    requires i <= |p.input|
    requires PathContext(context)
    ensures PathErrorFrom(p, i, cat, context).Some? <==>
      exists k :: i <= k < |p.input| && HasCatalogLink(p.input[k], cat)
    ensures PathErrorFrom(p, i, cat, context).Some? ==>
      && PathErrorFrom(p, i, cat, context).value.PathNotSubstitutable?
      && PathErrorFrom(p, i, cat, context).value.iri in cat
      && PathContext(PathErrorFrom(p, i, cat, context).value.context)
      && exists k :: i <= k < |p.input| &&
           LinkUnder(p.input[k], PathErrorFrom(p, i, cat, context).value.iri, PathErrorFrom(p, i, cat, context).value.context, context)
    decreases p, 0, |p.input| - i
  {
    if i < |p.input| {
      PathErrorExactly(p.input[i], cat, context);
      PathErrorFromExactly(p, i + 1, cat, context);
    }
  }

  /** The source's failing path cases: each is refused, naming the operator around the catalog link. */
  lemma PathOperatorsReject(iri: string, other: string, cat: Catalog)
    requires iri in cat && other !in cat
    ensures PathError(Alt([Link(other), Inv(Link(iri))]), cat, "alt") == Some(PathNotSubstitutable(iri, "inv ^"))
    ensures PathError(Alt([Inv(Link(other)), Link(iri)]), cat, "alt") == Some(PathNotSubstitutable(iri, "alt |"))
    ensures PathError(ZeroOrMorePath(Link(iri)), cat, "ZeroOrMorePath") == Some(PathNotSubstitutable(iri, "ZeroOrMorePath"))
    ensures PathError(ZeroOrOnePath(Link(iri)), cat, "ZeroOrOnePath") == Some(PathNotSubstitutable(iri, "ZeroOrOnePath"))
    ensures PathError(OneOrMorePath(Link(iri)), cat, "OneOrMorePath") == Some(PathNotSubstitutable(iri, "OneOrMorePath"))
    ensures PathError(Alt([Link(other), SeqPath([Link(other), Link(iri)])]), cat, "alt") == Some(PathNotSubstitutable(iri, "seq /"))
  {
    var p1 := Alt([Link(other), Inv(Link(iri))]);
    assert PathError(p1.input[0], cat, "alt |") == None;
    assert PathError(p1.input[1], cat, "alt |") == Some(PathNotSubstitutable(iri, "inv ^"));
    assert PathErrorFrom(p1, 1, cat, "alt |") == Some(PathNotSubstitutable(iri, "inv ^"));
    var p2 := Alt([Inv(Link(other)), Link(iri)]);
    assert PathError(p2.input[0], cat, "alt |") == None;
    assert PathError(p2.input[1], cat, "alt |") == Some(PathNotSubstitutable(iri, "alt |"));
    assert PathErrorFrom(p2, 1, cat, "alt |") == Some(PathNotSubstitutable(iri, "alt |"));
    var p3 := SeqPath([Link(other), Link(iri)]);
    assert PathError(p3.input[0], cat, "seq /") == None;
    assert PathError(p3.input[1], cat, "seq /") == Some(PathNotSubstitutable(iri, "seq /"));
    assert PathErrorFrom(p3, 1, cat, "seq /") == Some(PathNotSubstitutable(iri, "seq /"));
    assert PathError(p3, cat, "alt |") == Some(PathNotSubstitutable(iri, "seq /"));
    var p6 := Alt([Link(other), p3]);
    assert PathError(p6.input[0], cat, "alt |") == None;
    assert PathErrorFrom(p6, 1, cat, "alt |") == Some(PathNotSubstitutable(iri, "seq /"));
  }

  /** The path branch of `_doSubstitute`, with its loops over alternatives and sequences. */
  method CheckPath(p: Path, cat: Catalog, context: string) returns (err: Option<SubstError>)
    ensures err == PathError(p, cat, context)
    decreases p
  {
    match p
    case Link(iri) =>
      if iri in cat {
        return Some(PathNotSubstitutable(iri, context));
      }
      return None;
    case Inv(q) =>
      err := CheckPath(q, cat, "inv ^");
    case Alt(qs) =>
      err := CheckPathList(p, cat, "alt |");
    case SeqPath(qs) =>
      err := CheckPathList(p, cat, "seq /");
    case ZeroOrMorePath(q) =>
      err := CheckPath(q, cat, "ZeroOrMorePath");
    case OneOrMorePath(q) =>
      err := CheckPath(q, cat, "OneOrMorePath");
    case ZeroOrOnePath(q) =>
      err := CheckPath(q, cat, "ZeroOrOnePath");
    case Nps(_) =>
      return None;
  }

  method CheckPathList(p: Path, cat: Catalog, context: string) returns (err: Option<SubstError>)
    requires p.Alt? || p.SeqPath?
    ensures err == PathErrorFrom(p, 0, cat, context)
    decreases p, 0
  {
    var i := 0;
    while i < |p.input|
      invariant 0 <= i <= |p.input|
      invariant PathErrorFrom(p, 0, cat, context) == PathErrorFrom(p, i, cat, context)
    {
      err := CheckPath(p.input[i], cat, context);
      if err.Some? {
        return err;
      }
      i := i + 1;
    }
    return None;
  }

  // ---------------------------------------------------------------------
  // The walk (`_doSubstitute`).

  /**
   * Nothing is left to substitute at any position the walk inspects. The
   * walk does not enter a union's branches (their inputs are a list, which
   * the default case skips), a left join's condition, an aggregate or a
   * named-function call.
   */
  predicate Settled(n: Node, cat: Catalog)
    decreases n
  {
    match n
    case Bgp(ps) => forall k :: 0 <= k < |ps| ==> !Substitutable(ps[k], cat)
    case Join(ins) => forall k :: 0 <= k < |ins| ==> Settled(ins[k], cat)
    case LeftJoin(l, r, _) => Settled(l, cat) && Settled(r, cat)
    case Union(_) => true
    case Filter(inp, e) => Settled(inp, cat) && ExprSettled(e, cat)
    case PathNode(_, p, _) => !HasCatalogLink(p, cat)
    case Project(inp, _) => Settled(inp, cat)
    case Group(inp, _, _) => Settled(inp, cat)
    case OrderBy(inp, _) => Settled(inp, cat)
    case Extend(inp, _, _) => Settled(inp, cat)
    case Slice(inp, _, _) => Settled(inp, cat)
    case Distinct(inp) => Settled(inp, cat)
  }

  predicate ExprSettled(e: Expr, cat: Catalog)
    decreases e
  {
    match e
    case Operator(_, args) => forall k :: 0 <= k < |args| ==> ExprSettled(args[k], cat)
    case Existence(_, inp) => Settled(inp, cat)
    case TermExpr(_) => true
    case Aggregate(_, _, _) => true
    case Named(_, _) => true
  }

  /** A path error names a catalog IRI and a context the source reports. */
  predicate ReportsCatalog<T>(r: Result<T, SubstError>, cat: Catalog)
  {
    r.Err? && r.error.PathNotSubstitutable? ==> r.error.iri in cat && ReportedContext(r.error.context)
  }

  /**
   * What `_doSubstitute` makes of a tree: the new tree or the error, and the
   * next instance number. A basic graph pattern is rewritten around its
   * first catalog pattern and walked again; a join splices its rewritten
   * patterns in at the same index and looks at that index again; a property
   * path is checked; a union is not entered; every other node has its input
   * (a filter also its expression) walked and keeps everything else. `fuel`
   * bounds how often a freshly inserted template is handled again.
   */
  function Walk(n: Node, cat: Catalog, fuel: nat, next: nat): (Result<Node, SubstError>, nat)
    decreases fuel, n, 2
  {
    match n
    case Bgp(ps) => WalkBgp(ps, cat, fuel, next)
    case Join(ins) => WalkJoin(ins, ins, 0, cat, fuel, fuel, next)
    case LeftJoin(l, rt, c) =>
      var (a, n1) := Walk(l, cat, fuel, next);
      if a.Err? then (Err(a.error), n1)
      else
        var (b, n2) := Walk(rt, cat, fuel, n1);
        if b.Err? then (Err(b.error), n2) else (Ok(LeftJoin(a.value, b.value, c)), n2)
    case Union(_) => (Ok(n), next)
    case Filter(inp, e) =>
      var (a, n1) := Walk(inp, cat, fuel, next);
      if a.Err? then (Err(a.error), n1)
      else
        var (b, n2) := WalkExpr(e, cat, fuel, n1);
        if b.Err? then (Err(b.error), n2) else (Ok(Filter(a.value, b.value)), n2)
    case PathNode(_, p, _) =>
      (match PathError(p, cat, PathTypeName(p))
       case Some(err) => (Err(err), next)
       case None => (Ok(n), next))
    case _ => WalkInput(n, cat, fuel, next)
  }

  /** `n` with its single input replaced by `inp`, everything else kept. */
  function WithInput(n: Node, inp: Node): (m: Node)
    requires HasSingleInput(n) && !n.Filter?
    ensures HasSingleInput(m) && m.input == inp
  {
    match n
    case Project(_, vs) => Project(inp, vs)
    case Group(_, vs, ags) => Group(inp, vs, ags)
    case OrderBy(_, es) => OrderBy(inp, es)
    case Extend(_, v, e) => Extend(inp, v, e)
    case Slice(_, st, len) => Slice(inp, st, len)
    case Distinct(_) => Distinct(inp)
  }

  /** The default case: the single input is walked and put back in place. */
  function WalkInput(n: Node, cat: Catalog, fuel: nat, next: nat): (Result<Node, SubstError>, nat)
    requires HasSingleInput(n) && !n.Filter?
    decreases fuel, n, 1
  {
    var (a, n1) := Walk(n.input, cat, fuel, next);
    if a.Err? then (Err(a.error), n1) else (Ok(WithInput(n, a.value)), n1)
  }

  /** A basic graph pattern: rewritten once, then the replacement is walked with one unit of fuel less. */
  function WalkBgp(ps: seq<Pattern>, cat: Catalog, fuel: nat, next: nat): (Result<Node, SubstError>, nat)
    decreases fuel, ps, 1
  {
    match Rewrite(ps, cat, next)
    case None => (Ok(Bgp(ps)), next)
    case Some(x) => if fuel == 0 then (Err(OutOfFuel), next + 1) else Walk(x, cat, fuel - 1, next + 1)
  }

  /**
   * The join loop from index `i` of the current inputs `input` (which were
   * `orig` before any splice), with `steps` units of fuel left for splices.
   */
  function WalkJoin(orig: seq<Node>, input: seq<Node>, i: nat, cat: Catalog, fuel: nat, steps: nat, next: nat)
    : (Result<Node, SubstError>, nat)
    requires i <= |input| && steps <= fuel
    requires steps == fuel ==> |input| == |orig| && input[i..] == orig[i..]
    decreases fuel, orig, 1, steps, |input| - i
  {
    if i == |input| then (Ok(Join(input)), next)
    else if input[i].Bgp? then
      match Rewrite(input[i].patterns, cat, next)
      case None => WalkJoin(orig, input, i + 1, cat, fuel, steps, next)
      case Some(x) =>
        if steps == 0 then (Err(OutOfFuel), next + 1)
        else WalkJoin(orig, Splice(input, i, x), i, cat, fuel, steps - 1, next + 1)
    else
      assert steps == fuel ==> input[i] == input[i..][0] == orig[i];
      var (a, n1) := Walk(input[i], cat, steps, next);
      if a.Err? then (Err(a.error), n1)
      else WalkJoin(orig, input[i := a.value], i + 1, cat, fuel, steps, n1)
  }

  /** The expression case: operator arguments in order, an existence's pattern; terms and the rest are kept. */
  function WalkExpr(e: Expr, cat: Catalog, fuel: nat, next: nat): (Result<Expr, SubstError>, nat)
    decreases fuel, e, 2
  {
    match e
    case Operator(_, args) => WalkArgs(e, args, 0, cat, fuel, next)
    case Existence(neg, inp) =>
      var (a, n1) := Walk(inp, cat, fuel, next);
      if a.Err? then (Err(a.error), n1) else (Ok(Existence(neg, a.value)), n1)
    case _ => (Ok(e), next)
  }

  function WalkArgs(e: Expr, xs: seq<Expr>, i: nat, cat: Catalog, fuel: nat, next: nat): (Result<Expr, SubstError>, nat)
    requires e.Operator? && |xs| == |e.args| && i <= |xs| && xs[i..] == e.args[i..]
    decreases fuel, e, 1, |xs| - i
  {
    if i == |xs| then (Ok(Operator(e.operator, xs)), next)
    else
      assert xs[i] == xs[i..][0] == e.args[i];
      var (a, n1) := WalkExpr(xs[i], cat, fuel, next);
      if a.Err? then (Err(a.error), n1)
      else WalkArgs(e, xs[i := a.value], i + 1, cat, fuel, n1)
  }

  /** The walk ran out of fuel. */
  predicate Exhausted<T>(r: Result<T, SubstError>)
  {
    r.Err? && r.error.OutOfFuel?
  }

  /**
   * A walk that did not run out of fuel gives the same tree, error and
   * instance number under any larger fuel `fuel'`.
   */
  lemma {:induction false} WalkMoreFuel(n: Node, cat: Catalog, fuel: nat, fuel': nat, next: nat)
    requires fuel <= fuel'
    ensures !Exhausted(Walk(n, cat, fuel, next).0) ==> Walk(n, cat, fuel', next) == Walk(n, cat, fuel, next)
    decreases fuel, n, 2
  {
    match n
    case Bgp(ps) => WalkBgpMoreFuel(ps, cat, fuel, fuel', next);
    case Join(ins) => WalkJoinMoreFuel(ins, ins, 0, cat, fuel, fuel', fuel, fuel', next);
    case LeftJoin(_, _, _) => WalkTwoMoreFuel(n, cat, fuel, fuel', next);
    case Union(_) =>
    case Filter(_, _) => WalkTwoMoreFuel(n, cat, fuel, fuel', next);
    case PathNode(_, _, _) =>
    case _ => WalkInputMoreFuel(n, cat, fuel, fuel', next);
  }

  lemma {:induction false} WalkTwoMoreFuel(n: Node, cat: Catalog, fuel: nat, fuel': nat, next: nat)
    requires n.LeftJoin? || n.Filter?
    requires fuel <= fuel'
    ensures !Exhausted(Walk(n, cat, fuel, next).0) ==> Walk(n, cat, fuel', next) == Walk(n, cat, fuel, next)
    decreases fuel, n, 1
  {
    if n.LeftJoin? {
      WalkMoreFuel(n.left, cat, fuel, fuel', next);
      var (a, n1) := Walk(n.left, cat, fuel, next);
      if a.Ok? {
        WalkMoreFuel(n.right, cat, fuel, fuel', n1);
      }
    } else {
      WalkMoreFuel(n.input, cat, fuel, fuel', next);
      var (a, n1) := Walk(n.input, cat, fuel, next);
      if a.Ok? {
        WalkExprMoreFuel(n.expression, cat, fuel, fuel', n1);
      }
    }
  }

  lemma {:induction false} WalkInputMoreFuel(n: Node, cat: Catalog, fuel: nat, fuel': nat, next: nat)
    requires HasSingleInput(n) && !n.Filter?
    requires fuel <= fuel'
    ensures !Exhausted(WalkInput(n, cat, fuel, next).0) ==> WalkInput(n, cat, fuel', next) == WalkInput(n, cat, fuel, next)
    decreases fuel, n, 1
  {
    WalkMoreFuel(n.input, cat, fuel, fuel', next);
  }

  lemma {:induction false} WalkBgpMoreFuel(ps: seq<Pattern>, cat: Catalog, fuel: nat, fuel': nat, next: nat)
    requires fuel <= fuel'
    ensures !Exhausted(WalkBgp(ps, cat, fuel, next).0) ==> WalkBgp(ps, cat, fuel', next) == WalkBgp(ps, cat, fuel, next)
    decreases fuel, ps, 1
  {
    var r := Rewrite(ps, cat, next);
    if r.Some? && fuel > 0 {
      WalkMoreFuel(r.value, cat, fuel - 1, fuel' - 1, next + 1);
    }
  }

  /**
   * The join loop under a larger fuel `fuel'`, with as many more splices
   * left (`steps'`).
   */
  lemma {:induction false} WalkJoinMoreFuel(orig: seq<Node>, input: seq<Node>, i: nat, cat: Catalog,
                                            fuel: nat, fuel': nat, steps: nat, steps': nat, next: nat)
    requires i <= |input| && steps <= fuel && fuel <= fuel' && steps' - steps == fuel' - fuel
    requires steps == fuel ==> |input| == |orig| && input[i..] == orig[i..]
    ensures !Exhausted(WalkJoin(orig, input, i, cat, fuel, steps, next).0) ==>
      WalkJoin(orig, input, i, cat, fuel', steps', next) == WalkJoin(orig, input, i, cat, fuel, steps, next)
    decreases fuel, orig, 1, steps, |input| - i, 1
  {
    if i == |input| {
    } else if input[i].Bgp? {
      WalkJoinBgpMoreFuel(orig, input, i, cat, fuel, fuel', steps, steps', next);
    } else {
      WalkJoinNodeMoreFuel(orig, input, i, cat, fuel, fuel', steps, steps', next);
    }
  }

  /** One pattern input of the join rewritten under more fuel, and the rest of the loop. */
  lemma {:induction false} WalkJoinBgpMoreFuel(orig: seq<Node>, input: seq<Node>, i: nat, cat: Catalog,
                                               fuel: nat, fuel': nat, steps: nat, steps': nat, next: nat)
    requires i < |input| && input[i].Bgp? && steps <= fuel && fuel <= fuel' && steps' - steps == fuel' - fuel
    requires steps == fuel ==> |input| == |orig| && input[i..] == orig[i..]
    ensures !Exhausted(WalkJoin(orig, input, i, cat, fuel, steps, next).0) ==>
      WalkJoin(orig, input, i, cat, fuel', steps', next) == WalkJoin(orig, input, i, cat, fuel, steps, next)
    decreases fuel, orig, 1, steps, |input| - i, 0
  {
    var r := Rewrite(input[i].patterns, cat, next);
    if r.None? {
      WalkJoinMoreFuel(orig, input, i + 1, cat, fuel, fuel', steps, steps', next);
    } else if steps > 0 {
      WalkJoinMoreFuel(orig, Splice(input, i, r.value), i, cat, fuel, fuel', steps - 1, steps' - 1, next + 1);
    }
  }

  /** One non-pattern input of the join walked under more fuel, and the rest of the loop. */
  lemma {:induction false} WalkJoinNodeMoreFuel(orig: seq<Node>, input: seq<Node>, i: nat, cat: Catalog,
                                                fuel: nat, fuel': nat, steps: nat, steps': nat, next: nat)
    requires i < |input| && !input[i].Bgp? && steps <= fuel && fuel <= fuel' && steps' - steps == fuel' - fuel
    requires steps == fuel ==> |input| == |orig| && input[i..] == orig[i..]
    ensures !Exhausted(WalkJoin(orig, input, i, cat, fuel, steps, next).0) ==>
      WalkJoin(orig, input, i, cat, fuel', steps', next) == WalkJoin(orig, input, i, cat, fuel, steps, next)
    decreases fuel, orig, 1, steps, |input| - i, 0
  {
    assert steps == fuel ==> input[i] == input[i..][0] == orig[i];
    WalkMoreFuel(input[i], cat, steps, steps', next);
    var (a, n1) := Walk(input[i], cat, steps, next);
    if a.Ok? {
      var input' := input[i := a.value];
      assert steps == fuel ==> input'[i + 1..] == input[i + 1..] == orig[i + 1..];
      WalkJoinMoreFuel(orig, input', i + 1, cat, fuel, fuel', steps, steps', n1);
    }
  }

  lemma {:induction false} WalkExprMoreFuel(e: Expr, cat: Catalog, fuel: nat, fuel': nat, next: nat)
    requires fuel <= fuel'
    ensures !Exhausted(WalkExpr(e, cat, fuel, next).0) ==> WalkExpr(e, cat, fuel', next) == WalkExpr(e, cat, fuel, next)
    decreases fuel, e, 2
  {
    match e
    case Operator(_, args) => WalkArgsMoreFuel(e, args, 0, cat, fuel, fuel', next);
    case Existence(_, inp) => WalkMoreFuel(inp, cat, fuel, fuel', next);
    case _ =>
  }

  lemma {:induction false} WalkArgsMoreFuel(e: Expr, xs: seq<Expr>, i: nat, cat: Catalog, fuel: nat, fuel': nat, next: nat)
    requires e.Operator? && |xs| == |e.args| && i <= |xs| && xs[i..] == e.args[i..]
    requires fuel <= fuel'
    ensures !Exhausted(WalkArgs(e, xs, i, cat, fuel, next).0) ==> WalkArgs(e, xs, i, cat, fuel', next) == WalkArgs(e, xs, i, cat, fuel, next)
    decreases fuel, e, 1, |xs| - i
  {
    if i < |xs| {
      assert xs[i] == xs[i..][0] == e.args[i];
      WalkExprMoreFuel(xs[i], cat, fuel, fuel', next);
      var (a, n1) := WalkExpr(xs[i], cat, fuel, next);
      if a.Ok? {
        WalkArgsMoreFuel(e, xs[i := a.value], i + 1, cat, fuel, fuel', n1);
      }
    }
  }

  /**
   * What the walk guarantees: instance numbers only grow; on success nothing
   * substitutable is left at a position the walk inspects (so a visited path
   * reaching the catalog makes it fail); a tree with nothing to substitute
   * comes back unchanged; a path error names a catalog IRI.
   */
  lemma {:induction false} WalkSound(n: Node, cat: Catalog, fuel: nat, next: nat)
    ensures Walk(n, cat, fuel, next).1 >= next
    ensures Walk(n, cat, fuel, next).0.Ok? ==> Settled(Walk(n, cat, fuel, next).0.value, cat)
    ensures Settled(n, cat) ==> Walk(n, cat, fuel, next) == (Ok(n), next)
    ensures ReportsCatalog(Walk(n, cat, fuel, next).0, cat)
    decreases fuel, n, 2
  {
    match n
    case Bgp(ps) => WalkBgpSound(ps, cat, fuel, next);
    case Join(ins) => WalkJoinCaseSound(ins, cat, fuel, next);
    case LeftJoin(_, _, _) => WalkTwoSound(n, cat, fuel, next);
    case Union(_) =>
    case Filter(_, _) => WalkTwoSound(n, cat, fuel, next);
    case PathNode(_, p, _) =>
      PathErrorExactly(p, cat, PathTypeName(p));
    case _ => WalkInputSound(n, cat, fuel, next);
  }

  lemma {:induction false} WalkJoinCaseSound(ins: seq<Node>, cat: Catalog, fuel: nat, next: nat)
    ensures Walk(Join(ins), cat, fuel, next).1 >= next
    ensures Walk(Join(ins), cat, fuel, next).0.Ok? ==> Settled(Walk(Join(ins), cat, fuel, next).0.value, cat)
    ensures Settled(Join(ins), cat) ==> Walk(Join(ins), cat, fuel, next) == (Ok(Join(ins)), next)
    ensures ReportsCatalog(Walk(Join(ins), cat, fuel, next).0, cat)
    decreases fuel, ins, 2
  {
    assert Walk(Join(ins), cat, fuel, next) == WalkJoin(ins, ins, 0, cat, fuel, fuel, next);
    WalkJoinSound(ins, ins, 0, cat, fuel, fuel, next);
    if Settled(Join(ins), cat) {
      WalkJoinUnchanged(ins, 0, cat, fuel, next);
    }
  }

  /** A left join walks its two sides in order, a filter its input and then its expression. */
  lemma {:induction false} WalkTwoSound(n: Node, cat: Catalog, fuel: nat, next: nat)
    requires n.LeftJoin? || n.Filter?
    ensures Walk(n, cat, fuel, next).1 >= next
    ensures Walk(n, cat, fuel, next).0.Ok? ==> Settled(Walk(n, cat, fuel, next).0.value, cat)
    ensures Settled(n, cat) ==> Walk(n, cat, fuel, next) == (Ok(n), next)
    ensures ReportsCatalog(Walk(n, cat, fuel, next).0, cat)
    decreases fuel, n, 1
  {
    match n
    case LeftJoin(l, rt, c) =>
      WalkSound(l, cat, fuel, next);
      var (a, n1) := Walk(l, cat, fuel, next);
      if a.Ok? {
        WalkSound(rt, cat, fuel, n1);
      }
    case Filter(inp, e) =>
      WalkSound(inp, cat, fuel, next);
      var (a, n1) := Walk(inp, cat, fuel, next);
      if a.Ok? {
        WalkExprSound(e, cat, fuel, n1);
      }
  }

  lemma {:induction false} WalkInputSound(n: Node, cat: Catalog, fuel: nat, next: nat)
    requires HasSingleInput(n) && !n.Filter?
    ensures WalkInput(n, cat, fuel, next).1 >= next
    ensures WalkInput(n, cat, fuel, next).0.Ok? ==> Settled(WalkInput(n, cat, fuel, next).0.value, cat)
    ensures Settled(n, cat) ==> WalkInput(n, cat, fuel, next) == (Ok(n), next)
    ensures ReportsCatalog(WalkInput(n, cat, fuel, next).0, cat)
    decreases fuel, n, 1
  {
    WalkSound(n.input, cat, fuel, next);
    var (a, n1) := Walk(n.input, cat, fuel, next);
    if a.Ok? {
      assert Settled(WithInput(n, a.value), cat) == Settled(a.value, cat);
    }
    assert Settled(n, cat) == Settled(n.input, cat);
  }

  lemma {:induction false} WalkBgpSound(ps: seq<Pattern>, cat: Catalog, fuel: nat, next: nat)
    ensures WalkBgp(ps, cat, fuel, next).1 >= next
    ensures WalkBgp(ps, cat, fuel, next).0.Ok? ==> Settled(WalkBgp(ps, cat, fuel, next).0.value, cat)
    ensures Settled(Bgp(ps), cat) ==> WalkBgp(ps, cat, fuel, next) == (Ok(Bgp(ps)), next)
    ensures ReportsCatalog(WalkBgp(ps, cat, fuel, next).0, cat)
    decreases fuel, ps, 1
  {
    match Rewrite(ps, cat, next)
    case None =>
      assert WalkBgp(ps, cat, fuel, next) == (Ok(Bgp(ps)), next);
    case Some(x) =>
      assert !Settled(Bgp(ps), cat);
      if fuel > 0 {
        assert WalkBgp(ps, cat, fuel, next) == Walk(x, cat, fuel - 1, next + 1);
        WalkSound(x, cat, fuel - 1, next + 1);
      } else {
        assert WalkBgp(ps, cat, fuel, next) == (Err(OutOfFuel), next + 1);
      }
  }

  lemma {:induction false} WalkJoinSound(orig: seq<Node>, input: seq<Node>, i: nat, cat: Catalog, fuel: nat, steps: nat, next: nat)
    requires i <= |input| && steps <= fuel
    requires steps == fuel ==> |input| == |orig| && input[i..] == orig[i..]
    requires forall k :: 0 <= k < i ==> Settled(input[k], cat)
    ensures WalkJoin(orig, input, i, cat, fuel, steps, next).1 >= next
    ensures WalkJoin(orig, input, i, cat, fuel, steps, next).0.Ok? ==> Settled(WalkJoin(orig, input, i, cat, fuel, steps, next).0.value, cat)
    ensures ReportsCatalog(WalkJoin(orig, input, i, cat, fuel, steps, next).0, cat)
    decreases fuel, orig, 1, steps, |input| - i, 1
  {
    if i < |input| {
      if input[i].Bgp? {
        WalkJoinBgpSound(orig, input, i, cat, fuel, steps, next);
      } else {
        WalkJoinNodeSound(orig, input, i, cat, fuel, steps, next);
      }
    }
  }

  /** The join step at a basic graph pattern: skipped, or spliced and looked at again. */
  lemma {:induction false} WalkJoinBgpSound(orig: seq<Node>, input: seq<Node>, i: nat, cat: Catalog, fuel: nat, steps: nat, next: nat)
    requires i < |input| && steps <= fuel && input[i].Bgp?
    requires steps == fuel ==> |input| == |orig| && input[i..] == orig[i..]
    requires forall k :: 0 <= k < i ==> Settled(input[k], cat)
    ensures WalkJoin(orig, input, i, cat, fuel, steps, next).1 >= next
    ensures WalkJoin(orig, input, i, cat, fuel, steps, next).0.Ok? ==> Settled(WalkJoin(orig, input, i, cat, fuel, steps, next).0.value, cat)
    ensures ReportsCatalog(WalkJoin(orig, input, i, cat, fuel, steps, next).0, cat)
    decreases fuel, orig, 1, steps, |input| - i, 0
  {
    match Rewrite(input[i].patterns, cat, next)
    case None =>
      assert Settled(input[i], cat);
      WalkJoinSound(orig, input, i + 1, cat, fuel, steps, next);
    case Some(x) =>
      if steps > 0 {
        var input' := Splice(input, i, x);
        assert forall k :: 0 <= k < i ==> input'[k] == input'[..i][k] == input[k];
        WalkJoinSound(orig, input', i, cat, fuel, steps - 1, next + 1);
      }
  }

  /** The join step at any other input: walked and put back in place. */
  lemma {:induction false} WalkJoinNodeSound(orig: seq<Node>, input: seq<Node>, i: nat, cat: Catalog, fuel: nat, steps: nat, next: nat)
    requires i < |input| && steps <= fuel && !input[i].Bgp?
    requires steps == fuel ==> |input| == |orig| && input[i..] == orig[i..]
    requires forall k :: 0 <= k < i ==> Settled(input[k], cat)
    ensures WalkJoin(orig, input, i, cat, fuel, steps, next).1 >= next
    ensures WalkJoin(orig, input, i, cat, fuel, steps, next).0.Ok? ==> Settled(WalkJoin(orig, input, i, cat, fuel, steps, next).0.value, cat)
    ensures ReportsCatalog(WalkJoin(orig, input, i, cat, fuel, steps, next).0, cat)
    decreases fuel, orig, 1, steps, |input| - i, 0
  {
    assert steps == fuel ==> input[i] == input[i..][0] == orig[i];
    WalkSound(input[i], cat, steps, next);
    var (a, n1) := Walk(input[i], cat, steps, next);
    if a.Ok? {
      var input' := input[i := a.value];
      assert steps == fuel ==> input'[i + 1..] == input[i + 1..] == orig[i + 1..];
      WalkJoinSound(orig, input', i + 1, cat, fuel, steps, n1);
    }
  }

  /** A join whose inputs are all settled is walked to itself. */
  lemma {:induction false} WalkJoinUnchanged(orig: seq<Node>, i: nat, cat: Catalog, fuel: nat, next: nat)
    requires i <= |orig|
    requires forall k :: 0 <= k < |orig| ==> Settled(orig[k], cat)
    ensures WalkJoin(orig, orig, i, cat, fuel, fuel, next) == (Ok(Join(orig)), next)
    decreases fuel, orig, 1, fuel, |orig| - i, 1
  {
    if i < |orig| {
      assert Settled(orig[i], cat);
      if orig[i].Bgp? {
        WalkJoinUnchanged(orig, i + 1, cat, fuel, next);
      } else {
        WalkSound(orig[i], cat, fuel, next);
        assert orig[i := orig[i]] == orig;
        WalkJoinUnchanged(orig, i + 1, cat, fuel, next);
      }
    }
  }

  lemma {:induction false} WalkExprSound(e: Expr, cat: Catalog, fuel: nat, next: nat)
    ensures WalkExpr(e, cat, fuel, next).1 >= next
    ensures WalkExpr(e, cat, fuel, next).0.Ok? ==> ExprSettled(WalkExpr(e, cat, fuel, next).0.value, cat)
    ensures ExprSettled(e, cat) ==> WalkExpr(e, cat, fuel, next) == (Ok(e), next)
    ensures ReportsCatalog(WalkExpr(e, cat, fuel, next).0, cat)
    decreases fuel, e, 2
  {
    match e
    case Operator(_, args) => WalkArgsSound(e, args, 0, cat, fuel, next);
    case Existence(neg, inp) => WalkSound(inp, cat, fuel, next);
    case _ =>
  }

  lemma {:induction false} WalkArgsSound(e: Expr, xs: seq<Expr>, i: nat, cat: Catalog, fuel: nat, next: nat)
    requires e.Operator? && |xs| == |e.args| && i <= |xs| && xs[i..] == e.args[i..]
    requires forall k :: 0 <= k < i ==> ExprSettled(xs[k], cat)
    ensures WalkArgs(e, xs, i, cat, fuel, next).1 >= next
    ensures WalkArgs(e, xs, i, cat, fuel, next).0.Ok? ==> ExprSettled(WalkArgs(e, xs, i, cat, fuel, next).0.value, cat)
    ensures ExprSettled(e, cat) && xs == e.args ==> WalkArgs(e, xs, i, cat, fuel, next) == (Ok(e), next)
    ensures ReportsCatalog(WalkArgs(e, xs, i, cat, fuel, next).0, cat)
    decreases fuel, e, 1, |xs| - i
  {
    if i < |xs| {
      assert xs[i] == xs[i..][0] == e.args[i];
      WalkExprSound(xs[i], cat, fuel, next);
      var (a, n1) := WalkExpr(xs[i], cat, fuel, next);
      if a.Ok? {
        WalkArgsSound(e, xs[i := a.value], i + 1, cat, fuel, n1);
      }
    }
  }

  /** The operator kinds the walk keeps, with the parts it does not walk. */
  predicate SameShell(n: Node, m: Node)
  {
    match n
    case Bgp(_) => true
    case Join(_) => m.Join?
    case LeftJoin(_, _, c) => m.LeftJoin? && m.condition == c
    case Union(_) => m == n
    case Filter(_, _) => m.Filter?
    case PathNode(_, _, _) => m == n
    case Project(_, vs) => m.Project? && m.variables == vs
    case Group(_, vs, ags) => m.Group? && m.variables == vs && m.aggregates == ags
    case OrderBy(_, es) => m.OrderBy? && m.expressions == es
    case Extend(_, v, e) => m.Extend? && m.variable == v && m.expression == e
    case Slice(_, st, len) => m.Slice? && m.start == st && m.length == len
    case Distinct(_) => m.Distinct?
  }

  /**
   * Only basic graph patterns are replaced: a successful walk keeps every
   * other node's operator with the parts it does not walk, and a join stays
   * a join.
   */
  lemma WalkKeepsShell(n: Node, cat: Catalog, fuel: nat, next: nat)
    ensures Walk(n, cat, fuel, next).0.Ok? ==> SameShell(n, Walk(n, cat, fuel, next).0.value)
  {
    if n.Join? {
      WalkJoinIsJoin(n.inputs, n.inputs, 0, cat, fuel, fuel, next);
    }
  }

  lemma {:induction false} WalkJoinIsJoin(orig: seq<Node>, input: seq<Node>, i: nat, cat: Catalog, fuel: nat, steps: nat, next: nat)
    requires i <= |input| && steps <= fuel
    requires steps == fuel ==> |input| == |orig| && input[i..] == orig[i..]
    ensures WalkJoin(orig, input, i, cat, fuel, steps, next).0.Ok? ==> WalkJoin(orig, input, i, cat, fuel, steps, next).0.value.Join?
    decreases steps, |input| - i
  {
    if i < |input| {
      if input[i].Bgp? {
        match Rewrite(input[i].patterns, cat, next)
        case None =>
          assert steps == fuel ==> input[i + 1..] == input[i..][1..] == orig[i + 1..];
          assert WalkJoin(orig, input, i, cat, fuel, steps, next) == WalkJoin(orig, input, i + 1, cat, fuel, steps, next);
          WalkJoinIsJoin(orig, input, i + 1, cat, fuel, steps, next);
        case Some(x) =>
          if steps > 0 {
            assert WalkJoin(orig, input, i, cat, fuel, steps, next) == WalkJoin(orig, Splice(input, i, x), i, cat, fuel, steps - 1, next + 1);
            WalkJoinIsJoin(orig, Splice(input, i, x), i, cat, fuel, steps - 1, next + 1);
          }
      } else {
        WalkJoinNodeIsJoin(orig, input, i, cat, fuel, steps, next);
      }
    }
  }

  lemma {:induction false} WalkJoinNodeIsJoin(orig: seq<Node>, input: seq<Node>, i: nat, cat: Catalog, fuel: nat, steps: nat, next: nat)
    requires i < |input| && steps <= fuel && !input[i].Bgp?
    requires steps == fuel ==> |input| == |orig| && input[i..] == orig[i..]
    ensures WalkJoin(orig, input, i, cat, fuel, steps, next).0.Ok? ==> WalkJoin(orig, input, i, cat, fuel, steps, next).0.value.Join?
    decreases steps, |input| - i, 0
  {
    assert steps == fuel ==> input[i] == input[i..][0] == orig[i];
    var (a, n1) := Walk(input[i], cat, steps, next);
    if a.Ok? {
      assert steps == fuel ==> input[i := a.value][i + 1..] == input[i + 1..] == orig[i + 1..];
      assert WalkJoin(orig, input, i, cat, fuel, steps, next) == WalkJoin(orig, input[i := a.value], i + 1, cat, fuel, steps, n1);
      WalkJoinIsJoin(orig, input[i := a.value], i + 1, cat, fuel, steps, n1);
    }
  }


  /**
   * `_doSubstitute`, proved equal to `Walk`. On success nothing
   * substitutable is left; a tree with nothing to substitute comes back
   * unchanged.
   */
  method DoSubstitute(n: Node, cat: Catalog, fuel: nat, next: nat) returns (r: Result<Node, SubstError>, next': nat)
    ensures (r, next') == Walk(n, cat, fuel, next)
    ensures next' >= next
    ensures r.Ok? ==> Settled(r.value, cat)
    ensures Settled(n, cat) ==> r == Ok(n) && next' == next
    ensures r.Err? && r.error.PathNotSubstitutable? ==> r.error.iri in cat && ReportedContext(r.error.context)
    decreases fuel, n
  {
    WalkSound(n, cat, fuel, next);
    match n
    case Bgp(ps) =>
      r, next' := SubstituteBgp(ps, cat, fuel, next);
    case Join(ins) =>
      r, next' := SubstituteJoin(ins, cat, fuel, next);
    case LeftJoin(left, right, c) =>
      var a, n1 := DoSubstitute(left, cat, fuel, next);
      if a.Err? {
        return Err(a.error), n1;
      }
      var b, n2 := DoSubstitute(right, cat, fuel, n1);
      if b.Err? {
        return Err(b.error), n2;
      }
      return Ok(LeftJoin(a.value, b.value, c)), n2;
    case Union(_) =>
      return Ok(n), next;
    case Filter(inp, e) =>
      var a, n1 := DoSubstitute(inp, cat, fuel, next);
      if a.Err? {
        return Err(a.error), n1;
      }
      var b, n2 := DoSubstituteExpr(e, cat, fuel, n1);
      if b.Err? {
        return Err(b.error), n2;
      }
      return Ok(Filter(a.value, b.value)), n2;
    case PathNode(s, p, o) =>
      r := SubstitutePath(n, cat);
      next' := next;
    case _ =>
      r, next' := SubstituteInput(n, cat, fuel, next);
  }

  /** The default case of `_doSubstitute`: a node with an input has that input walked. */
  method SubstituteInput(n: Node, cat: Catalog, fuel: nat, next: nat) returns (r: Result<Node, SubstError>, next': nat)
    requires HasSingleInput(n) && !n.Filter?
    ensures (r, next') == WalkInput(n, cat, fuel, next)
    decreases fuel, n, 1
  {
    var a, n1 := DoSubstitute(n.input, cat, fuel, next);
    if a.Err? {
      return Err(a.error), n1;
    }
    return Ok(WithInput(n, a.value)), n1;
  }

  /** The property-path branch of `_doSubstitute`: a path that reaches the catalog is an error, any other is kept. */
  method SubstitutePath(n: Node, cat: Catalog) returns (r: Result<Node, SubstError>)
    requires n.PathNode?
    ensures r.Ok? <==> Settled(n, cat)
    ensures r.Ok? ==> r.value == n
    ensures r.Err? ==> Some(r.error) == PathError(n.path, cat, PathTypeName(n.path))
    ensures r.Err? ==> r.error.PathNotSubstitutable? && r.error.iri in cat && ReportedContext(r.error.context)
  {
    var err := CheckPath(n.path, cat, PathTypeName(n.path));
    PathErrorExactly(n.path, cat, PathTypeName(n.path));
    if err.Some? {
      return Err(err.value);
    }
    return Ok(n);
  }

  /** The basic-graph-pattern branch of `_doSubstitute`: rewrite, then walk the result again. */
  method SubstituteBgp(ps: seq<Pattern>, cat: Catalog, fuel: nat, next: nat) returns (r: Result<Node, SubstError>, next': nat)
    ensures (r, next') == WalkBgp(ps, cat, fuel, next)
    ensures next' >= next
    ensures r.Ok? ==> Settled(r.value, cat)
    ensures Settled(Bgp(ps), cat) ==> r == Ok(Bgp(ps)) && next' == next
    ensures r.Err? && r.error.PathNotSubstitutable? ==> r.error.iri in cat && ReportedContext(r.error.context)
    decreases fuel, ps
  {
    WalkBgpSound(ps, cat, fuel, next);
    var conv, n1 := HandleBgp(ps, cat, next);
    if conv.None? {
      assert WalkBgp(ps, cat, fuel, next) == (Ok(Bgp(ps)), next);
      return Ok(Bgp(ps)), next;
    }
    if fuel == 0 {
      assert WalkBgp(ps, cat, fuel, next) == (Err(OutOfFuel), n1);
      return Err(OutOfFuel), n1;
    }
    assert WalkBgp(ps, cat, fuel, next) == Walk(conv.value, cat, fuel - 1, n1);
    r, next' := DoSubstitute(conv.value, cat, fuel - 1, n1);
  }

  /**
   * The join branch of `_doSubstitute`: basic graph patterns are rewritten and
   * spliced in place (each splice spends one unit of fuel and the index stays
   * put, so the spliced-in patterns are visited next); other inputs recurse.
   */
  method SubstituteJoin(ins: seq<Node>, cat: Catalog, fuel: nat, next: nat) returns (r: Result<Node, SubstError>, next': nat)
    ensures (r, next') == WalkJoin(ins, ins, 0, cat, fuel, fuel, next)
    ensures next' >= next
    ensures r.Ok? ==> Settled(r.value, cat)
    ensures Settled(Join(ins), cat) ==> r == Ok(Join(ins)) && next' == next
    ensures r.Err? && r.error.PathNotSubstitutable? ==> r.error.iri in cat && ReportedContext(r.error.context)
    decreases fuel, ins
  {
    WalkSound(Join(ins), cat, fuel, next);
    r, next' := SubstituteJoinLoop(ins, cat, fuel, next);
  }

  /** The loop of the join branch, proved equal to `WalkJoin`. */
  method SubstituteJoinLoop(ins: seq<Node>, cat: Catalog, fuel: nat, next: nat) returns (r: Result<Node, SubstError>, next': nat)
    ensures (r, next') == WalkJoin(ins, ins, 0, cat, fuel, fuel, next)
    decreases fuel, ins, 1
  {
    var input := ins;
    var i := 0;
    var steps: nat := fuel;
    next' := next;
    while i < |input|
      invariant 0 <= i <= |input| && steps <= fuel
      invariant steps == fuel ==> |input| == |ins| && input[i..] == ins[i..]
      invariant WalkJoin(ins, input, i, cat, fuel, steps, next') == WalkJoin(ins, ins, 0, cat, fuel, fuel, next)
      decreases steps, |input| - i
    {
      if input[i].Bgp? {
        var err, input1, i1, steps1, n1 := SubstituteJoinBgp(ins, input, i, cat, fuel, steps, next');
        if err.Some? {
          return Err(err.value), n1;
        }
        input, i, steps, next' := input1, i1, steps1, n1;
      } else {
        var err, input1, n1 := SubstituteJoinNode(ins, input, i, cat, fuel, steps, next');
        if err.Some? {
          return Err(err.value), n1;
        }
        input := input1;
        next' := n1;
        i := i + 1;
      }
    }
    r := Ok(Join(input));
  }

  /**
   * One basic graph pattern of the join: left in place when nothing in it
   * is substitutable, otherwise rewritten and spliced in at the same index
   * for one unit of fuel.
   */
  method SubstituteJoinBgp(ins: seq<Node>, input: seq<Node>, i: nat, cat: Catalog, fuel: nat, steps: nat, next: nat)
    returns (err: Option<SubstError>, input': seq<Node>, i': nat, steps': nat, next': nat)
    requires i < |input| && steps <= fuel && input[i].Bgp?
    requires steps == fuel ==> |input| == |ins| && input[i..] == ins[i..]
    ensures err.Some? ==> (Err(err.value), next') == WalkJoin(ins, input, i, cat, fuel, steps, next)
    ensures err.None? ==> i' <= |input'| && steps' <= fuel && (steps' == fuel ==> |input'| == |ins| && input'[i'..] == ins[i'..])
    ensures err.None? ==> WalkJoin(ins, input', i', cat, fuel, steps', next') == WalkJoin(ins, input, i, cat, fuel, steps, next)
    ensures err.None? ==> steps' < steps || (steps' == steps && |input'| - i' < |input| - i)
  {
    var conv, n1 := HandleBgp(input[i].patterns, cat, next);
    next' := n1;
    if conv.None? {
      assert steps == fuel ==> input[i + 1..] == input[i..][1..] == ins[i + 1..];
      return None, input, i + 1, steps, n1;
    }
    if steps == 0 {
      return Some(OutOfFuel), input, i, steps, n1;
    }
    err, input', i', steps' := None, Splice(input, i, conv.value), i, steps - 1;
  }

  /** One non-BGP input of the join, substituted in its place. */
  method SubstituteJoinNode(ins: seq<Node>, input: seq<Node>, i: nat, cat: Catalog, fuel: nat, steps: nat, next: nat)
    returns (err: Option<SubstError>, input': seq<Node>, next': nat)
    requires i < |input| && steps <= fuel && !input[i].Bgp?
    requires steps == fuel ==> |input| == |ins| && input[i..] == ins[i..]
    ensures err.Some? ==> (Err(err.value), next') == WalkJoin(ins, input, i, cat, fuel, steps, next)
    ensures err.None? ==> |input'| == |input| && (steps == fuel ==> input'[i + 1..] == ins[i + 1..])
    ensures err.None? ==> WalkJoin(ins, input', i + 1, cat, fuel, steps, next') == WalkJoin(ins, input, i, cat, fuel, steps, next)
    decreases fuel, ins, 0
  {
    assert steps == fuel ==> input[i] == input[i..][0] == ins[i];
    var sub, n1 := DoSubstitute(input[i], cat, steps, next);
    next' := n1;
    if sub.Err? {
      return Some(sub.error), input, n1;
    }
    assert steps == fuel ==> input[i := sub.value][i + 1..] == input[i + 1..] == ins[i + 1..];
    err, input' := None, input[i := sub.value];
  }

  /** The expression branch of `_doSubstitute`. */
  method DoSubstituteExpr(e: Expr, cat: Catalog, fuel: nat, next: nat) returns (r: Result<Expr, SubstError>, next': nat)
    ensures (r, next') == WalkExpr(e, cat, fuel, next)
    ensures next' >= next
    ensures r.Ok? ==> ExprSettled(r.value, cat)
    ensures ExprSettled(e, cat) ==> r == Ok(e) && next' == next
    ensures r.Err? && r.error.PathNotSubstitutable? ==> r.error.iri in cat && ReportedContext(r.error.context)
    decreases fuel, e
  {
    WalkExprSound(e, cat, fuel, next);
    match e
    case Operator(op, args) =>
      var xs := args;
      var i := 0;
      next' := next;
      while i < |xs|
        invariant 0 <= i <= |xs| && |xs| == |args|
        invariant xs[i..] == args[i..]
        invariant WalkArgs(e, xs, i, cat, fuel, next') == WalkExpr(e, cat, fuel, next)
      {
        assert xs[i] == xs[i..][0] == args[i];
        var sub, n1 := DoSubstituteExpr(xs[i], cat, fuel, next');
        if sub.Err? {
          return Err(sub.error), n1;
        }
        xs := xs[i := sub.value];
        next' := n1;
        i := i + 1;
      }
      r := Ok(Operator(op, xs));
    case Existence(neg, inp) =>
      var a, n1 := DoSubstitute(inp, cat, fuel, next);
      if a.Err? {
        return Err(a.error), n1;
      }
      return Ok(Existence(neg, a.value)), n1;
    case TermExpr(_) =>
      return Ok(e), next;
    case Aggregate(_, _, _) =>
      return Ok(e), next;
    case Named(_, _) =>
      return Ok(e), next;
  }

  /**
   * A constant object is bound into the template: with the template
   * `select ?_s ?_o where { ?_s :testA ?_o }` for `:predReplace3`, the
   * patterns `?s ?p ?o ; :predReplace3 4` become `?s ?p ?o ; :testA 4`.
   */
  lemma ObjectConstantBound()
    ensures
      var testA := NamedNode("https://mydom2#testA");
      var replace3 := "https://mydom2#predReplace3";
      var template := Project(Bgp([Pattern(Variable("_s"), testA, Variable("_o"))]), [Variable("_s"), Variable("_o")]);
      var ps := [Pattern(Variable("s"), Variable("p"), Variable("o")), Pattern(Variable("s"), NamedNode(replace3), Literal("4"))];
      Rewrite(ps, map[replace3 := template], 0)
        == Some(Bgp([Pattern(Variable("s"), Variable("p"), Variable("o")), Pattern(Variable("s"), testA, Literal("4"))]))
  {
    var testA := NamedNode("https://mydom2#testA");
    var replace3 := "https://mydom2#predReplace3";
    var template := Project(Bgp([Pattern(Variable("_s"), testA, Variable("_o"))]), [Variable("_s"), Variable("_o")]);
    var ps := [Pattern(Variable("s"), Variable("p"), Variable("o")), Pattern(Variable("s"), NamedNode(replace3), Literal("4"))];
    var bound := Pattern(Variable("s"), testA, Literal("4"));
    ObjectConstantInstance();
    assert FirstCatalogIndex(ps, map[replace3 := template]) == 1;
    assert ps[..1] + ps[2..] == [ps[0]];
    var cat := map[replace3 := template];
    assert cat[ps[1].pred.value] == template;
    assert Rewrite(ps, cat, 0) == Some(Assemble([ps[0]], Bgp([bound])));
    assert [ps[0]] + [bound] == [ps[0], bound];
  }

  /** Underscore-prefixed variables keep their names under the appendix renaming. */
  lemma TemplateUniqueRename(a: string)
    ensures
      var testA := NamedNode("https://mydom2#testA");
      var template := Project(Bgp([Pattern(Variable("_s"), testA, Variable("_o"))]), [Variable("_s"), Variable("_o")]);
      RenameNode(template, Unique(a), 1) == template
  {
    var testA := NamedNode("https://mydom2#testA");
    var inner := Bgp([Pattern(Variable("_s"), testA, Variable("_o"))]);
    var pu := Pattern(Variable("_s"), testA, Variable("_o"));
    assert RenamePattern(pu, Unique(a), 1) == pu;
    assert RenameNode(inner, Unique(a), 1) == inner;
    assert RenameTerms([Variable("_s"), Variable("_o")], Unique(a), 1) == [Variable("_s"), Variable("_o")];
  }

  /** The template instance of the example above: the object constant takes the place of `?_o`. */
  lemma ObjectConstantInstance()
    ensures
      var testA := NamedNode("https://mydom2#testA");
      var template := Project(Bgp([Pattern(Variable("_s"), testA, Variable("_o"))]), [Variable("_s"), Variable("_o")]);
      Instantiate(template, Appendix(0), Pattern(Variable("s"), NamedNode("https://mydom2#predReplace3"), Literal("4")))
        == Bgp([Pattern(Variable("s"), testA, Literal("4"))])
  {
    var testA := NamedNode("https://mydom2#testA");
    var template := Project(Bgp([Pattern(Variable("_s"), testA, Variable("_o"))]), [Variable("_s"), Variable("_o")]);
    var a := Appendix(0);
    var inner := Bgp([Pattern(Variable("_s"), testA, Variable("_o"))]);
    var bound := Pattern(Variable("s"), testA, Literal("4"));
    var pu := Pattern(Variable("_s"), testA, Variable("_o"));
    TemplateUniqueRename(a);
    var sp := Special(Variable("s"), Literal("4"));
    assert RenamePattern(pu, sp, 1) == bound;
    assert RenameNode(inner, sp, 1) == Bgp([bound]);
    assert RenameTerms([Variable("_s"), Variable("_o")], sp, 1) == [Variable("s"), Literal("4")];
    assert RenameVariables(template, a, Variable("s"), Literal("4")) == Project(Bgp([bound]), [Variable("s"), Literal("4")]);
  }
}
