// The SPARQL algebra tree (sparqlalgebrajs) of a parsed user query or of a
// substitution template, restricted to the node kinds the substitution
// engine distinguishes.
module Algebra {
  import opened Common
  import opened Rdf

  /** One triple pattern of a basic graph pattern. */
  datatype Pattern = Pattern(subject: Term, pred: Term, obj: Term)

  /** A property path expression (the predicate of a `path` node). */
  datatype Path =
    | Link(iri: string)
    | Inv(path: Path)
    | Alt(input: seq<Path>)
    | SeqPath(input: seq<Path>)
    | ZeroOrMorePath(path: Path)
    | OneOrMorePath(path: Path)
    | ZeroOrOnePath(path: Path)
    | Nps(iris: seq<string>)

  /** Algebra operators. `Join`, `Union` carry lists; the others one input. */
  datatype Node =
    | Bgp(patterns: seq<Pattern>)
    | Join(inputs: seq<Node>)
    | LeftJoin(left: Node, right: Node, condition: Option<Expr>)
    | Union(inputs: seq<Node>)
    | Filter(input: Node, expression: Expr)
    | PathNode(subject: Term, path: Path, obj: Term)
    | Project(input: Node, variables: seq<Term>)
    | Group(input: Node, variables: seq<Term>, aggregates: seq<Expr>)
    | OrderBy(input: Node, expressions: seq<Expr>)
    | Extend(input: Node, variable: Term, expression: Expr)
    | Slice(input: Node, start: nat, length: Option<nat>)
    | Distinct(input: Node)

  /** Algebra expressions; `Named` stands for a named-function call. */
  datatype Expr =
    | Operator(operator: string, args: seq<Expr>)
    | Existence(not: bool, input: Node)
    | TermExpr(term: Term)
    | Aggregate(aggregator: string, expression: Expr, variable: Term)
    | Named(name: string, args: seq<Expr>)

  /** Nodes whose single `input` the generic default walk descends into. */
  predicate HasSingleInput(n: Node)
  {
    n.Filter? || n.Project? || n.Group? || n.OrderBy? || n.Extend? || n.Slice? || n.Distinct?
  }
}
