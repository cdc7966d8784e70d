// RDF terms as the middleware sees them: a term type and a lexical value.
module Rdf {

  /**
   * An RDF.js term. Every kind carries its lexical `value`: the variable
   * name (without `?`), the IRI, the literal's lexical form or the blank
   * node label.
   */
  datatype Term =
    | Variable(value: string)
    | NamedNode(value: string)
    | Literal(value: string)
    | BlankNode(value: string)
}
