# sparql-otfc core, modelled in Dafny

sparql-otfc answers SPARQL queries that mention *computed predicates*:
predicates whose values are not stored but produced by a plugin, a
substitution template or a remote computation. This project models the
three pieces of its core and proves properties of them.

- **Substitution** (`src/substitutionHandler.js`). The user query is
  translated to SPARQL algebra. Each triple pattern whose predicate IRI has
  a substitution template is replaced by that template's algebra. The
  template's variables are first renamed apart with a fresh appendix and
  bound to the pattern's subject and object. A computed predicate inside a
  complex property path is an error.
- **The `Query` object** (`src/query.js`). It is a parsed query whose
  `where` list is:
  - normalised (the simple paths `^p` and `p1/p2` become plain triples);
  - validated;
  - queried (triples, variables, filters, binds, subqueries);
  - updated in place (triples, filters, binds, limit, prefixes).

  Its federation planner `federate` splits the query. The triples that do
  not depend on computed predicates are offloaded as a CONSTRUCT query.
  A probe query restricts the computed subjects.
- **Overfetch avoidance** (`src/predicate.js`, `merge`). Constraints and
  filters of the user's query are mined, translated into the variables
  of a predicate's own query, and added to it.

Layout, one module per file:

| file | module | contents |
|---|---|---|
| `common.dfy` | `Common` | `Option`, `Result`, decimal digits, the instance appendix |
| `rdf.dfy` | `Rdf` | RDF terms |
| `algebra.dfy` | `Algebra` | the algebra tree the substitution walks |
| `renaming.dfy` | `Renaming` | `_renameVariables` and its walk |
| `substitution.dfy` | `Substitution` | `_handleBGP`, the path check and `_doSubstitute` |
| `sparql.dfy` | `Sparql` | the parsed query as a value and the pure operations of `Query` |
| `normalize.dfy` | `Normalization` | `normalize` |
| `federation.dfy` | `Federation` | `pathFromTerm`, `pathToTerm` and the `federate` planner |
| `query.dfy` | `Queries` | the `Query` class, whose methods update its fields in place |
| `merge.dfy` | `Merge` | `Predicate.merge` and its helpers |

Loops of the source are methods with loop invariants. Each is proved equal
to a specification function, and the properties are proved about that
function. Values that the source mutates through an object (the `where`
list, the limit, the prefixes) are fields of `Queries.Query`.

## Model

| member | source | states |
|---|---|---|
| Common.Digits | src/substitutionHandler.js:240-241 | the fresh part of an appendix is a non-empty string of decimal digits |
| Common.DigitsInjective | src/substitutionHandler.js:240-241 | different instance numbers give different digit strings |
| Common.Appendix | src/substitutionHandler.js:240-241 | an appendix is `_` followed by at least one digit |
| Common.AppendixSuffixesDisjoint | src/substitutionHandler.js:240-241 | no name ends with the appendices of two different instances |
| Renaming.RenameNodeAdd | src/substitutionHandler.js:365-523 | walking a tree `j` times and then `k` times equals walking it `j + k` times |
| Renaming.UniqueNodeStable | src/substitutionHandler.js:323-337 | the suffix pass never suffixes a name twice, however often the walk visits it |
| Renaming.UniqueIdempotent | src/substitutionHandler.js:328-334 | renaming an already renamed template again changes nothing |
| Renaming.RenameNodeOk | src/substitutionHandler.js:365-523 | if a renamer maps allowed names to allowed names, every visited variable is allowed after the walk |
| Renaming.UniqueShape | src/substitutionHandler.js:323-338 | after the suffix pass every visited variable is `_s`, `_o` or ends with the appendix |
| Renaming.BoundaryBinding | src/substitutionHandler.js:318-356 | after both passes only suffixed template variables and the user's subject and object remain |
| Renaming.InstancesDisjoint | src/substitutionHandler.js:240-245 | two instances share no internal variable |
| Substitution.FirstCatalogIndex | src/substitutionHandler.js:223-227 | the index of the first pattern whose predicate value is in the catalog, or the length if none is |
| Substitution.DropProjection | src/substitutionHandler.js:247-261 | only a projection is dropped, exactly when no ordering, grouping or slice is beneath its extends |
| Substitution.SliceDroppedAsWritten | src/substitutionHandler.js:249-261 | as written, a LIMIT at the template's root is dropped and the projection kept |
| Substitution.DistinctDroppedAsWritten | src/substitutionHandler.js:249-261 | as written, a DISTINCT at the template's root is dropped |
| Substitution.Rewrite | src/substitutionHandler.js:220-306 | `None` exactly when no pattern is substitutable |
| Substitution.RewriteAtFirstMatch | src/substitutionHandler.js:223-289 | exactly the first substitutable pattern is removed and the rest keep their order; one substitutable pattern fewer remains; the result is the template alone, one merged BGP or a join |
| Substitution.HandleBgp | src/substitutionHandler.js:220-306 | the scan loop returns `Rewrite` and numbers one new instance only on a replacement |
| Substitution.Splice | src/substitutionHandler.js:89-99 | a replacement join's inputs take the replaced element's place; everything else keeps its place |
| Substitution.PathErrorExactly | src/substitutionHandler.js:145-207 | a path fails exactly when a catalog IRI occurs as a link; the error names a catalog link of the path and the operator directly around that link (the path's own type for a bare link) |
| Substitution.PathOperatorsReject | src/tests/test_substitution.js:278-324 | each of the six failing path test cases is refused, naming the operator directly around the catalog link: `^` inside `\|`, a link inside `\|`, the three repetitions, and `:predA\|(:predB/:predReplace)`, a sequence inside an alternative, reported as `seq /` |
| Substitution.CheckPath | src/substitutionHandler.js:145-207 | the loops over alternatives and sequences return the first error in walk order |
| Substitution.WalkMoreFuel | src/substitutionHandler.js:47-208 | a walk that did not run out of fuel gives the same result, error and instance number under any larger fuel |
| Substitution.WalkSound | src/substitutionHandler.js:47-208 | for `Walk`, the specification of the walk: instance numbers only grow; on success nothing substitutable is left at a position the walk inspects; a tree with nothing to substitute comes back unchanged with no instance used; a path error names a catalog IRI and a reported operator |
| Substitution.WalkKeepsShell | src/substitutionHandler.js:47-208 | only basic graph patterns are replaced: every other node keeps its operator and the parts the walk does not enter, and a join stays a join |
| Substitution.DoSubstitute | src/substitutionHandler.js:47-208 | the recursive walk returns exactly `Walk`: a rewritten BGP is walked again, a join's rewritten inputs are spliced in at the same index and looked at again, a left join's sides, a filter's input and expression and a single input are walked, a union is not entered, a path reaching the catalog is an error; with the consequences of `WalkSound` |
| Substitution.SubstituteInput | src/substitutionHandler.js:197-206 | the default case returns `WalkInput`: the single input is walked and put back, the rest of the node kept |
| Substitution.DoSubstituteExpr | src/substitutionHandler.js:128-144 | returns exactly `WalkExpr`: operator arguments are walked in order, an `EXISTS` pattern is walked, other expressions are kept |
| Substitution.SubstituteBgp | src/substitutionHandler.js:50-74 | returns exactly `WalkBgp`: a BGP with a substitutable pattern is rewritten once, and the replacement is walked again |
| Substitution.SubstituteJoin | src/substitutionHandler.js:75-110 | returns exactly `WalkJoin` from index 0: pattern inputs are rewritten and spliced in place with the index kept, other inputs are walked |
| Substitution.SubstituteJoinBgp | src/substitutionHandler.js:85-100 | one pattern input of the join loop: kept and the index moves on when nothing in it is substitutable, otherwise rewritten and spliced in at the same index for one unit of fuel; either way the rest of the loop still yields the same `WalkJoin` result, and the (fuel, remaining inputs) measure drops |
| Substitution.SubstituteJoinNode | src/substitutionHandler.js:101-104 | one other input of the join loop: walked and put back at its index, so the rest of the loop from the next index yields the same `WalkJoin` result, or the walk's error is the loop's result |
| Substitution.SubstitutePath | src/substitutionHandler.js:145-154 | a property path is kept exactly when it reaches no catalog IRI; otherwise the error is the first one `PathError` finds, named with the path's type |
| Substitution.ObjectConstantBound | src/tests/test_substitution.js:239-253 | a constant object of the user's pattern is bound into the template |
| Sparql.WhereTriples | src/query.js:120-127 | a triple is listed exactly when it is in a top-level BGP |
| Sparql.WhereTriplesAppend | src/query.js:120-127 | the triples of two concatenated `where` lists are concatenated |
| Sparql.Validate | src/query.js:20-29 | a top-level group is refused first; otherwise a path among the top-level triples is refused; otherwise the query is accepted |
| Sparql.Dedup | src/query.js:110 | keeps each name once, and every name it was given |
| Sparql.VariableNames | src/query.js:99-110 | each name once: exactly those in a top-level triple position |
| Sparql.VariableNamesAreEntries | src/query.js:99-110 | a name is among the entries of `variables` exactly when it is in `VariableNames`; the list has one more entry per bind |
| Sparql.BindNameMissing | src/query.js:106-109 | a name bound only by BIND appears as a bind term, never as a name |
| Sparql.FirstBgp | src/query.js:137 | the index of the first top-level BGP, or the length if there is none |
| Sparql.AddTriplesContents | src/query.js:136-150 | the triples are appended in order to the first BGP only (or to a new one in front); the top-level triples gain exactly them |
| Sparql.Without | src/query.js:129-134 | a triple is kept exactly when it is not listed |
| Sparql.RemoveTriplesContents | src/query.js:129-134 | the top-level triples are filtered in order; other elements are untouched |
| Sparql.WhereFilters | src/query.js:152-155 | an expression is listed exactly when it is the expression of a top-level filter |
| Sparql.KeepsExactly | src/query.js:157-174 | when the test answers, it keeps a filter exactly when every name it inspects is in the list |
| Sparql.FiltersContaining | src/query.js:157-174 | only kept filters are returned, all kept ones are, and the result is `None` exactly when the test raises on one |
| Sparql.SubsExactlyNested | src/query.js:56-79 | a list is among the subqueries exactly when it is a nested SELECT reached through nested SELECTs and union branches, or a union branch |
| Sparql.BranchSubsCount | src/query.js:66-75 | a union contributes exactly what its nested-SELECT branches contribute side by side, plus one entry for each other branch |
| Normalization.NormTriplesCount | src/query.js:43-50 | the counter and the list each grow by one per split |
| Normalization.NormTriplesJoints | src/query.js:46-49 | the joints `bn_<n>` of one list, numbered from the start counter to the returned one, are pairwise distinct, and each is the object of a triple of the rewritten list |
| Normalization.NormTriplesIdentity | src/query.js:42 | a list without paths is unchanged |
| Normalization.NormTriplesRemovesPaths | src/query.js:32-54 | no path remains exactly when every predicate is plain, `^p` over a plain `p`, or `p1/q` over a plain `p1` with `q` again such a predicate |
| Normalization.NormalizeTriples | src/query.js:39-51 | the in-place loop computes `NormTriples`: an inverse is replaced at its index, a sequence by its two halves, and the inserted second half is examined next |
| Normalization.NormalizeAt | src/query.js:41-49 | one iteration, followed through the inserted halves, rewrites the list up to the new index and leaves the rest untouched |
| Normalization.InsertedHalfExamined | src/query.js:45-48 | `?s :p1/^:p2 ?o . ?s :q ?x` becomes `?s :p1 bn_0 . ?o :p2 bn_0 . ?s :q ?x`, as written and in `NormTriples` |
| Normalization.SecondSequenceSkippedAsWritten | src/query.js:40-49 | as written, the second of two consecutive `p1/p2` triples stays a path |
| Normalization.NormalizeFromShape | src/query.js:36-53 | the `where` list keeps its length and element kinds |
| Normalization.NormalizeIdentity | src/query.js:32-54 | a `where` list without paths is unchanged, nested queries included |
| Normalization.NormalizeQuery | src/query.js:32-54 | the recursive loop computes `NormalizeWhere` |
| Federation.PathFromSound | src/query.js:230-241 | every triple on the path is searched and is reached from `from` within the depth allowed (`ReachableFrom`), and every triple leaving `from` is on it |
| Federation.PathFromOnlyReachable | src/query.js:230-241 | nothing else is on the path: each of its triples leaves `from`, or leaves the non-IRI object of a searched triple that is itself reached from `from` one level less deep |
| Federation.PathFromMoreFuel | src/query.js:230-241 | more depth never changes a path once found |
| Federation.PathFromCycle | src/query.js:230-241 | a self-loop through a variable exhausts any depth |
| Federation.PathFromClosed | src/query.js:230-241 | every triple leaving the non-IRI object of a triple on the path is on the path |
| Federation.PathToSound | src/query.js:217-228 | every triple on the path is searched and leads to the target within the depth allowed (`ReachableTo`), and the target's term type plays no part |
| Federation.PathToOnlyReachable | src/query.js:217-228 | nothing else is on the path: each of its triples arrives at the target, or arrives at the non-IRI subject of a searched triple that itself leads to the target one level less deep |
| Federation.PathToComplete | src/query.js:217-228 | every triple arriving at the target is on the path, and so is every triple arriving at the non-IRI subject of a triple on it |
| Federation.ExclusionsCover | src/query.js:255-267 | every computed triple is excluded, and so is every triple leaving the non-IRI object of an excluded triple; everything excluded is searched; nothing else is excluded (`ExcludedOnly`: each excluded triple is computed or on the path from a computed triple's non-IRI object); the subjects are exactly the non-IRI subjects of computed triples |
| Federation.ExclusionsOnly | src/query.js:255-261 | each excluded triple is a computed triple or lies on the path from the non-IRI object of one |
| Federation.ExclusionsErrorIsDepth | src/query.js:255-267 | the loop fails only when a path needs more depth than allowed |
| Federation.CollectExclusions | src/query.js:255-267 | the loop computes `Exclusions` |
| Federation.ExclusionsStayFailed | src/query.js:255-267 | once the loop has failed it stays failed |
| Federation.Unblank | src/query.js:323-335 | blank nodes become variables of the same name; nothing else changes |
| Federation.PlanOf | src/query.js:250-275 | the plan holds the exclusions and the non-excluded triples with blank nodes made variables |
| Federation.InValues | src/query.js:280 | succeeds exactly when every binding has the subject, and lists its IRIs in order |
| Federation.SubjectFilters | src/query.js:278-283 | one `in` filter per subject, and success exactly when every subject is bound by every binding |
| Federation.FederatedNoneIff | src/query.js:270-290 | no query is produced exactly when every top-level triple is excluded |
| Federation.FederatedOffload | src/query.js:270-274 | the offload template holds exactly the non-excluded triples, none with a computed predicate |
| Federation.FederatedSubjectFilters | src/query.js:276-288 | the subject filters follow the copied filters exactly when `fx` answers |
| Queries.Query.constructor | src/query.js:11-18 | the new query is the given one, normalised |
| Queries.Query.Validate | src/query.js:20-29 | returns `Sparql.Validate` of the current `where` list |
| Queries.Query.AddWhereTriples | src/query.js:136-150 | the new `where` list is `AddTriples` of the old; other fields unchanged |
| Queries.Query.RemoveWhereTriples | src/query.js:129-134 | the new `where` list is `RemoveTriples` of the old; other fields unchanged |
| Queries.Query.AddWhereFilters | src/query.js:186-190 | one filter element per expression appended; other fields unchanged |
| Queries.Query.AddWhereBinds | src/query.js:180-184 | one bind element per pair appended; other fields unchanged |
| Queries.Query.SetLimit | src/query.js:192-194 | only the limit changes |
| Queries.Query.RemoveLimit | src/query.js:196-198 | the limit is cleared; nothing else changes |
| Queries.Query.SetPrefixes | src/query.js:213-215 | only the prefixes change |
| Queries.Query.Federate | src/query.js:243-294 | returns `Federated` of the old state; the `where` list ends as `FederatedWhere` |
| Queries.NewConstruct | src/query.js:323-341 | a CONSTRUCT whose template and single BGP are the offloaded triples |
| Queries.CompleteOffload | src/query.js:271-285 | the offload query built from a plan is `FromPlan` of that plan |
| Queries.AddSubjectFilters | src/query.js:278-283 | appends `SubjectFilters` or stops at the first subject a binding lacks |
| Queries.SubjectFiltersFirstFailure | src/query.js:278-283 | the error names the first subject some binding lacks |
| Queries.Parse | src/query.js:11-18 | the normalised query, or the validation error |
| Merge.GetTermType | src/predicate.js:120-127 | an IRI exactly for an `http:`/`https:` URL with a host, a variable otherwise; the value is kept |
| Merge.FormatTriple | src/predicate.js:110-118 | opens with `?` exactly when the subject is a variable or blank node; closes with `>` for a constant object and with the object's name otherwise |
| Merge.FormatTerm | src/predicate.js:110-118 | `?` exactly for a variable or blank node, followed by its name; angle brackets otherwise |
| Merge.FindVariable | src/predicate.js:134-141 | the subject of the first triple with a variable subject and the predicate; `None` exactly when there is none |
| Merge.FindSubjectMapping | src/predicate.js:152-158 | `None` exactly when no triple `(?x, p, o)` exists; otherwise the `?x` of the first such triple |
| Merge.FindObjectMapping | src/predicate.js:160-166 | `None` exactly when no triple `(s, p, ?x)` exists; otherwise the `?x` of the first such triple |
| Merge.HasConstraint | src/predicate.js:143-150 | true exactly when a top-level triple has the constraint's three values |
| Merge.FindConstraints | src/predicate.js:168-210 | the loop computes `Mine` |
| Merge.MinedSkipsPredicate | src/predicate.js:171 | no constraint uses the computed predicate |
| Merge.MinedAroundSubject | src/predicate.js:172-198 | a `(v1, p, x)` triple yields a constraint `(v0, p, _)`; `(c, p, v1)` with a constant `c` yields `(c, p, v0)`; `(?x, p, v1)` with `?x` neither `v1` nor met before yields `(?m, p, v0)`, `m` being `findSubjectMapping`'s answer or `_x` |
| Merge.MinedFreshSubject | src/predicate.js:186-193 | the third case for one triple: a variable subject neither `v1` nor met before, with object `v1`, yields the constraint from its template mapping to `v0` |
| Merge.MinedMappings | src/predicate.js:174-205 | every mined variable is mapped, to `_` plus its name or to a template variable |
| Merge.MineStepMappings | src/predicate.js:172-206 | one step keeps every mapping except that of a variable it meets, which becomes what `findObjectMapping` or `findSubjectMapping` gives for that triple (`_` plus the name when that is empty) |
| Merge.MinedMappingsJustified | src/predicate.js:168-210 | every mapping is the one the template lookups give for some user triple, not using the computed predicate, that holds the variable |
| Merge.LiteralBecomesVariableAsWritten | src/predicate.js:32-36 | as written, a literal object `"Bob"` becomes the variable `?Bob` |
| Merge.AddConstraints | src/predicate.js:30-40 | the constraint loop leaves the template's `where` list as `Constrained` of the old one, and every other field unchanged |
| Merge.ConstrainedContents | src/predicate.js:30-40 | afterwards every constraint is present; the template gains exactly the added triples, none a value-duplicate of an old or another added one; each added triple is the triple of a constraint the template did not have, in constraint order (`Subsequence` of `ConstraintTriples`), and every such constraint is matched by an added triple |
| Merge.ConstrainedInOrder | src/predicate.js:30-40 | each added triple is the triple of a constraint missing from the original template, and the added triples keep the order of the constraints |
| Merge.AddedCovers | src/predicate.js:30-40 | a constraint present afterwards but not before is matched by an added triple |
| Merge.FindExpressionSound | src/predicate.js:212-247 | the intended translation raises exactly on an ill-shaped filter; otherwise it keeps a filter exactly when all its variables translate, changing only variable names, to names the template knows |
| Merge.OrDisjunctDroppedAsWritten | src/predicate.js:225-233 | as written, `?a > 1 \|\| ?b > 2` with only `?a` known becomes `?a > 1` |
| Merge.NestedVariableKeptAsWritten | src/predicate.js:234-245 | as written, `?x + 1 > 3` is kept with `?x` untranslated |
| Merge.FindFilters | src/predicate.js:248-252 | fails exactly when a filter raises; otherwise it returns exactly the kept translations |
| Merge.MergeQuery | src/predicate.js:25-52 | the template gains the missing constraints, then the translated filters, then a non-zero user limit; a raising filter leaves only the constraints added |

## Left out

- Parsing and serialising SPARQL, and the algebra translation, are left out: queries are values. So is the `{{name}}` replacement from the configuration.
- Common.Appendix: the UUID of each template instance is replaced by an instance counter, written `_` followed by its digits. A template variable whose name already ends in `_` and the digits of the instance is taken for renamed and is captured; the source's 32-digit hexadecimal UUID makes that practically impossible. Templates are not required to avoid such names.
- The algebra has no `minus`, `graph`, `service`, `reduced`, `values`, `construct`, `ask`, `describe`, `from` or `nop` node, so a query using VALUES, and any query other than SELECT, is not represented. The source's default case (src/substitutionHandler.js:197-206) would not walk a `minus`, whose inputs are a list (as for `Union`). It would treat `values` and `nop`, which have no input, as leaves. It would walk the single input of `graph`, `service`, `reduced`, `from` and of a CONSTRUCT, ASK or DESCRIBE root, as `WalkInput` does for `Project`, `Group`, `OrderBy`, `Extend`, `Slice` and `Distinct`.
- `variables` lists a bind's variable term, an object that `includes(name)` never finds. Its only callers, `federate` and `merge`, look names up, so the model gives them `Sparql.VariableNames` and keeps the full list as `Sparql.VariableEntries`.
- JavaScript object identity is not modelled: a renamer mutating a term shared by several positions, `includes` on object references, and the shared blank node object of `normalize`. Triples are compared by value.
- The `values` case of the renaming walk is left out.
- The walk does not enter union inputs, a left join's condition or function-call arguments. The model keeps these gaps (`Settled` names them).
- Substitution.DoSubstitute: recursion on a freshly inserted template is bounded by `fuel`. The source recurses without bound when a template mentions its own predicate.
- Federation.PathFrom and Federation.PathTo: the recursion is bounded by `fuel`. `None` stands for the unbounded recursion of a cyclic path.
- Queries.Query.Federate: `fx` and its asynchrony are a function parameter. The engine's sampling cap appears only as `fx` answering `None`.
- Queries.Query.Federate: when a `/` path split puts its blank node `bn_k` into an excluded triple and an offloaded one, the source turns that one shared term object into a variable while building the offload query. The probe query and the final `where` list then read `?bn_k` in the excluded triple too. The model keeps `_:bn_k` there, so an `fx` that answers the model's probe has no `bn_k` binding, and the filter on such a subject fails where the source's succeeds.
- Federation.PlanOf: the planned exclusions, from which the probe query is built, keep the blank nodes of excluded triples, for the same reason. The offloaded triples and the variable lists are as in the source.
- Merge.Translate: the mappings map stands for a JavaScript object with no inherited keys. In the source, a user variable named like an `Object.prototype` property (`constructor`, `toString`, `valueOf`) finds a function there and is renamed to it. The same holds for the mapping lookups while mining constraints (`Merge.Mapped`).
- `subqueries` is not a separate field. Nested queries are read from the `where` tree each time they are needed.
- Merge.GetTermType: WHATWG URL parsing is approximated. The approximation is a case-insensitive `http:`/`https:` scheme followed by a non-empty host after any slashes. Host syntax and surrounding whitespace are ignored.
- Substitution.Substitutable: the catalog map stands for a JavaScript object with no inherited keys. In the source `in` also finds `Object.prototype` properties, so a predicate IRI whose value is `constructor`, `toString` or `valueOf` counts as substitutable. In a basic graph pattern (src/substitutionHandler.js:227) the source then fails with "Exception during substitution of predicate"; as a path link (src/substitutionHandler.js:158) it fails with "Substitution of predicate … is not possible in path". The model leaves both unchanged. The same holds for `Rewrite`, `HandleBgp`, `FirstCatalogIndex`, `PathError` and `CheckPath`, which use it.
- Merge.MergeQuery: requires the user query's top-level triples to have plain predicates. The triples of a validated query have them.
- `Merge.FormatTriple` is kept only for the log line; console output is not modelled.
- Function calls in filters are modelled as operations named by their IRI. The source's filter translation loses the function IRI on output; that is a serialisation detail and is not modelled.
- Group patterns inside `EXISTS` are opaque. Their variables are neither inspected nor translated.
- Left out as outside the core: `computationHandler`, `engine`, `endpoint`, the REST and plugin layers, `web.js`, `spoofTriples`, `shorten`, `from`/`setFrom`/`removeFrom`, and logging.

## Findings

| source | as written | input that shows it | evidently intended | confidence | as-written member | corrected member |
|---|---|---|---|---|---|---|
| src/substitutionHandler.js:249-261 | any template root that has an `input` is dropped | a template `SELECT ... LIMIT 5` (slice over project), or `SELECT DISTINCT` | only an outer projection is dropped | high, not executed | Substitution.SliceDroppedAsWritten | Substitution.DropProjection |
| src/query.js:40-49 | `for (i in w.triples)` visits only the keys present before the splices | two consecutive `p1/p2` triples: the second stays a path, so validation refuses the query | every triple is visited, and the inserted second half of a split next, as the key after a split already does | high, not executed | Normalization.SecondSequenceSkippedAsWritten | Normalization.NormalizeTriples |
| src/predicate.js:225-233 | `\|\|` keeps whichever disjuncts translate, and survives with none left | `FILTER(?a > 1 \|\| ?b > 2)` with `?b` unknown becomes `?a > 1`, which excludes results the user asked for | an `\|\|` is kept only if all disjuncts translate | high, not executed | Merge.OrDisjunctDroppedAsWritten | Merge.FindExpressionSound |
| src/predicate.js:234-245 | only direct variable arguments are translated; nested operations are copied unchanged | `FILTER(?x + 1 > 3)` with `?x` unknown is kept with `?x` unbound in the template | every variable at any depth is translated, or the filter is dropped | medium, not executed | Merge.NestedVariableKeptAsWritten | Merge.FindExpressionSound |
| src/predicate.js:32-36 | constraint terms are rebuilt from their values with `getTermType` | the user triple `?x :name "Bob"` adds `?s :name ?Bob`, a variable instead of the literal | the constraint keeps the user's term | medium, not executed | Merge.LiteralBecomesVariableAsWritten | Merge.MergeQuery |
