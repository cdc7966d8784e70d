// The federation planner of src/query.js: which top-level triples depend
// on computed predicates, the CONSTRUCT query that offloads the others,
// and the probe query whose bindings restrict the computed subjects.
module Federation {
  import opened Common
  import opened Rdf
  import opened Sparql

  datatype FederationError =
    | PathTooDeep                     // the unbounded recursion of `pathFromTerm`
    | FilterTypeError                 // `whereFiltersContaining` raised
    | MissingBinding(variable: string) // `b.get(s)` was undefined

  // ---------------------------------------------------------------------
  // Paths through the triples.

  /**
   * `pathFromTerm`: every triple whose subject is `from`, each followed by
   * the path from its object when that object is not an IRI. The source
   * recurses without bound; `fuel` is the depth allowed, and `None` stands
   * for running out of it.
   */
  function PathFrom(from: Term, ts: seq<Triple>, fuel: nat): Option<seq<Triple>>
    decreases fuel, 1
  {
    PathFromScan(from, ts, 0, fuel)
  }

  function PathFromScan(from: Term, ts: seq<Triple>, i: nat, fuel: nat): Option<seq<Triple>>
    requires i <= |ts|
    decreases fuel, 0, |ts| - i
  {
    if i == |ts| then Some([])
    else
      var t := ts[i];
      if t.subject != from then PathFromScan(from, ts, i + 1, fuel)
      else if t.obj.NamedNode? then
        match PathFromScan(from, ts, i + 1, fuel)
        case None => None
        case Some(rest) => Some([t] + rest)
      else if fuel == 0 then None
      else
        match PathFrom(t.obj, ts, fuel - 1)
        case None => None
        case Some(sub) =>
          match PathFromScan(from, ts, i + 1, fuel)
          case None => None
          case Some(rest) => Some([t] + sub + rest)
  }

  /**
   * Every triple on a path is one of the triples searched and is reached
   * from `from` within the depth allowed, and every triple leaving `from`
   * is on it.
   */
  lemma {:induction false} PathFromSound(from: Term, ts: seq<Triple>, fuel: nat)
    ensures PathFrom(from, ts, fuel).Some? ==> forall t :: t in PathFrom(from, ts, fuel).value ==> t in ts
    ensures PathFrom(from, ts, fuel).Some? ==> forall t :: t in PathFrom(from, ts, fuel).value ==> ReachableFrom(from, ts, fuel, t)
    ensures PathFrom(from, ts, fuel).Some? ==> forall t :: t in ts && t.subject == from ==> t in PathFrom(from, ts, fuel).value
    decreases fuel, 1
  {
    PathFromScanSound(from, ts, 0, fuel);
    PathFromOnlyReachable(from, ts, fuel);
  }

  lemma {:induction false} PathFromScanSound(from: Term, ts: seq<Triple>, i: nat, fuel: nat)
    requires i <= |ts|
    ensures PathFromScan(from, ts, i, fuel).Some? ==> forall t :: t in PathFromScan(from, ts, i, fuel).value ==> t in ts
    ensures PathFromScan(from, ts, i, fuel).Some? ==>
      forall k :: i <= k < |ts| && ts[k].subject == from ==> ts[k] in PathFromScan(from, ts, i, fuel).value
    decreases fuel, 0, |ts| - i
  {
    if i < |ts| {
      PathFromScanSound(from, ts, i + 1, fuel);
      var t := ts[i];
      if t.subject == from && !t.obj.NamedNode? && fuel > 0 {
        PathFromSound(t.obj, ts, fuel - 1);
      }
    }
  }

  /** Every triple leaving the non-IRI object of a triple in `p` is in `p`. */
  predicate ClosedFrom(p: seq<Triple>, ts: seq<Triple>)
  {
    forall t, u :: t in p && !t.obj.NamedNode? && u in ts && u.subject == t.obj ==> u in p
  }

  /** A path from a term is closed: it follows every non-IRI object to all the triples leaving it. */
  lemma {:induction false} PathFromClosed(from: Term, ts: seq<Triple>, fuel: nat)
    ensures PathFrom(from, ts, fuel).Some? ==> ClosedFrom(PathFrom(from, ts, fuel).value, ts)
    decreases fuel, 1
  {
    PathFromScanClosed(from, ts, 0, fuel);
  }

  lemma {:induction false} PathFromScanClosed(from: Term, ts: seq<Triple>, i: nat, fuel: nat)
    requires i <= |ts|
    ensures PathFromScan(from, ts, i, fuel).Some? ==> ClosedFrom(PathFromScan(from, ts, i, fuel).value, ts)
    decreases fuel, 0, |ts| - i
  {
    if i < |ts| {
      PathFromScanClosed(from, ts, i + 1, fuel);
      var t := ts[i];
      if t.subject == from && !t.obj.NamedNode? && fuel > 0 {
        var sub := PathFrom(t.obj, ts, fuel - 1);
        var rest := PathFromScan(from, ts, i + 1, fuel);
        if sub.Some? && rest.Some? {
          PathFromSound(t.obj, ts, fuel - 1);
          PathFromClosed(t.obj, ts, fuel - 1);
          var r := [t] + sub.value + rest.value;
          assert forall x :: x in r <==> x == t || x in sub.value || x in rest.value;
        }
      }
    }
  }

  /**
   * `x` is reached from `from` within `d` steps: it leaves `from`, or it is
   * reached within `d - 1` steps from the non-IRI object of a triple
   * leaving `from`.
   */
  predicate ReachableFrom(from: Term, ts: seq<Triple>, d: nat, x: Triple)
    decreases d
  {
    x in ts
    && (x.subject == from
        || (d > 0 && exists u :: u in ts && u.subject == from && !u.obj.NamedNode? && ReachableFrom(u.obj, ts, d - 1, x)))
  }

  /** A path from a term holds only triples reached from it, within the depth allowed. */
  lemma {:induction false} PathFromOnlyReachable(from: Term, ts: seq<Triple>, fuel: nat)
    ensures PathFrom(from, ts, fuel).Some? ==> forall x :: x in PathFrom(from, ts, fuel).value ==> ReachableFrom(from, ts, fuel, x)
    decreases fuel, 1
  {
    PathFromScanOnlyReachable(from, ts, 0, fuel);
  }

  lemma {:induction false} PathFromScanOnlyReachable(from: Term, ts: seq<Triple>, i: nat, fuel: nat)
    requires i <= |ts|
    ensures PathFromScan(from, ts, i, fuel).Some? ==>
      forall x :: x in PathFromScan(from, ts, i, fuel).value ==> ReachableFrom(from, ts, fuel, x)
    decreases fuel, 0, |ts| - i
  {
    if i < |ts| {
      PathFromScanOnlyReachable(from, ts, i + 1, fuel);
      var t := ts[i];
      var rest := PathFromScan(from, ts, i + 1, fuel);
      if t.subject == from && rest.Some? {
        assert ReachableFrom(from, ts, fuel, t);
        if t.obj.NamedNode? {
          assert forall x :: x in [t] + rest.value <==> x == t || x in rest.value;
        } else if fuel > 0 {
          var sub := PathFrom(t.obj, ts, fuel - 1);
          if sub.Some? {
            PathFromOnlyReachable(t.obj, ts, fuel - 1);
            forall x | x in sub.value ensures ReachableFrom(from, ts, fuel, x) {
              assert ReachableFrom(t.obj, ts, fuel - 1, x);
            }
            assert forall x :: x in [t] + sub.value + rest.value <==> x == t || x in sub.value || x in rest.value;
          }
        }
      }
    }
  }

  /** More depth never changes a path that was found. */
  lemma {:induction false} PathFromMoreFuel(from: Term, ts: seq<Triple>, fuel: nat)
    ensures PathFrom(from, ts, fuel).Some? ==> PathFrom(from, ts, fuel + 1) == PathFrom(from, ts, fuel)
    decreases fuel, 1
  {
    PathFromScanMoreFuel(from, ts, 0, fuel);
  }

  lemma {:induction false} PathFromScanMoreFuel(from: Term, ts: seq<Triple>, i: nat, fuel: nat)
    requires i <= |ts|
    ensures PathFromScan(from, ts, i, fuel).Some? ==> PathFromScan(from, ts, i, fuel + 1) == PathFromScan(from, ts, i, fuel)
    decreases fuel, 0, |ts| - i
  {
    if i < |ts| {
      PathFromScanMoreFuel(from, ts, i + 1, fuel);
      var t := ts[i];
      if t.subject == from && !t.obj.NamedNode? && fuel > 0 {
        PathFromMoreFuel(t.obj, ts, fuel - 1);
      }
    }
  }

  /** On a triple leading from a variable back to itself no depth is enough: the source's recursion never ends. */
  lemma {:induction false} PathFromCycle(x: string, p: string, fuel: nat)
    ensures PathFrom(Variable(x), [Triple(Variable(x), PlainPred(NamedNode(p)), Variable(x))], fuel).None?
  {
    var ts := [Triple(Variable(x), PlainPred(NamedNode(p)), Variable(x))];
    if fuel > 0 {
      PathFromCycle(x, p, fuel - 1);
    }
    assert PathFrom(Variable(x), ts, fuel) == PathFromScan(Variable(x), ts, 0, fuel);
  }

  /**
   * `pathToTerm`: triples whose object has the value of `to` (the source
   * compares the object's term type with itself, so only the value counts),
   * each preceded by the path to its subject when that is not an IRI; the
   * path to a subject is put in front of everything collected so far.
   */
  function PathTo(to: Term, ts: seq<Triple>, fuel: nat): Option<seq<Triple>>
    decreases fuel, 1
  {
    PathToScan(to, ts, 0, [], fuel)
  }

  function PathToScan(to: Term, ts: seq<Triple>, i: nat, acc: seq<Triple>, fuel: nat): Option<seq<Triple>>
    requires i <= |ts|
    decreases fuel, 0, |ts| - i
  {
    if i == |ts| then Some(acc)
    else
      var t := ts[i];
      if t.obj.value != to.value then PathToScan(to, ts, i + 1, acc, fuel)
      else if t.subject.NamedNode? then PathToScan(to, ts, i + 1, acc + [t], fuel)
      else if fuel == 0 then None
      else
        match PathTo(t.subject, ts, fuel - 1)
        case None => None
        case Some(sub) => PathToScan(to, ts, i + 1, sub + (acc + [t]), fuel)
  }

  /**
   * Every triple on a path to a term is one of the triples searched and
   * leads to the term within the depth allowed, and the term type of the
   * target plays no part.
   */
  lemma {:induction false} PathToSound(to: Term, ts: seq<Triple>, fuel: nat)
    ensures PathTo(to, ts, fuel).Some? ==> forall t :: t in PathTo(to, ts, fuel).value ==> t in ts
    ensures PathTo(to, ts, fuel).Some? ==> forall t :: t in PathTo(to, ts, fuel).value ==> ReachableTo(to, ts, fuel, t)
    ensures forall to': Term :: to'.value == to.value ==> PathTo(to', ts, fuel) == PathTo(to, ts, fuel)
    decreases fuel, 1
  {
    PathToScanSound(to, ts, 0, [], fuel);
    PathToOnlyReachable(to, ts, fuel);
  }

  lemma {:induction false} PathToScanSound(to: Term, ts: seq<Triple>, i: nat, acc: seq<Triple>, fuel: nat)
    requires i <= |ts|
    requires forall t :: t in acc ==> t in ts
    ensures PathToScan(to, ts, i, acc, fuel).Some? ==> forall t :: t in PathToScan(to, ts, i, acc, fuel).value ==> t in ts
    ensures forall to': Term :: to'.value == to.value ==> PathToScan(to', ts, i, acc, fuel) == PathToScan(to, ts, i, acc, fuel)
    decreases fuel, 0, |ts| - i
  {
    if i < |ts| {
      var t := ts[i];
      PathToScanSound(to, ts, i + 1, acc, fuel);
      PathToScanSound(to, ts, i + 1, acc + [t], fuel);
      if t.obj.value == to.value && !t.subject.NamedNode? && fuel > 0 {
        PathToSound(t.subject, ts, fuel - 1);
        var sub := PathTo(t.subject, ts, fuel - 1);
        if sub.Some? {
          PathToScanSound(to, ts, i + 1, sub.value + (acc + [t]), fuel);
        }
      }
    }
  }

  /**
   * `x` leads to `to` within `d` steps: its object has the value of `to`,
   * or it leads within `d - 1` steps to the non-IRI subject of a triple
   * arriving at `to`.
   */
  predicate ReachableTo(to: Term, ts: seq<Triple>, d: nat, x: Triple)
    decreases d
  {
    x in ts
    && (x.obj.value == to.value
        || (d > 0 && exists u :: u in ts && u.obj.value == to.value && !u.subject.NamedNode? && ReachableTo(u.subject, ts, d - 1, x)))
  }

  /** A path to a term holds only triples leading to it, within the depth allowed. */
  lemma {:induction false} PathToOnlyReachable(to: Term, ts: seq<Triple>, fuel: nat)
    ensures PathTo(to, ts, fuel).Some? ==> forall x :: x in PathTo(to, ts, fuel).value ==> ReachableTo(to, ts, fuel, x)
    decreases fuel, 1
  {
    PathToScanOnlyReachable(to, ts, 0, [], fuel);
  }

  lemma {:induction false} PathToScanOnlyReachable(to: Term, ts: seq<Triple>, i: nat, acc: seq<Triple>, fuel: nat)
    requires i <= |ts|
    requires forall x :: x in acc ==> ReachableTo(to, ts, fuel, x)
    ensures PathToScan(to, ts, i, acc, fuel).Some? ==>
      forall x :: x in PathToScan(to, ts, i, acc, fuel).value ==> ReachableTo(to, ts, fuel, x)
    decreases fuel, 0, |ts| - i
  {
    if i < |ts| {
      var t := ts[i];
      if t.obj.value != to.value {
        PathToScanOnlyReachable(to, ts, i + 1, acc, fuel);
      } else {
        assert ReachableTo(to, ts, fuel, t);
        if t.subject.NamedNode? {
          assert forall x :: x in acc + [t] <==> x in acc || x == t;
          PathToScanOnlyReachable(to, ts, i + 1, acc + [t], fuel);
        } else if fuel > 0 {
          var sub := PathTo(t.subject, ts, fuel - 1);
          if sub.Some? {
            PathToOnlyReachable(t.subject, ts, fuel - 1);
            forall x | x in sub.value ensures ReachableTo(to, ts, fuel, x) {
              assert ReachableTo(t.subject, ts, fuel - 1, x);
            }
            var acc' := sub.value + (acc + [t]);
            assert forall x :: x in acc' <==> x in sub.value || x in acc || x == t;
            PathToScanOnlyReachable(to, ts, i + 1, acc', fuel);
          }
        }
      }
    }
  }

  /** Every triple arriving at the non-IRI subject of a triple in `p` is in `p` (values compared, as the source does). */
  predicate ClosedTo(p: seq<Triple>, ts: seq<Triple>)
  {
    forall t, u :: t in p && !t.subject.NamedNode? && u in ts && u.obj.value == t.subject.value ==> u in p
  }

  /**
   * A path to a term holds every triple arriving at it, and follows every
   * non-IRI subject back to all the triples arriving there.
   */
  lemma {:induction false} PathToComplete(to: Term, ts: seq<Triple>, fuel: nat)
    ensures PathTo(to, ts, fuel).Some? ==> forall u :: u in ts && u.obj.value == to.value ==> u in PathTo(to, ts, fuel).value
    ensures PathTo(to, ts, fuel).Some? ==> ClosedTo(PathTo(to, ts, fuel).value, ts)
    decreases fuel, 1
  {
    PathToScanComplete(to, ts, 0, [], fuel);
  }

  lemma {:induction false} PathToScanComplete(to: Term, ts: seq<Triple>, i: nat, acc: seq<Triple>, fuel: nat)
    requires i <= |ts|
    requires ClosedTo(acc, ts)
    ensures PathToScan(to, ts, i, acc, fuel).Some? ==> forall u :: u in acc ==> u in PathToScan(to, ts, i, acc, fuel).value
    ensures PathToScan(to, ts, i, acc, fuel).Some? ==>
      forall k :: i <= k < |ts| && ts[k].obj.value == to.value ==> ts[k] in PathToScan(to, ts, i, acc, fuel).value
    ensures PathToScan(to, ts, i, acc, fuel).Some? ==> ClosedTo(PathToScan(to, ts, i, acc, fuel).value, ts)
    decreases fuel, 0, |ts| - i
  {
    if i < |ts| {
      var t := ts[i];
      if t.obj.value != to.value {
        PathToScanComplete(to, ts, i + 1, acc, fuel);
      } else if t.subject.NamedNode? {
        assert forall x :: x in acc + [t] <==> x in acc || x == t;
        PathToScanComplete(to, ts, i + 1, acc + [t], fuel);
      } else if fuel > 0 {
        var sub := PathTo(t.subject, ts, fuel - 1);
        if sub.Some? {
          PathToComplete(t.subject, ts, fuel - 1);
          var acc' := sub.value + (acc + [t]);
          assert forall x :: x in acc' <==> x in sub.value || x in acc || x == t;
          PathToScanComplete(to, ts, i + 1, acc', fuel);
        }
      }
    }
  }

  // ---------------------------------------------------------------------
  // Exclusions.

  /** A triple whose predicate is one of the computed predicates. */
  predicate IsComputed(t: Triple, preds: seq<string>)
  {
    t.pred.PlainPred? && t.pred.term.value in preds
  }

  /**
   * The first loop of `federate` after one more triple: a computed triple is
   * excluded together with the path from its object (unless that object is
   * an IRI), and its subject is recorded unless it is an IRI.
   */
  function ExclusionStep(t: Triple, ex: seq<Triple>, subjects: seq<string>, preds: seq<string>, all: seq<Triple>, fuel: nat)
    : Result<(seq<Triple>, seq<string>), FederationError>
  {
    if !IsComputed(t, preds) then Ok((ex, subjects))
    else
      var path := if t.obj.NamedNode? then Some([]) else PathFrom(t.obj, all, fuel);
      match path
      case None => Err(PathTooDeep)
      case Some(p) => Ok((ex + [t] + p, if t.subject.NamedNode? then subjects else subjects + [t.subject.value]))
  }

  /** The excluded triples and the computed subjects, over a prefix of the triples. */
  function Exclusions(ts: seq<Triple>, preds: seq<string>, all: seq<Triple>, fuel: nat)
    : Result<(seq<Triple>, seq<string>), FederationError>
  {
    if ts == [] then Ok(([], []))
    else
      match Exclusions(ts[..|ts| - 1], preds, all, fuel)
      case Err(e) => Err(e)
      case Ok((ex, subjects)) => ExclusionStep(ts[|ts| - 1], ex, subjects, preds, all, fuel)
  }

  /**
   * Every computed triple is excluded, and so is every triple leaving the
   * non-IRI object of an excluded triple; everything excluded is one of the
   * triples searched; the subjects recorded are exactly the non-IRI
   * subjects of the computed triples.
   */
  lemma {:induction false} ExclusionsCover(ts: seq<Triple>, preds: seq<string>, all: seq<Triple>, fuel: nat)
    requires forall t :: t in ts ==> t in all
    ensures Exclusions(ts, preds, all, fuel).Ok? ==>
      var (ex, subjects) := Exclusions(ts, preds, all, fuel).value;
      && (forall t :: t in ts && IsComputed(t, preds) ==> t in ex)
      && ClosedFrom(ex, all)
      && (forall t :: t in ex ==> t in all)
      && (forall v :: v in subjects <==> exists t :: t in ts && IsComputed(t, preds) && !t.subject.NamedNode? && t.subject.value == v)
    ensures Exclusions(ts, preds, all, fuel).Ok? ==> ExcludedOnly(Exclusions(ts, preds, all, fuel).value.0, ts, preds, all, fuel)
  {
    ExclusionsOnly(ts, preds, all, fuel);
    if ts != [] {
      var init, last := ts[..|ts| - 1], ts[|ts| - 1];
      assert ts == init + [last];
      assert forall t :: t in ts <==> t in init || t == last;
      ExclusionsCover(init, preds, all, fuel);
      if IsComputed(last, preds) && !last.obj.NamedNode? {
        PathFromSound(last.obj, all, fuel);
        PathFromClosed(last.obj, all, fuel);
      }
      var r0 := Exclusions(init, preds, all, fuel);
      if r0.Ok? && Exclusions(ts, preds, all, fuel).Ok? {
        var (ex0, sj0) := r0.value;
        var (ex, sj) := Exclusions(ts, preds, all, fuel).value;
        assert Exclusions(ts, preds, all, fuel) == ExclusionStep(last, ex0, sj0, preds, all, fuel);
        if IsComputed(last, preds) {
          var p := if last.obj.NamedNode? then [] else PathFrom(last.obj, all, fuel).value;
          assert ex == ex0 + [last] + p;
          assert forall x :: x in ex <==> x in ex0 || x == last || x in p;
        }
        assert forall v :: v in sj <==> v in sj0 || (IsComputed(last, preds) && !last.subject.NamedNode? && v == last.subject.value);
      }
    }
  }

  /**
   * Nothing else is excluded: each excluded triple is a computed one, or lies
   * on the path from the non-IRI object of a computed one.
   */
  predicate ExcludedOnly(ex: seq<Triple>, ts: seq<Triple>, preds: seq<string>, all: seq<Triple>, fuel: nat)
  {
    forall x :: x in ex ==>
      (x in ts && IsComputed(x, preds))
      || exists c :: c in ts && IsComputed(c, preds) && !c.obj.NamedNode? && OnPathFrom(c.obj, all, fuel, x)
  }

  /** `x` is on the path from `from`, which was found within the depth allowed. */
  predicate OnPathFrom(from: Term, all: seq<Triple>, fuel: nat, x: Triple)
  {
    PathFrom(from, all, fuel).Some? && x in PathFrom(from, all, fuel).value
  }

  lemma {:induction false} ExclusionsOnly(ts: seq<Triple>, preds: seq<string>, all: seq<Triple>, fuel: nat)
    ensures Exclusions(ts, preds, all, fuel).Ok? ==> ExcludedOnly(Exclusions(ts, preds, all, fuel).value.0, ts, preds, all, fuel)
  {
    if ts != [] {
      var init, last := ts[..|ts| - 1], ts[|ts| - 1];
      assert ts == init + [last];
      assert forall t :: t in init ==> t in ts;
      assert last in ts;
      ExclusionsOnly(init, preds, all, fuel);
      var r0 := Exclusions(init, preds, all, fuel);
      if r0.Ok? && Exclusions(ts, preds, all, fuel).Ok? {
        var ex0 := r0.value.0;
        var ex := Exclusions(ts, preds, all, fuel).value.0;
        assert Exclusions(ts, preds, all, fuel) == ExclusionStep(last, ex0, r0.value.1, preds, all, fuel);
        if IsComputed(last, preds) {
          var p := if last.obj.NamedNode? then [] else PathFrom(last.obj, all, fuel).value;
          assert ex == ex0 + [last] + p;
          forall x | x in ex
            ensures (x in ts && IsComputed(x, preds))
              || exists c :: c in ts && IsComputed(c, preds) && !c.obj.NamedNode? && OnPathFrom(c.obj, all, fuel, x)
          {
            if x in ex0 {
            } else if x == last {
            } else {
              assert x in p && OnPathFrom(last.obj, all, fuel, x);
            }
          }
        } else {
          assert ex == ex0;
        }
      }
    }
  }

  /** An error comes only from a path that needs more depth than allowed. */
  lemma {:induction false} ExclusionsErrorIsDepth(ts: seq<Triple>, preds: seq<string>, all: seq<Triple>, fuel: nat)
    ensures Exclusions(ts, preds, all, fuel).Err? ==>
      Exclusions(ts, preds, all, fuel).error == PathTooDeep
      && exists t :: t in ts && IsComputed(t, preds) && !t.obj.NamedNode? && PathFrom(t.obj, all, fuel).None?
  {
    if ts != [] {
      var init, last := ts[..|ts| - 1], ts[|ts| - 1];
      assert forall t :: t in init ==> t in ts;
      assert last in ts;
      ExclusionsErrorIsDepth(init, preds, all, fuel);
    }
  }

  /** The same loop as a method accumulating `exclude` and `subjects`. */
  method CollectExclusions(ts: seq<Triple>, preds: seq<string>, fuel: nat)
    returns (r: Result<(seq<Triple>, seq<string>), FederationError>)
    ensures r == Exclusions(ts, preds, ts, fuel)
  {
    var exclude, subjects := [], [];
    var i := 0;
    while i < |ts|
      invariant 0 <= i <= |ts|
      invariant Exclusions(ts[..i], preds, ts, fuel) == Ok((exclude, subjects))
    {
      var t := ts[i];
      assert ts[..i + 1][..i] == ts[..i];
      if IsComputed(t, preds) {
        exclude := exclude + [t];
        if !t.obj.NamedNode? {
          var path := PathFrom(t.obj, ts, fuel);
          if path.None? {
            assert ExclusionStep(t, exclude[..|exclude| - 1], subjects, preds, ts, fuel) == Err(PathTooDeep);
            r := Err(PathTooDeep);
            assert Exclusions(ts[..i + 1], preds, ts, fuel) == Err(PathTooDeep);
            ExclusionsStayFailed(ts, i + 1, preds, fuel);
            return;
          }
          exclude := exclude + path.value;
        } else {
          assert exclude + [] == exclude;
        }
        if !t.subject.NamedNode? {
          subjects := subjects + [t.subject.value];
        }
      }
      i := i + 1;
    }
    assert ts[..i] == ts;
    r := Ok((exclude, subjects));
  }

  /** Once the loop has failed it stays failed. */
  lemma {:induction false} ExclusionsStayFailed(ts: seq<Triple>, i: nat, preds: seq<string>, fuel: nat)
    requires 0 < i <= |ts|
    requires Exclusions(ts[..i], preds, ts, fuel).Err?
    ensures Exclusions(ts, preds, ts, fuel).Err? && Exclusions(ts, preds, ts, fuel).error == PathTooDeep
    decreases |ts| - i
  {
    ExclusionsErrorIsDepth(ts[..i], preds, ts, fuel);
    if i == |ts| {
      assert ts[..i] == ts;
    } else {
      assert ts[..i + 1][..i] == ts[..i];
      ExclusionsStayFailed(ts, i + 1, preds, fuel);
    }
  }

  // ---------------------------------------------------------------------
  // The offload query.

  /** Blank nodes are not allowed in a CONSTRUCT's WHERE: they become variables of the same name. */
  function Unblank(x: Term): (r: Term)
    ensures !r.BlankNode? && r.value == x.value
    ensures !x.BlankNode? ==> r == x
  {
    if x.BlankNode? then Variable(x.value) else x
  }

  function UnblankTriple(t: Triple): Triple
  {
    Triple(Unblank(t.subject), t.pred, Unblank(t.obj))
  }

  function UnblankAll(ts: seq<Triple>): (r: seq<Triple>)
    ensures |r| == |ts| && forall k :: 0 <= k < |ts| ==> r[k] == UnblankTriple(ts[k])
  {
    seq(|ts|, k requires 0 <= k < |ts| => UnblankTriple(ts[k]))
  }

  /**
   * The user's `where` list after `createConstructQuery` rewrote the terms
   * of the offloaded triples in place: those triples have their blank
   * nodes turned into variables. An excluded triple keeps its blank nodes
   * here, because the model has values, not shared term objects; where the
   * blank node a path split introduced is shared with an offloaded triple,
   * the source turns it into a variable in the excluded triple as well.
   */
  function UnblankWhere(w: seq<GraphPattern>, exclude: seq<Triple>): seq<GraphPattern>
  {
    seq(|w|, k requires 0 <= k < |w| =>
      if w[k].BgpPattern? then
        BgpPattern(seq(|w[k].triples|, j requires 0 <= j < |w[k].triples| =>
          var t := w[k].triples[j]; if t in exclude then t else UnblankTriple(t)))
      else w[k])
  }

  /**
   * What the planner settles before it calls `fx`: the excluded triples,
   * the computed subjects, the offloaded triples (blank nodes turned into
   * variables), the filters copied into the offload query and those sent
   * with the probe query.
   */
  datatype Plan = Plan(
    exclude: seq<Triple>,
    subjects: seq<string>,
    offload: seq<Triple>,
    copied: seq<Expression>,
    probeFilters: seq<Expression>)

  function Filtered(s: seq<string>, ex: seq<string>): (r: seq<string>)
    ensures forall v :: v in r <==> v in s && v !in ex
  {
    if s == [] then []
    else
      assert forall v :: v in s <==> v == s[0] || v in s[1..] by {
        assert s == [s[0]] + s[1..];
      }
      (if s[0] in ex then [] else [s[0]]) + Filtered(s[1..], ex)
  }

  function PlanOf(w: seq<GraphPattern>, preds: seq<string>, fuel: nat): (r: Result<Plan, FederationError>)
    ensures r.Ok? ==> Exclusions(WhereTriples(w), preds, WhereTriples(w), fuel) == Ok((r.value.exclude, r.value.subjects))
    ensures r.Ok? ==> r.value.offload == UnblankAll(Without(WhereTriples(w), r.value.exclude))
    ensures Exclusions(WhereTriples(w), preds, WhereTriples(w), fuel).Err? ==> r.Err?
  {
    var ts := WhereTriples(w);
    match Exclusions(ts, preds, ts, fuel)
    case Err(e) => Err(e)
    case Ok((exclude, subjects)) =>
      var offload := UnblankAll(Without(ts, exclude));
      if offload == [] then Ok(Plan(exclude, subjects, [], [], []))
      else
        var cqvars := VariableNames([BgpPattern(offload)]);
        match FiltersContaining(WhereFilters(w), cqvars, ["&&"])
        case None => Err(FilterTypeError)
        case Some(copied) =>
          var evars := Filtered(VariableNames(UnblankWhere(w, exclude)), cqvars);
          match FiltersContaining(WhereFilters(w), evars, ["&&"])
          case None => Err(FilterTypeError)
          case Some(probeFilters) => Ok(Plan(exclude, subjects, offload, copied, probeFilters))
  }

  /** `createComputedSubjectFilterQuery`: a SELECT over the excluded triples and the probe filters. */
  function ProbeQuery(exclude: seq<Triple>, filters: seq<Expression>): QueryData
  {
    QueryData(Select, AddTriples([], exclude) + AsFilterPatterns(filters), [], None, map[])
  }

  /** `{ termType: 'NamedNode', value: b.get(s).id }` for every binding. */
  function InValues(s: string, bindings: seq<map<string, string>>): (r: Result<seq<Term>, FederationError>)
    ensures r.Ok? <==> forall b :: b in bindings ==> s in b
    ensures r.Ok? ==> |r.value| == |bindings| && forall k :: 0 <= k < |bindings| ==> r.value[k] == NamedNode(bindings[k][s])
  {
    if bindings == [] then Ok([])
    else if s !in bindings[0] then Err(MissingBinding(s))
    else
      assert forall b :: b in bindings <==> b == bindings[0] || b in bindings[1..] by {
        assert bindings == [bindings[0]] + bindings[1..];
      }
      match InValues(s, bindings[1..])
      case Err(e) => Err(e)
      case Ok(rest) => Ok([NamedNode(bindings[0][s])] + rest)
  }

  /** The filter restricting one computed subject to the values found for it. */
  function InFilter(s: string, values: seq<Term>): Expression
  {
    Operation("in", [TermArg(Variable(s)), TermList(values)])
  }

  /** One `in` filter per computed subject, in order. */
  function SubjectFilters(subjects: seq<string>, bindings: seq<map<string, string>>): (r: Result<seq<Expression>, FederationError>)
    ensures r.Ok? ==> |r.value| == |subjects|
    ensures r.Ok? ==> forall k :: 0 <= k < |subjects| ==> InValues(subjects[k], bindings).Ok? && r.value[k] == InFilter(subjects[k], InValues(subjects[k], bindings).value)
    ensures r.Ok? <==> forall k :: 0 <= k < |subjects| ==> InValues(subjects[k], bindings).Ok?
  {
    if subjects == [] then Ok([])
    else
      assert forall k :: 1 <= k < |subjects| ==> subjects[k] == subjects[1..][k - 1];
      match InValues(subjects[0], bindings)
      case Err(e) => Err(e)
      case Ok(vs) =>
        match SubjectFilters(subjects[1..], bindings)
        case Err(e) => Err(e)
        case Ok(rest) => Ok([InFilter(subjects[0], vs)] + rest)
  }

  /**
   * `federate`: `None` when nothing is left to offload, otherwise the
   * CONSTRUCT query over the offloaded triples with the copied filters,
   * followed by the subject filters when `fx` answered the probe query.
   * `fx` may answer `None` (the engine's 10 000-row sampling cap).
   */
  function Federated(w: seq<GraphPattern>, prefixes: map<string, string>, preds: seq<string>,
                     fx: QueryData -> Option<seq<map<string, string>>>, fuel: nat)
    : Result<Option<QueryData>, FederationError>
  {
    match PlanOf(w, preds, fuel)
    case Err(e) => Err(e)
    case Ok(p) => FromPlan(p, prefixes, fx)
  }

  function FromPlan(p: Plan, prefixes: map<string, string>, fx: QueryData -> Option<seq<map<string, string>>>)
    : Result<Option<QueryData>, FederationError>
  {
    if p.offload == [] then Ok(None)
    else
      var base := AddTriples([], p.offload) + AsFilterPatterns(p.copied);
      match fx(ProbeQuery(p.exclude, p.probeFilters))
      case None => Ok(Some(QueryData(Construct, base, p.offload, None, prefixes)))
      case Some(bindings) =>
        match SubjectFilters(p.subjects, bindings)
        case Err(e) => Err(e)
        case Ok(fs) => Ok(Some(QueryData(Construct, base + AsFilterPatterns(fs), p.offload, None, prefixes)))
  }

  /** The user's `where` list after `federate`: rewritten once the offloaded triples are known. */
  function FederatedWhere(w: seq<GraphPattern>, preds: seq<string>, fuel: nat): seq<GraphPattern>
  {
    var ts := WhereTriples(w);
    match Exclusions(ts, preds, ts, fuel)
    case Err(_) => w
    case Ok((exclude, _)) => if Without(ts, exclude) == [] then w else UnblankWhere(w, exclude)
  }

  /** There is nothing to offload exactly when every top-level triple is excluded. */
  lemma FederatedNoneIff(w: seq<GraphPattern>, prefixes: map<string, string>, preds: seq<string>,
                         fx: QueryData -> Option<seq<map<string, string>>>, fuel: nat)
    requires PlanOf(w, preds, fuel).Ok?
    ensures Federated(w, prefixes, preds, fx, fuel) == Ok(None) <==>
      forall t :: t in WhereTriples(w) ==> t in PlanOf(w, preds, fuel).value.exclude
  {
    var p := PlanOf(w, preds, fuel).value;
    var kept := Without(WhereTriples(w), p.exclude);
    assert Federated(w, prefixes, preds, fx, fuel) == FromPlan(p, prefixes, fx);
    assert FromPlan(p, prefixes, fx) == Ok(None) <==> p.offload == [];
    assert p.offload == [] <==> kept == [];
    if kept != [] {
      assert kept[0] in kept;
    }
  }

  /**
   * The offload query's template holds exactly the top-level triples that
   * are not excluded, blank nodes made variables, and none that uses a
   * computed predicate; its `where` starts with one basic graph pattern of
   * the same triples.
   */
  lemma FederatedOffload(w: seq<GraphPattern>, prefixes: map<string, string>, preds: seq<string>,
                         fx: QueryData -> Option<seq<map<string, string>>>, fuel: nat, p: Plan)
    requires PlanOf(w, preds, fuel) == Ok(p)
    requires Federated(w, prefixes, preds, fx, fuel).Ok? && Federated(w, prefixes, preds, fx, fuel).value.Some?
    ensures var cq := Federated(w, prefixes, preds, fx, fuel).value.value;
      && cq.queryType == Construct && cq.where[0] == BgpPattern(cq.template)
      && (forall t :: t in WhereTriples(w) ==> t in p.exclude || UnblankTriple(t) in cq.template)
      && (forall u :: u in cq.template ==> exists t :: t in WhereTriples(w) && t !in p.exclude && u == UnblankTriple(t))
      && (forall u :: u in cq.template ==> !u.subject.BlankNode? && !u.obj.BlankNode? && !IsComputed(u, preds))
  {
    FederatedFromPlan(w, prefixes, preds, fx, fuel);
    OffloadShape(p, prefixes, fx);
    PlanOffload(w, preds, fuel, p);
  }

  /** The plan's offloaded triples are the non-excluded ones, blank nodes made variables. */
  lemma PlanOffload(w: seq<GraphPattern>, preds: seq<string>, fuel: nat, p: Plan)
    requires PlanOf(w, preds, fuel) == Ok(p)
    ensures forall t :: t in WhereTriples(w) ==> t in p.exclude || UnblankTriple(t) in p.offload
    ensures forall u :: u in p.offload ==> exists t :: t in WhereTriples(w) && t !in p.exclude && u == UnblankTriple(t)
    ensures forall u :: u in p.offload ==> !u.subject.BlankNode? && !u.obj.BlankNode? && !IsComputed(u, preds)
  {
    var ts := WhereTriples(w);
    ExclusionsCover(ts, preds, ts, fuel);
    UnblankedWithout(ts, p.exclude, preds);
  }

  /** Unblanking the triples not in `ex` keeps one image per kept triple and none that `ex` must hold. */
  lemma UnblankedWithout(ts: seq<Triple>, ex: seq<Triple>, preds: seq<string>)
    requires forall t :: t in ts && IsComputed(t, preds) ==> t in ex
    ensures var off := UnblankAll(Without(ts, ex));
      && (forall t :: t in ts ==> t in ex || UnblankTriple(t) in off)
      && (forall u :: u in off ==> exists t :: t in ts && t !in ex && u == UnblankTriple(t))
      && (forall u :: u in off ==> !u.subject.BlankNode? && !u.obj.BlankNode? && !IsComputed(u, preds))
  {
    var kept := Without(ts, ex);
    var off := UnblankAll(kept);
    forall t | t in ts && t !in ex ensures UnblankTriple(t) in off {
      var k :| 0 <= k < |kept| && kept[k] == t;
      assert off[k] == UnblankTriple(t);
    }
    forall u | u in off ensures exists t :: t in ts && t !in ex && u == UnblankTriple(t) {
      var k :| 0 <= k < |off| && off[k] == u;
      assert kept[k] in kept;
    }
  }

  lemma OffloadShape(p: Plan, prefixes: map<string, string>, fx: QueryData -> Option<seq<map<string, string>>>)
    requires FromPlan(p, prefixes, fx).Ok? && FromPlan(p, prefixes, fx).value.Some?
    ensures var cq := FromPlan(p, prefixes, fx).value.value;
      cq.queryType == Construct && cq.template == p.offload && cq.where[0] == BgpPattern(p.offload)
  {
    assert AddTriples([], p.offload) == [BgpPattern(p.offload)];
  }

  /**
   * One `in` filter per computed subject is added, after the copied
   * filters, exactly when `fx` answers the probe query; otherwise the
   * offload query carries the copied filters only.
   */
  lemma FederatedSubjectFilters(w: seq<GraphPattern>, prefixes: map<string, string>, preds: seq<string>,
                                fx: QueryData -> Option<seq<map<string, string>>>, fuel: nat, p: Plan)
    requires PlanOf(w, preds, fuel) == Ok(p)
    requires Federated(w, prefixes, preds, fx, fuel).Ok? && Federated(w, prefixes, preds, fx, fuel).value.Some?
    ensures var cq := Federated(w, prefixes, preds, fx, fuel).value.value;
            var answer := fx(ProbeQuery(p.exclude, p.probeFilters));
      && (answer.None? ==> |cq.where| == 1 + |p.copied|)
      && (answer.Some? ==> |cq.where| == 1 + |p.copied| + |p.subjects|)
      && (answer.Some? ==> forall k :: 0 <= k < |p.subjects| ==>
            cq.where[1 + |p.copied| + k] == FilterPattern(InFilter(p.subjects[k], InValues(p.subjects[k], answer.value).value)))
  {
    FederatedFromPlan(w, prefixes, preds, fx, fuel);
    SubjectFiltersPlaced(p, prefixes, fx);
  }

  lemma FederatedFromPlan(w: seq<GraphPattern>, prefixes: map<string, string>, preds: seq<string>,
                          fx: QueryData -> Option<seq<map<string, string>>>, fuel: nat)
    ensures PlanOf(w, preds, fuel).Err? ==> Federated(w, prefixes, preds, fx, fuel) == Err(PlanOf(w, preds, fuel).error)
    ensures PlanOf(w, preds, fuel).Ok? ==> Federated(w, prefixes, preds, fx, fuel) == FromPlan(PlanOf(w, preds, fuel).value, prefixes, fx)
  {
  }

  lemma SubjectFiltersPlaced(p: Plan, prefixes: map<string, string>, fx: QueryData -> Option<seq<map<string, string>>>)
    requires FromPlan(p, prefixes, fx).Ok? && FromPlan(p, prefixes, fx).value.Some?
    ensures var cq := FromPlan(p, prefixes, fx).value.value;
            var answer := fx(ProbeQuery(p.exclude, p.probeFilters));
      && (answer.None? ==> |cq.where| == 1 + |p.copied|)
      && (answer.Some? ==> |cq.where| == 1 + |p.copied| + |p.subjects|)
      && (answer.Some? ==> forall k :: 0 <= k < |p.subjects| ==>
            cq.where[1 + |p.copied| + k] == FilterPattern(InFilter(p.subjects[k], InValues(p.subjects[k], answer.value).value)))
  {
    var base := AddTriples([], p.offload) + AsFilterPatterns(p.copied);
    assert AddTriples([], p.offload) == [BgpPattern(p.offload)];
    var cq := FromPlan(p, prefixes, fx).value.value;
    var answer := fx(ProbeQuery(p.exclude, p.probeFilters));
    if answer.Some? {
      var fs := SubjectFilters(p.subjects, answer.value).value;
      assert cq.where == base + AsFilterPatterns(fs);
      forall k | 0 <= k < |p.subjects|
        ensures cq.where[1 + |p.copied| + k] == FilterPattern(InFilter(p.subjects[k], InValues(p.subjects[k], answer.value).value))
      {
        assert cq.where[|base| + k] == AsFilterPatterns(fs)[k];
      }
    } else {
      assert cq.where == base;
    }
  }
}
