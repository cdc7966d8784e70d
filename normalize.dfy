// Rewriting the two simple property-path shapes into plain triples
// (src/query.js `normalize`).
module Normalization {
  import opened Common
  import opened Rdf
  import opened Sparql

  /** `^p`: an inverse path of a single item. */
  predicate IsInverse(p: Pred)
  {
    p.PathPred? && p.pathType == "^" && |p.items| == 1
  }

  /** `p1/p2`: a sequence path of exactly two items. */
  predicate IsSequence(p: Pred)
  {
    p.PathPred? && p.pathType == "/" && |p.items| == 2
  }

  /** The blank node joining the two halves of the `n`-th split of a query. */
  function Joint(n: nat): Term
  {
    BlankNode("bn_" + Digits(n))
  }

  /**
   * A list rewritten from its first triple on, with the next free joint
   * number: `s ^p o` becomes `o p s`; `s p1/p2 o` becomes `s p1 bn`, and
   * the inserted `bn p2 o` is examined next, as the key after a split
   * holds it; any other triple is kept.
   */
  function NormTriples(ts: seq<Triple>, id: nat): (seq<Triple>, nat)
    decreases |ts|, 0
  {
    if ts == [] then ([], id) else NormHead(ts[0], ts[1..], id)
  }

  /** The list `[t] + rest` rewritten; splits of `t` are followed through its second halves. */
  function NormHead(t: Triple, rest: seq<Triple>, id: nat): (seq<Triple>, nat)
    decreases |rest|, 1, t.pred
  {
    if IsInverse(t.pred) then
      var (r, k) := NormTriples(rest, id);
      ([Triple(t.obj, t.pred.items[0], t.subject)] + r, k)
    else if IsSequence(t.pred) then
      var (r, k) := NormHead(Triple(Joint(id), t.pred.items[1], t.obj), rest, id + 1);
      ([Triple(t.subject, t.pred.items[0], Joint(id))] + r, k)
    else
      var (r, k) := NormTriples(rest, id);
      ([t] + r, k)
  }

  /** The counter moves by one per split and the list grows by one per split. */
  lemma {:induction false} NormTriplesCount(ts: seq<Triple>, id: nat)
    ensures NormTriples(ts, id).1 >= id
    ensures |NormTriples(ts, id).0| == |ts| + (NormTriples(ts, id).1 - id)
    decreases |ts|, 0
  {
    if ts != [] {
      NormHeadCount(ts[0], ts[1..], id);
    }
  }

  lemma {:induction false} NormHeadCount(t: Triple, rest: seq<Triple>, id: nat)
    ensures NormHead(t, rest, id).1 >= id
    ensures |NormHead(t, rest, id).0| == 1 + |rest| + (NormHead(t, rest, id).1 - id)
    decreases |rest|, 1, t.pred
  {
    if IsSequence(t.pred) {
      NormHeadCount(Triple(Joint(id), t.pred.items[1], t.obj), rest, id + 1);
    } else {
      NormTriplesCount(rest, id);
    }
  }

  /** Different split numbers give different joints. */
  lemma JointInjective(m: nat, n: nat)
    ensures Joint(m) == Joint(n) ==> m == n
  {
    if Joint(m) == Joint(n) {
      assert Digits(m) == Joint(m).value[3..] && Digits(n) == Joint(n).value[3..];
      DigitsInjective(m, n);
    }
  }

  /**
   * The joints of one list are pairwise distinct, one per number from `id`
   * up to the counter returned, and each is the object of a first half in
   * the rewritten list.
   */
  lemma {:induction false} NormTriplesJoints(ts: seq<Triple>, id: nat)
    ensures forall j, j' :: id <= j < j' < NormTriples(ts, id).1 ==> Joint(j) != Joint(j')
    ensures forall j :: id <= j < NormTriples(ts, id).1 ==> exists u :: u in NormTriples(ts, id).0 && u.obj == Joint(j)
  {
    NormTriplesJointsPlaced(ts, id);
    var k := NormTriples(ts, id).1;
    forall j, j' | id <= j < j' < k ensures Joint(j) != Joint(j') {
      JointInjective(j, j');
    }
  }

  lemma {:induction false} NormTriplesJointsPlaced(ts: seq<Triple>, id: nat)
    ensures forall j :: id <= j < NormTriples(ts, id).1 ==> exists u :: u in NormTriples(ts, id).0 && u.obj == Joint(j)
    decreases |ts|, 0
  {
    if ts != [] {
      assert NormTriples(ts, id) == NormHead(ts[0], ts[1..], id);
      NormHeadJointsPlaced(ts[0], ts[1..], id);
    } else {
      assert NormTriples(ts, id).1 == id;
    }
  }

  lemma {:induction false} NormHeadJointsPlaced(t: Triple, rest: seq<Triple>, id: nat)
    ensures forall j :: id <= j < NormHead(t, rest, id).1 ==> exists u :: u in NormHead(t, rest, id).0 && u.obj == Joint(j)
    decreases |rest|, 1, t.pred
  {
    if IsInverse(t.pred) {
      NormTriplesJointsPlaced(rest, id);
      var (r, k) := NormTriples(rest, id);
      assert forall u :: u in r ==> u in [Triple(t.obj, t.pred.items[0], t.subject)] + r;
    } else if IsSequence(t.pred) {
      var second := Triple(Joint(id), t.pred.items[1], t.obj);
      NormHeadJointsPlaced(second, rest, id + 1);
      var (r, k) := NormHead(second, rest, id + 1);
      var first := Triple(t.subject, t.pred.items[0], Joint(id));
      assert NormHead(t, rest, id) == ([first] + r, k);
      assert forall u :: u in r ==> u in [first] + r;
      assert first in [first] + r;
    } else {
      NormTriplesJointsPlaced(rest, id);
      var (r, k) := NormTriples(rest, id);
      assert forall u :: u in r ==> u in [t] + r;
    }
  }

  /** A list without paths is left exactly as it was. */
  lemma {:induction false} NormTriplesIdentity(ts: seq<Triple>, id: nat)
    requires forall t :: t in ts ==> t.pred.PlainPred?
    ensures NormTriples(ts, id) == (ts, id)
    decreases |ts|
  {
    if ts != [] {
      assert forall t :: t in ts[1..] ==> t in ts;
      assert ts[0] in ts;
      NormTriplesIdentity(ts[1..], id);
      assert ts == [ts[0]] + ts[1..];
    }
  }

  /**
   * A predicate the rewriting turns into plain ones: a plain predicate,
   * `^p` over a plain `p`, or `p1/q` over a plain `p1` with `q` again such
   * a predicate.
   */
  predicate Reducible(p: Pred)
    decreases p
  {
    p.PlainPred?
    || (IsInverse(p) && p.items[0].PlainPred?)
    || (IsSequence(p) && p.items[0].PlainPred? && Reducible(p.items[1]))
  }

  /** No path is left exactly when every predicate of the list is reducible. */
  lemma {:induction false} NormTriplesRemovesPaths(ts: seq<Triple>, id: nat)
    ensures (forall t :: t in NormTriples(ts, id).0 ==> t.pred.PlainPred?) <==> (forall t :: t in ts ==> Reducible(t.pred))
    decreases |ts|, 0
  {
    if ts != [] {
      NormHeadRemovesPaths(ts[0], ts[1..], id);
      assert forall t :: t in ts <==> t == ts[0] || t in ts[1..] by {
        assert ts == [ts[0]] + ts[1..];
      }
    }
  }

  lemma {:induction false} NormHeadRemovesPaths(t: Triple, rest: seq<Triple>, id: nat)
    ensures (forall u :: u in NormHead(t, rest, id).0 ==> u.pred.PlainPred?) <==>
      Reducible(t.pred) && forall u :: u in rest ==> Reducible(u.pred)
    decreases |rest|, 1, t.pred
  {
    var (r, k) := NormHead(t, rest, id);
    if IsInverse(t.pred) {
      NormTriplesRemovesPaths(rest, id);
      var h := Triple(t.obj, t.pred.items[0], t.subject);
      assert r == [h] + NormTriples(rest, id).0;
      assert forall u :: u in r <==> u == h || u in NormTriples(rest, id).0;
    } else if IsSequence(t.pred) {
      var t2 := Triple(Joint(id), t.pred.items[1], t.obj);
      NormHeadRemovesPaths(t2, rest, id + 1);
      var h := Triple(t.subject, t.pred.items[0], Joint(id));
      assert r == [h] + NormHead(t2, rest, id + 1).0;
      assert forall u :: u in r <==> u == h || u in NormHead(t2, rest, id + 1).0;
    } else {
      NormTriplesRemovesPaths(rest, id);
      assert r == [t] + NormTriples(rest, id).0;
      assert forall u :: u in r <==> u == t || u in NormTriples(rest, id).0;
    }
  }

  /** `(pre, result)` joined: what is done so far followed by what the rest becomes. */
  function After(pre: seq<Triple>, r: (seq<Triple>, nat)): (seq<Triple>, nat)
  {
    (pre + r.0, r.1)
  }

  /**
   * The loop of `normalize` over one triple list, rewriting in place: an
   * inverse is replaced at its index; a sequence is replaced by its first
   * half with the second half inserted right after it, and the loop goes on
   * at the inserted half.
   */
  method NormalizeTriples(ts: seq<Triple>, id: nat) returns (out: seq<Triple>, next: nat)
    ensures (out, next) == NormTriples(ts, id)
  {
    out, next := ts, id;
    var i, j := 0, 0;
    assert ts[0..] == ts && out[..0] + NormTriples(ts, id).0 == NormTriples(ts, id).0;
    while j < |ts|
      invariant 0 <= j <= |ts| && 0 <= i <= |out|
      invariant out[i..] == ts[j..]
      invariant After(out[..i], NormTriples(ts[j..], next)) == NormTriples(ts, id)
    {
      assert out[i] == out[i..][0] == ts[j];
      assert ts[j..][0] == ts[j] && ts[j..][1..] == ts[j + 1..];
      assert out[i + 1..] == ts[j + 1..] by {
        assert out[i + 1..] == out[i..][1..];
      }
      out, i, next := NormalizeAt(out, i, ts[j + 1..], next);
      j := j + 1;
    }
    assert ts[j..] == [] && out[i..] == [];
    assert NormTriples(ts[j..], next) == ([], next);
    assert out[..i] + [] == out[..i] == out;
  }

  /**
   * The loop body at index `i`, followed through the inserted halves: on
   * return everything before the new index is rewritten and the rest is
   * untouched.
   */
  method NormalizeAt(out: seq<Triple>, i: nat, rest: seq<Triple>, next: nat) returns (out': seq<Triple>, i': nat, next': nat)
    requires i < |out| && out[i + 1..] == rest
    ensures i' <= |out'| && out'[i'..] == rest
    ensures After(out'[..i'], NormTriples(rest, next')) == After(out[..i], NormHead(out[i], rest, next))
  {
    out', i', next' := out, i, next;
    var cur := out[i];
    while IsSequence(cur.pred)
      invariant i' < |out'| && out'[i'] == cur && out'[i' + 1..] == rest
      invariant After(out'[..i'], NormHead(cur, rest, next')) == After(out[..i], NormHead(out[i], rest, next))
      decreases cur.pred
    {
      var bn := Joint(next');
      var second := Triple(bn, cur.pred.items[1], cur.obj);
      var first := Triple(cur.subject, cur.pred.items[0], bn);
      var pre := out'[..i'];
      assert !IsInverse(cur.pred) by {
        assert cur.pred.pathType == "/";
      }
      var r := NormHead(second, rest, next' + 1);
      assert NormHead(cur, rest, next') == ([first] + r.0, r.1);
      assert (pre + [first]) + r.0 == pre + ([first] + r.0);
      out' := pre + [first, second] + out'[i' + 1..];
      assert out'[..i' + 1] == pre + [first];
      assert out'[i' + 2..] == rest;
      next' := next' + 1;
      i' := i' + 1;
      cur := second;
    }
    var pre := out'[..i'];
    var r := NormTriples(rest, next');
    if IsInverse(cur.pred) {
      var h := Triple(cur.obj, cur.pred.items[0], cur.subject);
      assert NormHead(cur, rest, next') == ([h] + r.0, r.1);
      out' := out'[i' := h];
      assert out'[..i' + 1] == pre + [h];
    } else {
      assert NormHead(cur, rest, next') == ([cur] + r.0, r.1);
      assert out'[..i' + 1] == pre + [cur];
    }
    assert (pre + [out'[i']]) + r.0 == pre + ([out'[i']] + r.0);
    assert out'[i' + 1..] == rest;
    i' := i' + 1;
  }

  /**
   * The same loop as the source writes it: `for (i in w.triples)` visits the
   * keys the list had when the loop began, `0 .. n-1`, while the splice
   * shifts the list. After a split the key `k + 1` holds the inserted second
   * half, and the last triples of the original list are never visited.
   */
  function NormalizeAsWritten(arr: seq<Triple>, k: nat, n: nat, id: nat): (seq<Triple>, nat)
    requires n <= |arr|
    decreases n - k
  {
    if k >= n then (arr, id)
    else
      var t := arr[k];
      if IsInverse(t.pred) then
        NormalizeAsWritten(arr[k := Triple(t.obj, t.pred.items[0], t.subject)], k + 1, n, id)
      else if IsSequence(t.pred) then
        NormalizeAsWritten(arr[..k] + [Triple(t.subject, t.pred.items[0], Joint(id)), Triple(Joint(id), t.pred.items[1], t.obj)] + arr[k + 1..],
                           k + 1, n, id + 1)
      else NormalizeAsWritten(arr, k + 1, n, id)
  }

  /**
   * Two sequence paths in a row: as written the second is never visited and
   * stays a path (so the query is then refused), while the intended loop
   * splits both.
   */
  lemma SecondSequenceSkippedAsWritten()
    ensures var p := PathPred("/", [PlainPred(NamedNode("a")), PlainPred(NamedNode("b"))]);
            var ts := [Triple(Variable("x"), p, Variable("y")), Triple(Variable("y"), p, Variable("z"))];
            && ts[1] in NormalizeAsWritten(ts, 0, 2, 0).0 && ts[1].pred.PathPred?
            && forall t :: t in NormTriples(ts, 0).0 ==> t.pred.PlainPred?
  {
    var p := PathPred("/", [PlainPred(NamedNode("a")), PlainPred(NamedNode("b"))]);
    var ts := [Triple(Variable("x"), p, Variable("y")), Triple(Variable("y"), p, Variable("z"))];
    var a1 := Triple(Variable("x"), PlainPred(NamedNode("a")), Joint(0));
    var a2 := Triple(Joint(0), PlainPred(NamedNode("b")), Variable("y"));
    assert ts[..0] + [a1, a2] + ts[1..] == [a1, a2, ts[1]];
    assert NormalizeAsWritten(ts, 0, 2, 0) == NormalizeAsWritten([a1, a2, ts[1]], 1, 2, 1);
    assert NormalizeAsWritten([a1, a2, ts[1]], 1, 2, 1) == ([a1, a2, ts[1]], 1);
    NormTriplesRemovesPaths(ts, 0);
  }

  /**
   * `p1/^p2` followed by another triple: the inserted half `bn ^p2 o` sits
   * at the next key and is inverted, both as written and in `NormTriples`.
   */
  lemma InsertedHalfExamined()
    ensures var inv := PathPred("^", [PlainPred(NamedNode("p2"))]);
            var ts := [Triple(Variable("s"), PathPred("/", [PlainPred(NamedNode("p1")), inv]), Variable("o")),
                       Triple(Variable("s"), PlainPred(NamedNode("q")), Variable("x"))];
            var r := [Triple(Variable("s"), PlainPred(NamedNode("p1")), Joint(0)),
                      Triple(Variable("o"), PlainPred(NamedNode("p2")), Joint(0)),
                      ts[1]];
            && NormTriples(ts, 0) == (r, 1)
            && NormalizeAsWritten(ts, 0, 2, 0) == (r, 1)
  {
    var inv := PathPred("^", [PlainPred(NamedNode("p2"))]);
    var t0 := Triple(Variable("s"), PathPred("/", [PlainPred(NamedNode("p1")), inv]), Variable("o"));
    var t1 := Triple(Variable("s"), PlainPred(NamedNode("q")), Variable("x"));
    var ts := [t0, t1];
    var a1 := Triple(Variable("s"), PlainPred(NamedNode("p1")), Joint(0));
    var a2 := Triple(Joint(0), inv, Variable("o"));
    var b2 := Triple(Variable("o"), PlainPred(NamedNode("p2")), Joint(0));
    assert ts[..0] + [a1, a2] + ts[1..] == [a1, a2, t1];
    assert NormalizeAsWritten(ts, 0, 2, 0) == NormalizeAsWritten([a1, a2, t1], 1, 2, 1);
    assert [a1, a2, t1][1 := b2] == [a1, b2, t1];
    assert NormalizeAsWritten([a1, a2, t1], 1, 2, 1) == NormalizeAsWritten([a1, b2, t1], 2, 2, 1);
    assert ts[1..] == [t1] && [t1][1..] == [];
    assert !IsInverse(t1.pred) && !IsSequence(t1.pred);
    assert NormTriples([], 1) == ([], 1);
    assert [t1] + [] == [t1];
    assert NormHead(t1, [], 1) == ([t1], 1);
    assert NormTriples([t1], 1) == ([t1], 1);
    assert IsInverse(inv) && inv.items[0] == PlainPred(NamedNode("p2"));
    assert [b2] + [t1] == [b2, t1] && [a1] + [b2, t1] == [a1, b2, t1];
    assert NormHead(a2, [t1], 1) == ([b2, t1], 1);
    assert !IsInverse(t0.pred) by {
      assert t0.pred.pathType[0] == '/';
    }
    assert IsSequence(t0.pred);
    assert NormHead(t0, [t1], 0) == ([a1] + NormHead(a2, [t1], 1).0, 1);
  }

  // ---------------------------------------------------------------------
  // Whole queries.

  /**
   * `normalize` over a query's `where` list: its top-level basic graph
   * patterns share one counter from 0, and every nested SELECT (directly,
   * or as a union branch) is normalised the same way with its own counter.
   */
  function NormalizeWhere(w: seq<GraphPattern>): seq<GraphPattern>
    decreases w, 1
  {
    NormalizeFrom(w, 0, 0)
  }

  function NormalizeFrom(w: seq<GraphPattern>, i: nat, id: nat): seq<GraphPattern>
    requires i <= |w|
    decreases w, 0, |w| - i
  {
    if i == |w| then []
    else
      var (g, id') := NormalizeStep(w, i, id);
      [g] + NormalizeFrom(w, i + 1, id')
  }

  /**
   * One element of the list and the counter after it: a basic graph pattern
   * is normalised with the shared counter, nested queries (directly or as
   * union branches) each from 0, anything else is kept.
   */
  function NormalizeStep(w: seq<GraphPattern>, i: nat, id: nat): (r: (GraphPattern, nat))
    requires i < |w|
    ensures (r.0.BgpPattern? <==> w[i].BgpPattern?) && (r.0.GroupPattern? <==> w[i].GroupPattern?)
    ensures !w[i].BgpPattern? ==> r.1 == id
    ensures !w[i].BgpPattern? && !w[i].SubQuery? && !w[i].UnionPattern? ==> r.0 == w[i]
    decreases w, 0, |w| - i, 1
  {
    match w[i]
    case BgpPattern(ts) =>
      var (ts', id') := NormTriples(ts, id);
      (BgpPattern(ts'), id')
    case SubQuery(inner) => (SubQuery(NormalizeWhere(inner)), id)
    case UnionPattern(bs) =>
      (UnionPattern(seq(|bs|, j requires 0 <= j < |bs| =>
         if bs[j].SubQuery? then SubQuery(NormalizeWhere(bs[j].where)) else bs[j])), id)
    case _ => (w[i], id)
  }

  /** Normalisation keeps the shape of the `where` list: same length, same kinds. */
  lemma {:induction false} NormalizeFromShape(w: seq<GraphPattern>, i: nat, id: nat)
    requires i <= |w|
    ensures |NormalizeFrom(w, i, id)| == |w| - i
    ensures forall k :: i <= k < |w| ==>
      var g := NormalizeFrom(w, i, id)[k - i];
      && (g.BgpPattern? <==> w[k].BgpPattern?) && (g.GroupPattern? <==> w[k].GroupPattern?)
      && (!w[k].BgpPattern? && !w[k].SubQuery? && !w[k].UnionPattern? ==> g == w[k])
    decreases |w| - i
  {
    if i < |w| {
      var (g, id') := NormalizeStep(w, i, id);
      NormalizeFromShape(w, i + 1, id');
      assert NormalizeFrom(w, i, id) == [g] + NormalizeFrom(w, i + 1, id');
    }
  }

  /** A `where` list without paths is left exactly as it was, nested queries included. */
  predicate PathFree(w: seq<GraphPattern>)
    decreases w
  {
    forall k :: 0 <= k < |w| ==>
      match w[k]
      case BgpPattern(ts) => forall t :: t in ts ==> t.pred.PlainPred?
      case SubQuery(inner) => PathFree(inner)
      case UnionPattern(bs) => forall j :: 0 <= j < |bs| ==> bs[j].SubQuery? ==> PathFree(bs[j].where)
      case _ => true
  }

  lemma {:induction false} NormalizeIdentity(w: seq<GraphPattern>)
    requires PathFree(w)
    ensures NormalizeWhere(w) == w
    decreases w, 1
  {
    NormalizeFromIdentity(w, 0, 0);
    assert w[0..] == w;
  }

  lemma {:induction false} NormalizeFromIdentity(w: seq<GraphPattern>, i: nat, id: nat)
    requires i <= |w| && PathFree(w)
    ensures NormalizeFrom(w, i, id) == w[i..]
    decreases w, 0, |w| - i
  {
    if i < |w| {
      NormalizeFromIdentity(w, i + 1, NormalizeStep(w, i, id).1);
      NormalizeStepIdentity(w, i, id);
      assert w[i..] == [w[i]] + w[i + 1..];
    }
  }

  /** One element of a path-free list is left as it was. */
  lemma NormalizeStepIdentity(w: seq<GraphPattern>, i: nat, id: nat)
    requires i < |w| && PathFree(w)
    ensures NormalizeStep(w, i, id).0 == w[i]
    decreases w, 0, |w| - i, 0
  {
    match w[i]
    case BgpPattern(ts) =>
      NormTriplesIdentity(ts, id);
    case SubQuery(inner) =>
      NormalizeIdentity(inner);
    case UnionPattern(bs) =>
      forall j | 0 <= j < |bs| && bs[j].SubQuery?
        ensures SubQuery(NormalizeWhere(bs[j].where)) == bs[j]
      {
        NormalizeIdentity(bs[j].where);
      }
      var bs' := seq(|bs|, j requires 0 <= j < |bs| =>
         if bs[j].SubQuery? then SubQuery(NormalizeWhere(bs[j].where)) else bs[j]);
      assert bs' == bs;
    case _ =>
  }

  /**
   * Recursive method form of `normalize` on one query's `where` list and the
   * queries nested in it, updating each basic graph pattern with the
   * in-place loop.
   */
  method NormalizeQuery(w: seq<GraphPattern>) returns (r: seq<GraphPattern>)
    ensures r == NormalizeWhere(w)
    decreases w, 1
  {
    r := NormalizeElements(w, 0, 0);
  }

  method NormalizeElements(w: seq<GraphPattern>, i: nat, id: nat) returns (r: seq<GraphPattern>)
    requires i <= |w|
    ensures r == NormalizeFrom(w, i, id)
    decreases w, 0, |w| - i
  {
    r := [];
    var k, next := i, id;
    while k < |w|
      invariant i <= k <= |w|
      invariant r + NormalizeFrom(w, k, next) == NormalizeFrom(w, i, id)
      decreases |w| - k
    {
      var g', next' := NormalizeElement(w, k, next);
      assert (r + [g']) + NormalizeFrom(w, k + 1, next') == r + ([g'] + NormalizeFrom(w, k + 1, next'));
      r := r + [g'];
      k, next := k + 1, next';
    }
  }

  /** One element of the `where` list: a basic graph pattern is rewritten in place, nested queries recursively. */
  method NormalizeElement(w: seq<GraphPattern>, k: nat, id: nat) returns (g': GraphPattern, next: nat)
    requires k < |w|
    ensures (g', next) == NormalizeStep(w, k, id)
    decreases w, 0, |w| - k, 1
  {
    next := id;
    match w[k] {
      case BgpPattern(ts) =>
        var ts';
        ts', next := NormalizeTriples(ts, id);
        g' := BgpPattern(ts');
      case SubQuery(inner) =>
        var inner' := NormalizeQuery(inner);
        g' := SubQuery(inner');
      case UnionPattern(bs) =>
        var bs' := NormalizeBranches(w, k, bs);
        g' := UnionPattern(bs');
      case _ =>
        g' := w[k];
    }
  }

  method NormalizeBranches(w: seq<GraphPattern>, k: nat, bs: seq<GraphPattern>) returns (r: seq<GraphPattern>)
    requires k < |w| && w[k] == UnionPattern(bs)
    ensures r == seq(|bs|, j requires 0 <= j < |bs| => if bs[j].SubQuery? then SubQuery(NormalizeWhere(bs[j].where)) else bs[j])
    decreases w, 0, |w| - k, 0
  {
    r := [];
    var j := 0;
    while j < |bs|
      invariant 0 <= j <= |bs| && |r| == j
      invariant forall m :: 0 <= m < j ==> r[m] == if bs[m].SubQuery? then SubQuery(NormalizeWhere(bs[m].where)) else bs[m]
    {
      if bs[j].SubQuery? {
        var inner := NormalizeQuery(bs[j].where);
        r := r + [SubQuery(inner)];
      } else {
        r := r + [bs[j]];
      }
      j := j + 1;
    }
  }
}
