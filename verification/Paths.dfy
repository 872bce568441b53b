/** What the walks reach, and in which order, told without walking (src/optimizer/mod.rs, python/graphed/session.py). */
module Paths {
  import opened Collections
  import opened Walk

  // ---- what is reached ---------------------------------------------------------------------------

  /** Each node of the path is an input of the one before, and the path goes through no node of `stop`. */
  ghost predicate Path(w: Wiring, stop: set<nat>, p: seq<nat>) {
    p != [] && Below(p, |w|) && forall k :: 0 <= k < |p| - 1 ==> Hop(w, stop, p[k], p[k + 1])
  }

  ghost predicate Hop(w: Wiring, stop: set<nat>, a: nat, b: nat)
    requires a < |w|
  {
    a !in stop && b in w[a]
  }

  lemma {:induction false} PathSees(w: Wiring, stop: set<nat>, p: seq<nat>)
    requires Downward(w) && Path(w, stop, p)
    ensures Sees(w, stop, p[0], p[|p| - 1])
  {
    if |p| > 1 {
      var rest := p[1..];
      assert Hop(w, stop, p[0], p[1]);
      forall k | 0 <= k < |rest| - 1 ensures Hop(w, stop, rest[k], rest[k + 1]) {
        assert Hop(w, stop, p[k + 1], p[k + 1 + 1]);
      }
      PathSees(w, stop, rest);
      var k := IndexOf(w[p[0]], p[1]);
      assert Sees(w, stop, w[p[0]][k], rest[|rest| - 1]);
    }
  }

  lemma {:induction false} SeenPath(w: Wiring, stop: set<nat>, a: nat, b: nat) returns (p: seq<nat>)
    requires Downward(w) && a < |w| && Sees(w, stop, a, b)
    ensures Path(w, stop, p) && p[0] == a && p[|p| - 1] == b
    decreases a
  {
    p := [a];
    if a != b {
      var k :| 0 <= k < |w[a]| && Sees(w, stop, w[a][k], b);
      assert Below(w[a], a);
      var rest := SeenPath(w, stop, w[a][k], b);
      p := [a] + rest;
      forall j | 0 <= j < |p| - 1 ensures Hop(w, stop, p[j], p[j + 1]) {
        if j > 0 { assert Hop(w, stop, rest[j - 1], rest[j - 1 + 1]); }
      }
    }
  }

  /** A node is seen exactly along a path that goes through no stop; the node seen may be one. */
  lemma {:induction false} SeenByPath(w: Wiring, stop: set<nat>, a: nat, b: nat)
    requires Downward(w) && a < |w|
    ensures Sees(w, stop, a, b) <==> exists p :: Path(w, stop, p) && p[0] == a && p[|p| - 1] == b
  {
    if Sees(w, stop, a, b) { var p := SeenPath(w, stop, a, b); }
    if p :| Path(w, stop, p) && p[0] == a && p[|p| - 1] == b { PathSees(w, stop, p); }
  }

  lemma {:induction false} ReachesIsSees(w: Wiring, a: nat, b: nat)
    requires Downward(w) && a < |w|
    ensures Reaches(w, a, b) <==> Sees(w, {}, a, b)
    decreases a
  {
    assert Below(w[a], a);
    forall k | 0 <= k < |w[a]| ensures Reaches(w, w[a][k], b) <==> Sees(w, {}, w[a][k], b) { ReachesIsSees(w, w[a][k], b); }
  }

  /** A node depends on another exactly along a path. */
  lemma {:induction false} ReachedByPath(w: Wiring, a: nat, b: nat)
    requires Downward(w) && a < |w|
    ensures Reaches(w, a, b) <==> exists p :: Path(w, {}, p) && p[0] == a && p[|p| - 1] == b
  {
    ReachesIsSees(w, a, b);
    SeenByPath(w, {}, a, b);
  }

  // ---- in which order ----------------------------------------------------------------------------

  /** `xs` without what `ys` holds. */
  function Without(xs: seq<nat>, ys: seq<nat>): (r: seq<nat>)
    ensures forall x :: x in r <==> x in xs && x !in ys
  {
    if xs == [] then [] else Without(xs[..|xs| - 1], ys) + if xs[|xs| - 1] in ys then [] else [xs[|xs| - 1]]
  }

  lemma {:induction false} WithoutSplit(a: seq<nat>, b: seq<nat>, ys: seq<nat>)
    ensures Without(a + b, ys) == Without(a, ys) + Without(b, ys)
  {
    if b == [] {
      assert a + b == a;
    } else {
      var m := |b| - 1;
      assert (a + b)[..|a + b| - 1] == a + b[..m];
      WithoutSplit(a, b[..m], ys);
    }
  }

  lemma {:induction false} WithoutTwice(xs: seq<nat>, ys: seq<nat>, zs: seq<nat>, both: seq<nat>)
    requires forall x :: x in both <==> x in ys || x in zs
    ensures Without(Without(xs, ys), zs) == Without(xs, both)
  {
    if xs != [] {
      var m := |xs| - 1;
      WithoutTwice(xs[..m], ys, zs, both);
      WithoutSplit(Without(xs[..m], ys), if xs[m] in ys then [] else [xs[m]], zs);
    }
  }

  lemma {:induction false} WithoutNone(xs: seq<nat>, ys: seq<nat>)
    requires forall x :: x in xs ==> x in ys
    ensures Without(xs, ys) == []
  {
    if xs != [] { WithoutNone(xs[..|xs| - 1], ys); }
  }

  /** A finished node adds nothing, all it reaches being finished. */
  lemma {:induction false} FinishedAddsNothing(w: Wiring, i: nat, order: seq<nat>)
    requires Downward(w) && i < |w| && Ordered(w, order) && i in order
    ensures Without(Visit(w, i, []), order) == []
  {
    hide Visit, Ordered;
    EmptyIsOrdered(w);
    VisitFacts(w, i, []);
    forall x | x in Visit(w, i, []) ensures x in order { ClosedUnderReach(w, order, i, x); }
    WithoutNone(Visit(w, i, []), order);
  }

  lemma EmptyIsOrdered(w: Wiring)
    ensures Ordered(w, [])
  {
  }

  /** What a walk adds does not depend on what is finished, but for leaving that out. */
  lemma {:induction false} VisitIsUnion(w: Wiring, i: nat, order: seq<nat>)
    requires Downward(w) && i < |w| && Ordered(w, order)
    ensures Visit(w, i, order) == order + Without(Visit(w, i, []), order)
    decreases i + 1, 0, 0
  {
    hide Ordered, VisitAll, Without;
    if i in order {
      FinishedAddsNothing(w, i, order);
    } else {
      assert Below(w[i], i);
      VisitAllIsUnion(w, i, w[i], order);
      var all := VisitAll(w, i, w[i], []);
      assert Visit(w, i, []) == all + [i];
      WithoutSplit(all, [i], order);
      OneNew(i, order);
      assert order + Without(all, order) + [i] == order + (Without(all, order) + [i]);
    }
  }

  lemma OneNew(i: nat, order: seq<nat>)
    requires i !in order
    ensures Without([i], order) == [i]
  {
  }

  lemma {:induction false} VisitAllIsUnion(w: Wiring, bound: nat, todo: seq<nat>, order: seq<nat>)
    requires Downward(w) && bound <= |w| && Below(todo, bound) && Ordered(w, order)
    ensures VisitAll(w, bound, todo, order) == order + Without(VisitAll(w, bound, todo, []), order)
    decreases bound, |todo| + 1, 0
  {
    if todo == [] {
    } else {
      EmptyIsOrdered(w);
      var first := Visit(w, todo[0], []);
      VisitIsUnion(w, todo[0], order);
      VisitFacts(w, todo[0], order);
      VisitFacts(w, todo[0], []);
      RestIsUnion(w, bound, todo[1..], order, first);
    }
  }

  /** The same once the first node is visited, `first` being what it adds to nothing. */
  lemma {:induction false} RestIsUnion(w: Wiring, bound: nat, rest: seq<nat>, order: seq<nat>, first: seq<nat>)
    requires Downward(w) && bound <= |w| && Below(rest, bound)
    requires Ordered(w, order + Without(first, order)) && Ordered(w, first)
    ensures VisitAll(w, bound, rest, order + Without(first, order)) == order + Without(VisitAll(w, bound, rest, first), order)
    decreases bound, |rest| + 1, 1
  {
    hide Ordered, VisitAll, Without;
    var now := order + Without(first, order);
    var added := VisitAll(w, bound, rest, []);
    VisitAllIsUnion(w, bound, rest, now);
    VisitAllIsUnion(w, bound, rest, first);
    UnionOfUnions(order, first, added);
  }

  lemma {:induction false} UnionOfUnions(order: seq<nat>, first: seq<nat>, added: seq<nat>)
    ensures var now := order + Without(first, order);
      now + Without(added, now) == order + Without(first + Without(added, first), order)
  {
    hide Without;
    var now := order + Without(first, order);
    WithoutSplit(first, Without(added, first), order);
    WithoutTwice(added, first, order, now);
    assert now + Without(added, now) == order + (Without(first, order) + Without(added, now));
  }

  lemma {:induction false} AnyBound(w: Wiring, bound: nat, more: nat, todo: seq<nat>, order: seq<nat>)
    requires Downward(w) && bound <= more <= |w| && Below(todo, bound)
    ensures VisitAll(w, bound, todo, order) == VisitAll(w, more, todo, order)
  {
    if todo != [] { AnyBound(w, bound, more, todo[1..], Visit(w, todo[0], order)); }
  }

  /** The post-order of one output is that of its inputs, in their order, and the output. */
  lemma {:induction false} PostOrderOfOne(w: Wiring, o: nat)
    requires Downward(w) && o < |w|
    ensures Below(w[o], |w|) && PostOrder(w, [o]) == PostOrder(w, w[o]) + [o]
  {
    assert Below(w[o], o);
    AnyBound(w, o, |w|, w[o], []);
    assert VisitAll(w, |w|, [o], []) == VisitAll(w, |w|, [o][1..], Visit(w, o, []));
  }

  /** An output comes after all the outputs before it, with what it alone depends on. With `PostOrderOfOne`, and
      nothing for no outputs, that is the whole order. */
  lemma {:induction false} PostOrderOfMore(w: Wiring, outputs: seq<nat>, o: nat)
    requires Downward(w) && Below(outputs, |w|) && o < |w|
    ensures PostOrder(w, []) == []
    ensures PostOrder(w, outputs + [o]) == PostOrder(w, outputs) + Without(PostOrder(w, [o]), PostOrder(w, outputs))
  {
    VisitAllSplit(w, |w|, outputs, [o], []);
    VisitAllFacts(w, |w|, outputs, []);
    VisitAllIsUnion(w, |w|, [o], PostOrder(w, outputs));
  }
}
