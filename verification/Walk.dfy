/** Post-order walks of a wiring: the order an explicit-stack walk must refine. */
module Walk {
  import opened Collections

  /** For each node, the inputs it is visited through, in visiting order. */
  type Wiring = seq<seq<nat>>

  predicate Downward(w: Wiring) {
    forall i :: 0 <= i < |w| ==> Below(w[i], i)
  }

  /** The nodes finished after `i`, when those of `order` already were. */
  function Visit(w: Wiring, i: nat, order: seq<nat>): seq<nat>
    requires Downward(w) && i < |w|
    decreases i + 1, 0
  {
    if i in order then order else VisitAll(w, i, w[i], order) + [i]
  }

  function VisitAll(w: Wiring, bound: nat, todo: seq<nat>, order: seq<nat>): seq<nat>
    requires Downward(w) && bound <= |w| && Below(todo, bound)
    decreases bound, |todo| + 1
  {
    if todo == [] then order
    else VisitAll(w, bound, todo[1..], Visit(w, todo[0], order))
  }

  /** The post-order of everything `outputs` depend on. */
  function PostOrder(w: Wiring, outputs: seq<nat>): seq<nat>
    requires Downward(w) && Below(outputs, |w|)
  {
    VisitAll(w, |w|, outputs, [])
  }

  ghost predicate Reaches(w: Wiring, from: nat, to: nat)
    requires Downward(w) && from < |w|
    decreases from
  {
    from == to || exists k :: 0 <= k < |w[from]| && Reaches(w, w[from][k], to)
  }

  ghost predicate Needed(w: Wiring, outputs: seq<nat>, i: nat)
    requires Downward(w) && Below(outputs, |w|)
  {
    exists k :: 0 <= k < |outputs| && Reaches(w, outputs[k], i)
  }

  /** The inputs of the node at position `p` precede it. */
  ghost predicate Fed(w: Wiring, order: seq<nat>, p: nat)
    requires p < |order| && Below(order, |w|)
  {
    AllIn(w[order[p]], order[..p])
  }

  /** Finished nodes are distinct nodes whose inputs all finished before them. */
  ghost predicate Ordered(w: Wiring, order: seq<nat>) {
    && Below(order, |w|)
    && Distinct(order)
    && forall p :: 0 <= p < |order| ==> Fed(w, order, p)
  }

  lemma OrderedBelow(w: Wiring, order: seq<nat>)
    requires Ordered(w, order)
    ensures Below(order, |w|)
  {
  }

  lemma OrderedIsClosed(w: Wiring, order: seq<nat>, i: nat)
    requires Ordered(w, order) && i in order
    ensures AllIn(w[i], order)
  {
    assert Fed(w, order, IndexOf(order, i));
  }

  lemma OrderedPrefix(w: Wiring, order: seq<nat>, m: nat)
    requires Ordered(w, order) && m <= |order|
    ensures Ordered(w, order[..m])
    ensures m < |order| ==> AllIn(w[order[m]], order[..m])
  {
    DistinctPrefix(order, m);
    forall p | 0 <= p < m ensures Fed(w, order[..m], p) {
      assert Fed(w, order, p);
      assert order[..m][..p] == order[..p];
    }
    assert m < |order| ==> Fed(w, order, m);
  }

  lemma OrderedMore(w: Wiring, order: seq<nat>, i: nat)
    requires Ordered(w, order) && i < |w| && i !in order
    requires AllIn(w[i], order)
    ensures Ordered(w, order + [i])
  {
    var more := order + [i];
    DistinctMore(order, i);
    forall p | 0 <= p < |more| ensures Fed(w, more, p) {
      if p < |order| {
        assert Fed(w, order, p);
        assert more[..p] == order[..p];
      } else {
        assert more[..p] == order;
      }
    }
  }

  lemma {:induction false} VisitFacts(w: Wiring, i: nat, order: seq<nat>)
    requires Downward(w) && i < |w| && Ordered(w, order)
    ensures var r := Visit(w, i, order);
      && Ordered(w, r) && order <= r && i in r
      && forall j <- r :: j in order || (j <= i && Reaches(w, i, j))
    decreases i + 1, 0
  {
    if i !in order {
      VisitAllFacts(w, i, w[i], order);
      var s := VisitAll(w, i, w[i], order);
      assert i !in s;
      var r := s + [i];
      OrderedMore(w, s, i);
      forall j | j in s && j !in order ensures Reaches(w, i, j) {
        var k :| 0 <= k < |w[i]| && Reaches(w, w[i][k], j);
      }
    }
  }

  lemma {:induction false} VisitAllFacts(w: Wiring, bound: nat, todo: seq<nat>, order: seq<nat>)
    requires Downward(w) && bound <= |w| && Below(todo, bound) && Ordered(w, order)
    ensures var r := VisitAll(w, bound, todo, order);
      && Ordered(w, r) && order <= r
      && (AllIn(todo, r))
      && forall j <- r :: j in order || (j < bound && exists k :: 0 <= k < |todo| && Reaches(w, todo[k], j))
    decreases bound, |todo| + 1
  {
    if todo != [] {
      var s := Visit(w, todo[0], order);
      VisitFacts(w, todo[0], order);
      VisitAllFacts(w, bound, todo[1..], s);
      var r := VisitAll(w, bound, todo[1..], s);
      forall k | 0 <= k < |todo| ensures todo[k] in r {
        if k > 0 { assert todo[k] == todo[1..][k - 1]; }
      }
      forall j | j in r && j !in order ensures exists k :: 0 <= k < |todo| && Reaches(w, todo[k], j) {
        if j in s {
          assert Reaches(w, todo[0], j);
        } else {
          var k :| 0 <= k < |todo[1..]| && Reaches(w, todo[1..][k], j);
          assert todo[1..][k] == todo[k + 1];
        }
      }
    }
  }

  lemma {:induction false} ClosedUnderReach(w: Wiring, order: seq<nat>, i: nat, j: nat)
    requires Downward(w) && Ordered(w, order) && i in order && Reaches(w, i, j)
    ensures j in order
    decreases i
  {
    if i != j {
      var k :| 0 <= k < |w[i]| && Reaches(w, w[i][k], j);
      OrderedIsClosed(w, order, i);
      ClosedUnderReach(w, order, w[i][k], j);
    }
  }

  /** The post-order holds exactly what the outputs depend on, once each, inputs first. */
  lemma PostOrderIsCone(w: Wiring, outputs: seq<nat>)
    requires Downward(w) && Below(outputs, |w|)
    ensures Ordered(w, PostOrder(w, outputs))
    ensures forall i :: i in PostOrder(w, outputs) <==> Needed(w, outputs, i)
  {
    VisitAllFacts(w, |w|, outputs, []);
    var r := PostOrder(w, outputs);
    forall i | Needed(w, outputs, i) ensures i in r {
      var k :| 0 <= k < |outputs| && Reaches(w, outputs[k], i);
      ClosedUnderReach(w, r, outputs[k], i);
    }
  }

  /** Nodes that are all finished add nothing. */
  lemma {:induction false} VisitAllNoop(w: Wiring, bound: nat, todo: seq<nat>, order: seq<nat>)
    requires Downward(w) && bound <= |w| && Below(todo, bound)
    requires AllIn(todo, order)
    ensures VisitAll(w, bound, todo, order) == order
  {
    if todo != [] { VisitAllNoop(w, bound, todo[1..], order); }
  }

  lemma {:induction false} VisitAllSplit(w: Wiring, bound: nat, a: seq<nat>, b: seq<nat>, order: seq<nat>)
    requires Downward(w) && bound <= |w| && Below(a, bound) && Below(b, bound)
    ensures VisitAll(w, bound, a + b, order) == VisitAll(w, bound, b, VisitAll(w, bound, a, order))
  {
    if a == [] {
      assert a + b == b;
    } else {
      assert (a + b)[1..] == a[1..] + b;
      VisitAllSplit(w, bound, a[1..], b, Visit(w, a[0], order));
    }
  }

  // ---- paths that stop --------------------------------------------------------------------------

  /** `from` depends on `to` along a path that goes through no node of `stop`. */
  ghost predicate Sees(w: Wiring, stop: set<nat>, from: nat, to: nat)
    requires Downward(w) && from < |w|
    decreases from
  {
    from == to || (from !in stop && exists k :: 0 <= k < |w[from]| && Sees(w, stop, w[from][k], to))
  }

  ghost predicate InCut(w: Wiring, roots: seq<nat>, stop: set<nat>, i: nat)
    requires Downward(w) && Below(roots, |w|)
  {
    exists r :: 0 <= r < |roots| && Sees(w, stop, roots[r], i)
  }

  lemma {:induction false} SeesOnward(w: Wiring, stop: set<nat>, from: nat, mid: nat, k: nat)
    requires Downward(w) && from < |w| && mid < |w| && Sees(w, stop, from, mid) && mid !in stop && k < |w[mid]|
    ensures Sees(w, stop, from, w[mid][k])
    decreases from
  {
    if from == mid {
      assert Sees(w, stop, w[mid][k], w[mid][k]);
    } else {
      var j :| 0 <= j < |w[from]| && Sees(w, stop, w[from][j], mid);
      SeesOnward(w, stop, w[from][j], mid, k);
    }
  }

  lemma {:induction false} SeesStaysInside(w: Wiring, stop: set<nat>, seen: set<nat>, from: nat, to: nat)
    requires Downward(w) && from < |w| && from in seen && Sees(w, stop, from, to)
    requires forall i: nat :: i in seen && i < |w| && i !in stop ==> forall k :: 0 <= k < |w[i]| ==> w[i][k] in seen
    ensures to in seen
    decreases from
  {
    if from != to {
      var k :| 0 <= k < |w[from]| && Sees(w, stop, w[from][k], to);
      SeesStaysInside(w, stop, seen, w[from][k], to);
    }
  }

  lemma {:induction false} SeesFewer(w: Wiring, less: set<nat>, more: set<nat>, from: nat, to: nat)
    requires Downward(w) && from < |w| && less <= more && Sees(w, more, from, to)
    ensures Sees(w, less, from, to)
    decreases from
  {
    if from != to {
      var k :| 0 <= k < |w[from]| && Sees(w, more, w[from][k], to);
      SeesFewer(w, less, more, w[from][k], to);
    }
  }
}
