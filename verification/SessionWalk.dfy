/** The session's explicit-stack walks (`walk` and `_reachable_sources` of python/graphed/session.py). */
module SessionWalk {
  import opened Collections
  import opened Walk
  import Paths

  // ---- evaluating, with a memo ------------------------------------------------------------------

  /** What a handler makes of a node from its inputs' values. */
  type Handler<!V> = (nat, seq<V>) -> V

  /** Every node's value, by recursion. */
  function Evaluated<V>(f: Handler<V>, w: Wiring, i: nat): V
    requires Downward(w) && i < |w|
    decreases i, 1
  {
    assert Below(w[i], i);
    f(i, EvaluatedAll(f, w, i, w[i]))
  }

  function EvaluatedAll<V>(f: Handler<V>, w: Wiring, bound: nat, xs: seq<nat>): (r: seq<V>)
    requires Downward(w) && bound <= |w| && Below(xs, bound)
    ensures |r| == |xs|
    ensures forall k :: 0 <= k < |xs| ==> r[k] == Evaluated(f, w, xs[k])
    decreases bound, 0
  {
    seq(|xs|, k requires 0 <= k < |xs| => Evaluated(f, w, xs[k]))
  }

  /** A memo whose entries are the values of their nodes. */
  ghost predicate Truthful<V>(f: Handler<V>, w: Wiring, cache: map<nat, V>)
    requires Downward(w)
  {
    forall i: nat {:trigger i in cache} :: i in cache ==> i < |w| && cache[i] == Evaluated(f, w, i)
  }

  ghost predicate Holds<V>(cache: map<nat, V>, order: seq<nat>) {
    forall i: nat {:trigger i in cache} :: i in cache <==> i in order
  }

  /** The inputs not in `order`, in order. */
  function Pending(xs: seq<nat>, order: seq<nat>): (r: seq<nat>)
    ensures forall x :: x in r <==> x in xs && x !in order
  {
    if xs == [] then [] else (if xs[0] in order then [] else [xs[0]]) + Pending(xs[1..], order)
  }

  function Reversed(xs: seq<nat>): (r: seq<nat>)
    ensures |r| == |xs| && forall x :: x in r <==> x in xs
  {
    if xs == [] then [] else Reversed(xs[1..]) + [xs[0]]
  }

  /** What a stack, top last, will have finished when it empties. */
  ghost function Drained(w: Wiring, stack: seq<nat>, order: seq<nat>): seq<nat>
    requires Downward(w) && Below(stack, |w|)
  {
    if stack == [] then order else Drained(w, stack[..|stack| - 1], Visit(w, stack[|stack| - 1], order))
  }

  lemma {:induction false} VisitAdds(w: Wiring, i: nat, order: seq<nat>)
    requires Downward(w) && i < |w|
    ensures var r := Visit(w, i, order); order <= r && i in r && forall j :: j in r ==> j in order || j <= i
    ensures Distinct(order) ==> Distinct(Visit(w, i, order))
    decreases i + 1, 0
  {
    if i !in order {
      assert Below(w[i], i);
      VisitAllAdds(w, i, w[i], order);
      if Distinct(order) { DistinctMore(VisitAll(w, i, w[i], order), i); }
    }
  }

  lemma {:induction false} VisitAllAdds(w: Wiring, bound: nat, todo: seq<nat>, order: seq<nat>)
    requires Downward(w) && bound <= |w| && Below(todo, bound)
    ensures var r := VisitAll(w, bound, todo, order); order <= r && AllIn(todo, r) && forall j :: j in r ==> j in order || j < bound
    ensures Distinct(order) ==> Distinct(VisitAll(w, bound, todo, order))
    decreases bound, |todo| + 1
  {
    hide Distinct;
    if todo != [] {
      VisitAdds(w, todo[0], order);
      var s := Visit(w, todo[0], order);
      VisitAllAdds(w, bound, todo[1..], s);
      var r := VisitAll(w, bound, todo[1..], s);
      forall k | 0 <= k < |todo| ensures todo[k] in r {
        if k > 0 { assert todo[k] == todo[1..][k - 1]; }
      }
    }
  }

  /** Only the pending inputs need visiting. */
  lemma {:induction false} VisitPending(w: Wiring, bound: nat, todo: seq<nat>, order: seq<nat>, seen: seq<nat>)
    requires Downward(w) && bound <= |w| && Below(todo, bound) && seen <= order
    ensures Below(Pending(todo, seen), bound)
    ensures VisitAll(w, bound, todo, order) == VisitAll(w, bound, Pending(todo, seen), order)
  {
    var rest := Pending(todo, seen);
    forall k | 0 <= k < |rest| ensures rest[k] < bound { assert rest[k] in todo; }
    if todo != [] {
      VisitAdds(w, todo[0], order);
      VisitPending(w, bound, todo[1..], Visit(w, todo[0], order), seen);
      if todo[0] in seen {
        assert rest == Pending(todo[1..], seen);
        assert todo[0] in order;
      } else {
        assert rest[1..] == Pending(todo[1..], seen);
      }
    }
  }

  /** Pushing `xs` reversed visits them left to right. */
  lemma {:induction false} DrainReversed(w: Wiring, bound: nat, stack: seq<nat>, xs: seq<nat>, order: seq<nat>)
    requires Downward(w) && Below(stack, |w|) && bound <= |w| && Below(xs, bound)
    ensures Below(stack + Reversed(xs), |w|)
    ensures Drained(w, stack + Reversed(xs), order) == Drained(w, stack, VisitAll(w, bound, xs, order))
    decreases |xs|
  {
    var all := stack + Reversed(xs);
    forall k | 0 <= k < |all| ensures all[k] < |w| {
      if k >= |stack| { assert all[k] in Reversed(xs); }
    }
    if xs == [] {
      assert all == stack;
    } else {
      assert all[..|all| - 1] == stack + Reversed(xs[1..]);
      DrainReversed(w, bound, stack, xs[1..], Visit(w, xs[0], order));
    }
  }

  /** Visiting a node's pending inputs first changes nothing of what visiting the node finishes. */
  lemma {:induction false} PendingFirst(w: Wiring, i: nat, order: seq<nat>)
    requires Downward(w) && i < |w| && i !in order
    ensures Below(w[i], i) && Below(Pending(w[i], order), i)
    ensures Visit(w, i, VisitAll(w, i, Pending(w[i], order), order)) == Visit(w, i, order)
  {
    assert Below(w[i], i);
    VisitPending(w, i, w[i], order, order);
    VisitAllAdds(w, i, w[i], order);
    var after := VisitAll(w, i, w[i], order);
    VisitAllNoop(w, i, w[i], after);
  }

  /** The walk so far: a true cache of the memo and the calls, and a stack that finishes the rest. */
  ghost predicate Walking<V>(f: Handler<V>, w: Wiring, root: nat, order0: seq<nat>, cache: map<nat, V>, calls: seq<nat>, stack: seq<nat>)
    requires Downward(w) && root < |w|
  {
    && Below(stack, |w|) && Truthful(f, w, cache) && Holds(cache, order0 + calls) && Distinct(order0 + calls)
    && Drained(w, stack, order0 + calls) == Visit(w, root, order0)
  }

  lemma {:induction false} StartWalking<V>(f: Handler<V>, w: Wiring, root: nat, order0: seq<nat>, memo: map<nat, V>)
    requires Downward(w) && root < |w| && Truthful(f, w, memo) && Distinct(order0) && Holds(memo, order0)
    ensures Walking(f, w, root, order0, memo, [], [root])
  {
    DrainOne(w, root, order0);
    assert order0 + [] == order0;
  }

  lemma {:induction false} PopCached<V>(f: Handler<V>, w: Wiring, root: nat, order0: seq<nat>, cache: map<nat, V>, calls: seq<nat>, stack: seq<nat>)
    requires Downward(w) && root < |w| && Walking(f, w, root, order0, cache, calls, stack)
    requires stack != [] && stack[|stack| - 1] in cache
    ensures Walking(f, w, root, order0, cache, calls, stack[..|stack| - 1])
  {
    hide Distinct, Visit, Truthful;
    VisitSeen(w, stack[|stack| - 1], order0 + calls);
  }

  lemma {:induction false} PushPending<V>(f: Handler<V>, w: Wiring, root: nat, order0: seq<nat>, cache: map<nat, V>, calls: seq<nat>, stack: seq<nat>)
    requires Downward(w) && root < |w| && Walking(f, w, root, order0, cache, calls, stack)
    requires stack != [] && stack[|stack| - 1] < |w| && stack[|stack| - 1] !in cache
    ensures var i := stack[|stack| - 1]; var pending := Pending(w[i], KeysOf(w[i], cache));
      && Walking(f, w, root, order0, cache, calls, stack + Reversed(pending))
      && (pending != [] ==> var top := Reversed(pending)[|pending| - 1]; top < i && top !in cache)
  {
    hide Distinct, Visit, Truthful, VisitAll, Drained;
    var i := stack[|stack| - 1];
    var order := order0 + calls;
    var pending := Pending(w[i], KeysOf(w[i], cache));
    PendingByCache(w[i], cache, order);
    PendingFirst(w, i, order);
    DrainReversed(w, i, stack, pending, order);
    DrainTop(w, stack, order, VisitAll(w, i, pending, order));
    if pending != [] { LastReversed(pending); }
  }

  lemma {:induction false} FinishNode<V>(f: Handler<V>, w: Wiring, root: nat, order0: seq<nat>, cache: map<nat, V>, calls: seq<nat>, stack: seq<nat>)
    requires Downward(w) && root < |w| && Walking(f, w, root, order0, cache, calls, stack)
    requires stack != [] && stack[|stack| - 1] < |w| && stack[|stack| - 1] !in cache
    requires Pending(w[stack[|stack| - 1]], KeysOf(w[stack[|stack| - 1]], cache)) == []
    ensures var i := stack[|stack| - 1];
      && (forall k :: 0 <= k < |w[i]| ==> w[i][k] in cache) && Truthful(f, w, cache)
      && Walking(f, w, root, order0, cache[i := Evaluated(f, w, i)], calls + [i], stack[..|stack| - 1])
      && |calls| < |w|
  {
    hide Visit, VisitAll, Evaluated, Distinct, Pending, Downward;
    var i := stack[|stack| - 1];
    var order := order0 + calls;
    PendingByCache(w[i], cache, order);
    FinishReady(w, i, order);
    DistinctMore(order, i);
    assert order0 + (calls + [i]) == order + [i];
    CallsBelow(w, order0, calls + [i], cache[i := Evaluated(f, w, i)], f);
  }

  lemma {:induction false} DoneWalking<V>(f: Handler<V>, w: Wiring, root: nat, order0: seq<nat>, cache: map<nat, V>, calls: seq<nat>)
    requires Downward(w) && root < |w| && Walking(f, w, root, order0, cache, calls, [])
    ensures root in cache && cache[root] == Evaluated(f, w, root)
    ensures order0 + calls == Visit(w, root, order0) && Truthful(f, w, cache) && Holds(cache, order0 + calls)
  {
    hide Visit, Evaluated, Distinct;
    VisitAdds(w, root, order0);
  }

  lemma {:induction false} StackBelow<V>(f: Handler<V>, w: Wiring, root: nat, order0: seq<nat>, cache: map<nat, V>, calls: seq<nat>, stack: seq<nat>)
    requires Downward(w) && root < |w| && Walking(f, w, root, order0, cache, calls, stack)
    ensures Below(stack, |w|)
  {
  }

  /** `walk`: the handler runs once per node the memo lacks, inputs first and left to right, in the order
      of the recursion; whatever memo of true values it starts from. */
  /** The wiring with the inputs of what is memoised cut off. */
  function CutAt(w: Wiring, memoised: seq<nat>): (r: Wiring)
    ensures |r| == |w| && forall i :: 0 <= i < |w| ==> r[i] == if i in memoised then [] else w[i]
  {
    seq(|w|, i requires 0 <= i < |w| => if i in memoised then [] else w[i])
  }

  lemma CutIsDownward(w: Wiring, memoised: seq<nat>)
    requires Downward(w)
    ensures Downward(CutAt(w, memoised))
  {
  }

  /** What is memoised is never looked into, so cutting it off changes no walk. */
  lemma {:induction false} CutVisit(w: Wiring, memoised: seq<nat>, i: nat, order: seq<nat>)
    requires Downward(w) && Downward(CutAt(w, memoised)) && i < |w| && memoised <= order
    ensures Visit(CutAt(w, memoised), i, order) == Visit(w, i, order) && memoised <= Visit(w, i, order)
    decreases i + 1, 0
  {
    if i !in order {
      assert Below(w[i], i) && i !in memoised;
      CutVisitAll(w, memoised, i, w[i], order);
    }
  }

  lemma {:induction false} CutVisitAll(w: Wiring, memoised: seq<nat>, bound: nat, todo: seq<nat>, order: seq<nat>)
    requires Downward(w) && Downward(CutAt(w, memoised)) && bound <= |w| && Below(todo, bound) && memoised <= order
    ensures VisitAll(CutAt(w, memoised), bound, todo, order) == VisitAll(w, bound, todo, order)
    ensures memoised <= VisitAll(w, bound, todo, order)
    decreases bound, |todo| + 1
  {
    if todo != [] {
      CutVisit(w, memoised, todo[0], order);
      CutVisitAll(w, memoised, bound, todo[1..], Visit(w, todo[0], order));
    }
  }

  /** The calls of a walk, told without walking: the root's post-order, memoised nodes having no inputs, less those. */
  lemma {:induction false} CallOrder(w: Wiring, root: nat, order0: seq<nat>)
    requires Downward(w) && root < |w| && Distinct(order0) && Below(order0, |w|)
    ensures Downward(CutAt(w, order0))
    ensures Visit(w, root, order0) == order0 + Paths.Without(PostOrder(CutAt(w, order0), [root]), order0)
  {
    hide Distinct, Visit, VisitAll;
    var cut := CutAt(w, order0);
    CutIsDownward(w, order0);
    CutVisit(w, order0, root, order0);
    forall p | 0 <= p < |order0| ensures Fed(cut, order0, p) { assert order0[p] in order0; }
    Paths.VisitIsUnion(cut, root, order0);
    OneOutput(cut, root);
  }

  lemma MemoBelow<V>(f: Handler<V>, w: Wiring, memo: map<nat, V>, order0: seq<nat>)
    requires Downward(w) && Truthful(f, w, memo) && Holds(memo, order0)
    ensures Below(order0, |w|)
  {
    forall k | 0 <= k < |order0| ensures order0[k] < |w| { assert order0[k] in memo; }
  }

  lemma OneOutput(w: Wiring, root: nat)
    requires Downward(w) && root < |w|
    ensures PostOrder(w, [root]) == Visit(w, root, [])
  {
    assert VisitAll(w, |w|, [root], []) == VisitAll(w, |w|, [root][1..], Visit(w, root, []));
  }

  method WalkNodes<V>(f: Handler<V>, w: Wiring, root: nat, memo: map<nat, V>, ghost order0: seq<nat>)
    returns (value: V, cache: map<nat, V>, calls: seq<nat>)
    requires Downward(w) && root < |w| && Truthful(f, w, memo) && Distinct(order0) && Holds(memo, order0)
    ensures value == Evaluated(f, w, root)
    ensures order0 + calls == Visit(w, root, order0)
    ensures Downward(CutAt(w, order0)) && calls == Paths.Without(PostOrder(CutAt(w, order0), [root]), order0)
    ensures Truthful(f, w, cache) && Holds(cache, order0 + calls)
  {
    hide Distinct, Walking, Truthful, Holds, Evaluated, Visit;
    cache, calls := memo, [];
    var stack := [root];
    MemoBelow(f, w, memo, order0);
    CallOrder(w, root, order0);
    StartWalking(f, w, root, order0, memo);
    while stack != []
      invariant Walking(f, w, root, order0, cache, calls, stack)
      decreases |w| - |calls|, stack != [] && stack[|stack| - 1] in cache,
                if stack == [] then 0 else if stack[|stack| - 1] in cache then |stack| else stack[|stack| - 1]
    {
      StackBelow(f, w, root, order0, cache, calls, stack);
      var i := stack[|stack| - 1];
      if i in cache {
        PopCached(f, w, root, order0, cache, calls, stack);
        stack := stack[..|stack| - 1];
      } else {
        var pending := Pending(w[i], KeysOf(w[i], cache));
        if pending != [] {
          PushPending(f, w, root, order0, cache, calls, stack);
          stack := stack + Reversed(pending);
        } else {
          FinishNode(f, w, root, order0, cache, calls, stack);
          stack := stack[..|stack| - 1];
          var ins := FromCache(f, w, cache, i);
          NodeIsHandled(f, w, i);
          cache := cache[i := f(i, ins)];
          calls := calls + [i];
        }
      }
    }
    DoneWalking(f, w, root, order0, cache, calls);
    assert calls == (order0 + calls)[|order0|..];
    value := cache[root];
  }

  lemma {:induction false} NodeIsHandled<V>(f: Handler<V>, w: Wiring, i: nat)
    requires Downward(w) && i < |w|
    ensures Below(w[i], i) && Evaluated(f, w, i) == f(i, EvaluatedAll(f, w, i, w[i]))
  {
    assert Below(w[i], i);
  }

  lemma DrainOne(w: Wiring, root: nat, order: seq<nat>)
    requires Downward(w) && root < |w|
    ensures Drained(w, [root], order) == Visit(w, root, order)
  {
    assert [root][..0] == [];
  }

  lemma VisitSeen(w: Wiring, i: nat, order: seq<nat>)
    requires Downward(w) && i < |w| && i in order
    ensures Visit(w, i, order) == order
  {
  }

  lemma DrainTop(w: Wiring, stack: seq<nat>, order: seq<nat>, after: seq<nat>)
    requires Downward(w) && Below(stack, |w|) && stack != []
    requires Visit(w, stack[|stack| - 1], after) == Visit(w, stack[|stack| - 1], order)
    ensures Drained(w, stack, after) == Drained(w, stack, order)
  {
  }

  lemma LastReversed(xs: seq<nat>)
    requires xs != []
    ensures Reversed(xs)[|xs| - 1] == xs[0] && xs[0] in xs
  {
  }

  lemma FinishReady(w: Wiring, i: nat, order: seq<nat>)
    requires Downward(w) && i < |w| && i !in order && Pending(w[i], order) == []
    ensures Visit(w, i, order) == order + [i]
  {
    assert Below(w[i], i);
    forall k | 0 <= k < |w[i]| ensures w[i][k] in order { }
    VisitAllNoop(w, i, w[i], order);
  }

  /** The members of `xs` that `cache` holds. */
  function KeysOf<V>(xs: seq<nat>, cache: map<nat, V>): (r: seq<nat>)
    ensures forall x :: x in r <==> x in xs && x in cache
  {
    if xs == [] then [] else (if xs[0] in cache then [xs[0]] else []) + KeysOf(xs[1..], cache)
  }

  lemma {:induction false} PendingAgrees(xs: seq<nat>, a: seq<nat>, b: seq<nat>)
    requires forall x :: x in xs ==> (x in a <==> x in b)
    ensures Pending(xs, a) == Pending(xs, b)
  {
    if xs != [] {
      assert forall x :: x in xs[1..] ==> x in xs;
      PendingAgrees(xs[1..], a, b);
    }
  }

  lemma PendingByCache<V>(xs: seq<nat>, cache: map<nat, V>, order: seq<nat>)
    requires Holds(cache, order)
    ensures Pending(xs, KeysOf(xs, cache)) == Pending(xs, order)
    ensures Pending(xs, order) == [] ==> forall k :: 0 <= k < |xs| ==> xs[k] in cache
  {
    PendingAgrees(xs, KeysOf(xs, cache), order);
    if Pending(xs, order) == [] {
      forall k | 0 <= k < |xs| ensures xs[k] in cache { }
    }
  }

  function FromCache<V>(ghost f: Handler<V>, w: Wiring, cache: map<nat, V>, i: nat): (r: seq<V>)
    requires Downward(w) && i < |w| && Truthful(f, w, cache) && forall k :: 0 <= k < |w[i]| ==> w[i][k] in cache
    ensures Below(w[i], i) && r == EvaluatedAll(f, w, i, w[i])
  {
    assert Below(w[i], i);
    var r := seq(|w[i]|, k requires 0 <= k < |w[i]| => cache[w[i][k]]);
    assert r == EvaluatedAll(f, w, i, w[i]);
    r
  }

  lemma CallsBelow<V>(w: Wiring, order0: seq<nat>, calls: seq<nat>, cache: map<nat, V>, f: Handler<V>)
    requires Downward(w) && Distinct(order0 + calls) && Truthful(f, w, cache) && Holds(cache, order0 + calls)
    ensures |calls| <= |w|
  {
    forall i, j | 0 <= i < j < |calls| ensures calls[i] != calls[j] {
      DistinctPair(order0 + calls, |order0| + i, |order0| + j);
    }
    DistinctFromPairs(calls);
    forall k | 0 <= k < |calls| ensures calls[k] < |w| { assert calls[k] in order0 + calls; assert calls[k] in cache; }
    DistinctBound(calls, |w|);
  }

  /** So each called node is called once, was not in the memo, and is called after all its inputs. */
  lemma {:induction false} CalledOnce(w: Wiring, root: nat, order0: seq<nat>, calls: seq<nat>)
    requires Downward(w) && root < |w| && Distinct(order0) && order0 + calls == Visit(w, root, order0)
    ensures forall i, j :: 0 <= i < j < |calls| ==> calls[i] != calls[j]
    ensures forall k :: 0 <= k < |calls| ==> calls[k] !in order0 && calls[k] < |w| && AllIn(w[calls[k]], order0 + calls[..k])
  {
    hide Distinct, Visit;
    VisitAdds(w, root, order0);
    VisitInputsFirst(w, root, order0);
    var all := Visit(w, root, order0);
    forall i, j | 0 <= i < j < |calls| ensures calls[i] != calls[j] {
      DistinctPair(all, |order0| + i, |order0| + j);
    }
    forall k | 0 <= k < |calls| ensures calls[k] !in order0 && calls[k] < |w| && AllIn(w[calls[k]], order0 + calls[..k]) {
      CallIsNew(order0, calls, k);
      assert all[|order0| + k] == calls[k];
      assert all[..|order0| + k] == order0 + calls[..k];
    }
  }

  lemma CallIsNew(order0: seq<nat>, calls: seq<nat>, k: nat)
    requires Distinct(order0 + calls) && k < |calls|
    ensures calls[k] !in order0
  {
    hide Distinct;
    if calls[k] in order0 { DistinctPair(order0 + calls, IndexOf(order0, calls[k]), |order0| + k); }
  }

  /** And the nodes called are exactly those the root reaches without passing one of the memo. */
  lemma {:induction false} CalledAreUnmemoised(w: Wiring, root: nat, order0: seq<nat>, calls: seq<nat>)
    requires Downward(w) && root < |w| && Distinct(order0) && order0 + calls == Visit(w, root, order0)
    ensures forall i: nat :: i in calls <==> i !in order0 && Sees(w, SetOf(order0), root, i)
  {
    hide Visit, Sees, Distinct;
    var all := Visit(w, root, order0);
    CalledOnce(w, root, order0, calls);
    RootIsVisited(w, root, order0);
    forall i: nat | i in calls ensures i !in order0 && Sees(w, SetOf(order0), root, i) {
      assert calls[IndexOf(calls, i)] == i;
      VisitAddsSeen(w, root, order0, i);
    }
    forall i: nat | i !in order0 && Sees(w, SetOf(order0), root, i) ensures i in calls {
      var seen := SetOf(all);
      forall j: nat | j in seen && j < |w| && j !in SetOf(order0) ensures forall k :: 0 <= k < |w[j]| ==> w[j][k] in seen {
        var n := IndexOf(calls, j);
        assert AllIn(w[calls[n]], order0 + calls[..n]);
        assert forall x :: x in order0 + calls[..n] ==> x in all;
      }
      SeesStaysInside(w, SetOf(order0), seen, root, i);
    }
  }

  lemma RootIsVisited(w: Wiring, root: nat, order: seq<nat>)
    requires Downward(w) && root < |w|
    ensures root in Visit(w, root, order)
  {
  }

  lemma {:induction false} VisitAddsSeen(w: Wiring, i: nat, order: seq<nat>, x: nat)
    requires Downward(w) && i < |w| && x in Visit(w, i, order) && x !in order
    ensures Sees(w, SetOf(order), i, x)
    decreases i + 1, 0
  {
    if x != i {
      assert Below(w[i], i);
      var k := VisitAllAddsSeen(w, i, w[i], order, x);
    }
  }

  lemma {:induction false} VisitAllAddsSeen(w: Wiring, bound: nat, todo: seq<nat>, order: seq<nat>, x: nat) returns (k: nat)
    requires Downward(w) && bound <= |w| && Below(todo, bound) && x in VisitAll(w, bound, todo, order) && x !in order
    ensures k < |todo| && Sees(w, SetOf(order), todo[k], x)
    decreases bound, |todo| + 1
  {
    var s := Visit(w, todo[0], order);
    if x in s {
      VisitAddsSeen(w, todo[0], order, x);
      k := 0;
    } else {
      var j := VisitAllAddsSeen(w, bound, todo[1..], s, x);
      VisitAdds(w, todo[0], order);
      SeesFewer(w, SetOf(order), SetOf(s), todo[1..][j], x);
      k := j + 1;
    }
  }

  /** What a visit adds, it adds after its inputs. */
  lemma {:induction false} VisitInputsFirst(w: Wiring, i: nat, order: seq<nat>)
    requires Downward(w) && i < |w|
    ensures var r := Visit(w, i, order);
      order <= r && forall p :: |order| <= p < |r| ==> r[p] < |w| && AllIn(w[r[p]], r[..p])
    decreases i + 1, 0
  {
    VisitAdds(w, i, order);
    if i !in order {
      assert Below(w[i], i);
      VisitAllInputsFirst(w, i, w[i], order);
      VisitAllAdds(w, i, w[i], order);
      var s := VisitAll(w, i, w[i], order);
      var r := s + [i];
      forall p | |order| <= p < |r| ensures r[p] < |w| && AllIn(w[r[p]], r[..p]) {
        assert r[..|s|] == s;
        if p < |s| { assert r[..p] == s[..p]; }
      }
    }
  }

  lemma {:induction false} VisitAllInputsFirst(w: Wiring, bound: nat, todo: seq<nat>, order: seq<nat>)
    requires Downward(w) && bound <= |w| && Below(todo, bound)
    ensures var r := VisitAll(w, bound, todo, order);
      order <= r && forall p :: |order| <= p < |r| ==> r[p] < |w| && AllIn(w[r[p]], r[..p])
    decreases bound, |todo| + 1
  {
    if todo != [] {
      VisitInputsFirst(w, todo[0], order);
      var s := Visit(w, todo[0], order);
      VisitAllInputsFirst(w, bound, todo[1..], s);
      var r := VisitAll(w, bound, todo[1..], s);
      forall p | |order| <= p < |r| ensures r[p] < |w| && AllIn(w[r[p]], r[..p]) {
        if p < |s| { assert r[p] == s[p] && r[..p] == s[..p]; }
      }
    }
  }

  // ---- reachable sources ------------------------------------------------------------------------

  /** The sources a node depends on, by recursion. */
  ghost function SourcesOf(w: Wiring, sources: set<nat>, i: nat): set<nat>
    requires Downward(w) && i < |w|
    decreases i, 1
  {
    assert Below(w[i], i);
    if i in sources then {i} else SourcesOfAll(w, sources, i, w[i])
  }

  ghost function SourcesOfAll(w: Wiring, sources: set<nat>, bound: nat, xs: seq<nat>): set<nat>
    requires Downward(w) && bound <= |w| && Below(xs, bound)
    decreases bound, 0, |xs|
  {
    if xs == [] then {} else SourcesOfAll(w, sources, bound, xs[..|xs| - 1]) + SourcesOf(w, sources, xs[|xs| - 1])
  }

  /** Sources have no inputs. */
  ghost predicate SourcesAreLeaves(w: Wiring, sources: set<nat>) {
    forall i: nat {:trigger i in sources} :: i in sources && i < |w| ==> w[i] == []
  }

  /** They are the sources it reaches. */
  lemma {:induction false} SourcesAreReached(w: Wiring, sources: set<nat>, i: nat, s: nat)
    requires Downward(w) && i < |w| && SourcesAreLeaves(w, sources)
    ensures s in SourcesOf(w, sources, i) <==> s in sources && Reaches(w, i, s)
    decreases i, 1
  {
    assert Below(w[i], i);
    if i !in sources { AllSourcesAreReached(w, sources, i, w[i], s); }
  }

  lemma {:induction false} AllSourcesAreReached(w: Wiring, sources: set<nat>, bound: nat, xs: seq<nat>, s: nat)
    requires Downward(w) && bound <= |w| && Below(xs, bound) && SourcesAreLeaves(w, sources)
    ensures s in SourcesOfAll(w, sources, bound, xs) <==> s in sources && exists k :: 0 <= k < |xs| && Reaches(w, xs[k], s)
    decreases bound, 0, |xs|
  {
    if xs != [] {
      var m := |xs| - 1;
      AllSourcesAreReached(w, sources, bound, xs[..m], s);
      SourcesAreReached(w, sources, xs[m], s);
      if exists k :: 0 <= k < |xs| && Reaches(w, xs[k], s) {
        var k :| 0 <= k < |xs| && Reaches(w, xs[k], s);
        assert k < m ==> xs[..m][k] == xs[k];
      }
      if exists k :: 0 <= k < m && Reaches(w, xs[..m][k], s) {
        var k :| 0 <= k < m && Reaches(w, xs[..m][k], s);
        assert xs[..m][k] == xs[k];
      }
    }
  }

  type Frame = (nat, bool)

  type SourceCache = map<nat, set<nat>>

  ghost predicate CacheTrue(w: Wiring, sources: set<nat>, cache: SourceCache)
    requires Downward(w)
  {
    forall i: nat {:trigger i in cache} :: i in cache ==> i < |w| && cache[i] == SourcesOf(w, sources, i)
  }

  /** The search so far: seen nodes are finished or marked on the stack, above a mark are only nodes below
      it, and what a marked node still waits for is above its mark. */
  ghost predicate Searching(w: Wiring, cache: SourceCache, seen: set<nat>, order: seq<nat>, stack: seq<Frame>) {
    && (forall p :: 0 <= p < |stack| ==> stack[p].0 < |w|)
    && (forall p, q :: 0 <= p < q < |stack| && stack[p].1 ==> stack[q].0 < stack[p].0)
    && (forall i: nat {:trigger i in seen} :: i in seen ==> i in order || (i, true) in stack)
    && Below(order, |w|) && (forall i :: i in order ==> i in seen)
    && (forall p :: 0 <= p < |stack| && stack[p].1 ==> stack[p].0 in seen && stack[p].0 !in order)
    && (forall p :: 0 <= p < |stack| && stack[p].1 ==> Waits(w, cache, seen, stack, p))
    && (forall p :: 0 <= p < |order| ==> InputsBefore(w, cache, order, p))
  }

  ghost predicate Waits(w: Wiring, cache: SourceCache, seen: set<nat>, stack: seq<Frame>, p: nat)
    requires p < |stack| && stack[p].0 < |w|
  {
    forall k :: 0 <= k < |w[stack[p].0]| ==>
      var x := w[stack[p].0][k]; x in cache || x in seen || (x, false) in stack[p + 1..]
  }

  ghost predicate InputsBefore(w: Wiring, cache: SourceCache, order: seq<nat>, p: nat)
    requires p < |order| && order[p] < |w|
  {
    forall k :: 0 <= k < |w[order[p]]| ==> w[order[p]][k] in cache || w[order[p]][k] in order[..p]
  }

  /** The frames pushed for the inputs neither cached nor seen. */
  function Pushed(xs: seq<nat>, cache: SourceCache, seen: set<nat>): (r: seq<Frame>)
    ensures forall q :: 0 <= q < |r| ==> !r[q].1 && r[q].0 in xs
    ensures forall x :: x in xs ==> x in cache || x in seen || (x, false) in r
  {
    if xs == [] then []
    else
      var m := |xs| - 1;
      Pushed(xs[..m], cache, seen) + if xs[m] in cache || xs[m] in seen then [] else [(xs[m], false)]
  }

  lemma FinishTop(w: Wiring, cache: SourceCache, seen: set<nat>, order: seq<nat>, stack: seq<Frame>)
    requires Downward(w) && Searching(w, cache, seen, order, stack) && stack != [] && stack[|stack| - 1].1
    ensures Searching(w, cache, seen, order + [stack[|stack| - 1].0], stack[..|stack| - 1])
  {
    var n := |stack| - 1;
    var rest := stack[..n];
    var c := stack[n].0;
    var more := order + [c];
    assert Waits(w, cache, seen, stack, n);
    assert Below(w[c], c);
    assert stack[n + 1..] == [];
    forall p | 0 <= p < |more| ensures InputsBefore(w, cache, more, p) {
      if p < |order| {
        assert InputsBefore(w, cache, order, p);
        assert more[..p] == order[..p];
      } else {
        assert more[..p] == order;
        FinishedOrCached(w, cache, seen, order, stack);
      }
    }
    assert forall f :: f in stack ==> f in rest || f == stack[n];
    forall p | 0 <= p < n && rest[p].1 ensures Waits(w, cache, seen, rest, p) {
      assert Waits(w, cache, seen, stack, p);
      WaitsShorter(stack, p, stack[n]);
    }
  }

  lemma FinishedOrCached(w: Wiring, cache: SourceCache, seen: set<nat>, order: seq<nat>, stack: seq<Frame>)
    requires Downward(w) && Searching(w, cache, seen, order, stack) && stack != [] && stack[|stack| - 1].1
    ensures var c := stack[|stack| - 1].0; forall k :: 0 <= k < |w[c]| ==> w[c][k] in cache || w[c][k] in order
  {
    var n := |stack| - 1;
    var c := stack[n].0;
    assert Waits(w, cache, seen, stack, n);
    assert Below(w[c], c);
    assert stack[n + 1..] == [];
    forall k | 0 <= k < |w[c]| ensures w[c][k] in cache || w[c][k] in order {
      NotMarked(w, cache, seen, order, stack, w[c][k]);
    }
  }

  /** What lies below the topmost mark is marked nowhere. */
  lemma NotMarked(w: Wiring, cache: SourceCache, seen: set<nat>, order: seq<nat>, stack: seq<Frame>, x: nat)
    requires Searching(w, cache, seen, order, stack) && stack != [] && stack[|stack| - 1].1 && x < stack[|stack| - 1].0
    ensures (x, true) !in stack
  {
  }

  lemma WaitsShorter(stack: seq<Frame>, p: nat, top: Frame)
    requires p < |stack| - 1 && top == stack[|stack| - 1]
    ensures stack[p + 1..] == stack[..|stack| - 1][p + 1..] + [top]
  {
  }

  lemma DropSeen(w: Wiring, cache: SourceCache, seen: set<nat>, order: seq<nat>, stack: seq<Frame>)
    requires Downward(w) && Searching(w, cache, seen, order, stack)
    requires stack != [] && !stack[|stack| - 1].1 && stack[|stack| - 1].0 in seen
    ensures Searching(w, cache, seen, order, stack[..|stack| - 1])
  {
    var n := |stack| - 1;
    var rest := stack[..n];
    assert forall f :: f in stack ==> f in rest || f == stack[n];
    forall p | 0 <= p < n && rest[p].1 ensures Waits(w, cache, seen, rest, p) {
      assert Waits(w, cache, seen, stack, p);
      WaitsShorter(stack, p, stack[n]);
    }
  }

  lemma OpenTop(w: Wiring, cache: SourceCache, seen: set<nat>, order: seq<nat>, stack: seq<Frame>)
    requires Downward(w) && Searching(w, cache, seen, order, stack)
    requires stack != [] && !stack[|stack| - 1].1 && stack[|stack| - 1].0 !in seen
    ensures var c := stack[|stack| - 1].0;
      Searching(w, cache, seen + {c}, order, stack[..|stack| - 1] + [(c, true)] + Pushed(w[c], cache, seen + {c}))
  {
    hide Waits, InputsBefore, Pushed;
    var n := |stack| - 1;
    var c := stack[n].0;
    var pushed := Pushed(w[c], cache, seen + {c});
    var rest := stack[..n];
    var more := rest + [(c, true)] + pushed;
    assert Below(w[c], c);
    assert forall f :: f in stack ==> f in rest || f == stack[n];
    assert forall f :: f in rest ==> f in more;
    assert more[n] == (c, true);
    forall p | n < p < |more| ensures more[p].0 < c && !more[p].1 {
      assert more[p] == pushed[p - n - 1];
      assert w[c][IndexOf(w[c], more[p].0)] == more[p].0;
    }
    forall p | 0 <= p < |more| && more[p].1 ensures Waits(w, cache, seen + {c}, more, p) {
      OpenWaits(w, cache, seen, stack, p);
    }
  }

  lemma OpenWaits(w: Wiring, cache: SourceCache, seen: set<nat>, stack: seq<Frame>, p: nat)
    requires stack != [] && p < |stack| && stack[p].0 < |w| && stack[|stack| - 1].0 < |w|
    requires p < |stack| - 1 ==> Waits(w, cache, seen, stack, p)
    requires !stack[|stack| - 1].1
    ensures var c := stack[|stack| - 1].0; var more := stack[..|stack| - 1] + [(c, true)] + Pushed(w[c], cache, seen + {c});
      more[p].0 == stack[p].0 && Waits(w, cache, seen + {c}, more, p)
  {
    hide Pushed;
    var n := |stack| - 1;
    var c := stack[n].0;
    var pushed := Pushed(w[c], cache, seen + {c});
    var more := stack[..n] + [(c, true)] + pushed;
    if p == n {
      assert more[p + 1..] == pushed;
    } else {
      WaitsShorter(stack, p, stack[n]);
      assert more[p + 1..] == stack[..n][p + 1..] + [(c, true)] + pushed;
    }
  }

  lemma SeenBelow(w: Wiring, cache: SourceCache, seen: set<nat>, order: seq<nat>, stack: seq<Frame>)
    requires Downward(w) && Searching(w, cache, seen, order, stack)
    ensures |seen| <= |w|
  {
    forall i | i in seen ensures i < |w| {
      if i !in order { assert stack[IndexOf(stack, (i, true))].0 == i; }
    }
    SetBelow(seen, |w|);
  }

  /** The first pass: every uncached node below `root`, each after the inputs it waits for. */
  method InputsFirst(w: Wiring, root: nat, cache: SourceCache) returns (order: seq<nat>, ghost seen: set<nat>)
    requires Downward(w) && root < |w|
    ensures Searching(w, cache, seen, order, []) && root in order
  {
    hide Searching;
    order := [];
    var met: set<nat> := {};
    var stack: seq<Frame> := [(root, false)];
    StartSearch(w, cache, root);
    while stack != []
      invariant Searching(w, cache, met, order, stack) && RootAhead(root, met, stack)
      decreases |w| - |met|, |stack|
    {
      var (current, done) := stack[|stack| - 1];
      SeenBelow(w, cache, met, order, stack);
      TopInRange(w, cache, met, order, stack);
      if done {
        FinishTop(w, cache, met, order, stack);
        order := order + [current];
        stack := stack[..|stack| - 1];
      } else if current in met {
        DropSeen(w, cache, met, order, stack);
        stack := stack[..|stack| - 1];
      } else {
        OpenTop(w, cache, met, order, stack);
        met := met + {current};
        stack := stack[..|stack| - 1] + [(current, true)] + Pushed(w[current], cache, met);
        SeenBelow(w, cache, met, order, stack);
      }
    }
    seen := met;
    RootFinished(w, cache, met, order, root);
  }

  /** The root is seen or still at the bottom of the stack. */
  ghost predicate RootAhead(root: nat, seen: set<nat>, stack: seq<Frame>) {
    root in seen || (stack != [] && stack[0] == (root, false))
  }

  lemma StartSearch(w: Wiring, cache: SourceCache, root: nat)
    requires root < |w|
    ensures Searching(w, cache, {}, [], [(root, false)])
  {
  }

  lemma TopInRange(w: Wiring, cache: SourceCache, seen: set<nat>, order: seq<nat>, stack: seq<Frame>)
    requires Searching(w, cache, seen, order, stack) && stack != []
    ensures stack[|stack| - 1].0 < |w|
    ensures stack[|stack| - 1].1 ==> stack[|stack| - 1].0 in seen
  {
  }

  lemma RootFinished(w: Wiring, cache: SourceCache, seen: set<nat>, order: seq<nat>, root: nat)
    requires Searching(w, cache, seen, order, []) && root in seen
    ensures root in order
  {
  }

  /** `_reachable_sources`: exactly the sources the node reaches, and a cache still true. */
  method ReachableSources(w: Wiring, sources: set<nat>, nodeId: nat, cache0: SourceCache) returns (r: set<nat>, cache: SourceCache)
    requires Downward(w) && nodeId < |w| && SourcesAreLeaves(w, sources) && CacheTrue(w, sources, cache0)
    ensures CacheTrue(w, sources, cache) && cache0.Keys <= cache.Keys
    ensures forall s: nat :: s in r <==> s in sources && Reaches(w, nodeId, s)
  {
    cache := cache0;
    if nodeId in cache {
      r := cache[nodeId];
    } else {
      var order;
      ghost var seen;
      order, seen := InputsFirst(w, nodeId, cache0);
      cache := FillCache(w, sources, cache0, order, seen);
      r := cache[nodeId];
    }
    forall s: nat ensures s in r <==> s in sources && Reaches(w, nodeId, s) {
      SourcesAreReached(w, sources, nodeId, s);
    }
  }

  method FillCache(w: Wiring, sources: set<nat>, cache0: SourceCache, order: seq<nat>, ghost seen: set<nat>) returns (cache: SourceCache)
    requires Downward(w) && CacheTrue(w, sources, cache0) && Searching(w, cache0, seen, order, [])
    ensures CacheTrue(w, sources, cache) && cache0.Keys <= cache.Keys && forall i :: i in order ==> i in cache
  {
    hide Searching;
    cache := cache0;
    for k := 0 to |order|
      invariant CacheTrue(w, sources, cache) && cache0.Keys <= cache.Keys && forall i :: i in order[..k] ==> i in cache
    {
      var current := order[k];
      TakeMore(order, k);
      OrderedInputs(w, cache0, seen, order, k);
      if current in sources {
        cache := cache[current := {current}];
      } else {
        assert Below(w[current], current);
        var reached := UnionOf(w, sources, cache, w[current], current);
        cache := cache[current := reached];
      }
    }
    assert order[..|order|] == order;
  }

  lemma OrderedInputs(w: Wiring, cache: SourceCache, seen: set<nat>, order: seq<nat>, k: nat)
    requires Searching(w, cache, seen, order, []) && k < |order|
    ensures order[k] < |w|
    ensures forall j :: 0 <= j < |w[order[k]]| ==> w[order[k]][j] in cache || w[order[k]][j] in order[..k]
  {
    assert order[k] in order;
    assert InputsBefore(w, cache, order, k);
  }

  method UnionOf(w: Wiring, sources: set<nat>, cache: SourceCache, xs: seq<nat>, ghost bound: nat) returns (reached: set<nat>)
    requires Downward(w) && CacheTrue(w, sources, cache) && bound <= |w| && Below(xs, bound)
    requires forall k :: 0 <= k < |xs| ==> xs[k] in cache
    ensures reached == SourcesOfAll(w, sources, bound, xs)
  {
    reached := {};
    for k := 0 to |xs|
      invariant reached == SourcesOfAll(w, sources, bound, xs[..k])
    {
      assert xs[..k + 1][..k] == xs[..k];
      reached := reached + cache[xs[k]];
    }
    assert xs[..|xs|] == xs;
  }
}
