/** The post-order walk on terms that every arena's walk projects to. */
module TermWalk {
  import opened Collections
  import opened Graph
  import opened Walk
  import opened Congruence

  /** Whether symmetric operands are taken in structural-key order, and by which hash. */
  type Orientation = Option<Hash>

  function TermKey(hash: Hash, t: Term): nat {
    Eval(KeyOp(hash), t)
  }

  predicate TermSwapped(orient: Orientation, t: Term) {
    && orient.Some? && |t.args| == 2 && Commutes(t.token)
    && TermKey(orient.value, t.args[1]) < TermKey(orient.value, t.args[0])
  }

  /** A term's arguments in visiting order. */
  function Kids(orient: Orientation, t: Term): (r: seq<Term>)
    ensures |r| == |t.args|
    ensures forall k :: 0 <= k < |r| ==> r[k] in t.args
  {
    if TermSwapped(orient, t) then [t.args[1], t.args[0]] else t.args
  }

  function Height(t: Term): (h: nat)
    ensures forall k :: 0 <= k < |t.args| ==> Height(t.args[k]) < h
    decreases t, 1
  {
    1 + Tallest(t.args)
  }

  function Tallest(ts: seq<Term>): (h: nat)
    ensures forall k :: 0 <= k < |ts| ==> Height(ts[k]) <= h
    decreases ts, 0
  {
    if ts == [] then 0
    else
      var h := Tallest(ts[1..]);
      assert forall k :: 1 <= k < |ts| ==> ts[k] == ts[1..][k - 1];
      if Height(ts[0]) > h then Height(ts[0]) else h
  }

  predicate Shorter(ts: seq<Term>, h: nat) {
    forall k :: 0 <= k < |ts| ==> Height(ts[k]) < h
  }

  lemma AllShorter(ts: seq<Term>)
    ensures Shorter(ts, Tallest(ts) + 1)
  {
  }

  lemma KidsAreShorter(orient: Orientation, t: Term)
    ensures Shorter(Kids(orient, t), Height(t))
  {
  }

  /** The terms finished after `t`, when those of `order` already were. */
  function VisitTerm(orient: Orientation, t: Term, order: seq<Term>): seq<Term>
    decreases Height(t) + 1, 0
  {
    KidsAreShorter(orient, t);
    if t in order then order else VisitTerms(orient, Height(t), Kids(orient, t), order) + [t]
  }

  function VisitTerms(orient: Orientation, bound: nat, todo: seq<Term>, order: seq<Term>): seq<Term>
    requires Shorter(todo, bound)
    decreases bound, |todo| + 1
  {
    if todo == [] then order
    else VisitTerms(orient, bound, todo[1..], VisitTerm(orient, todo[0], order))
  }

  /** Finished terms' arguments are finished. */
  predicate Complete(order: seq<Term>) {
    forall t :: t in order ==> forall k :: 0 <= k < |t.args| ==> t.args[k] in order
  }

  lemma {:induction false} VisitTermFacts(orient: Orientation, t: Term, order: seq<Term>)
    requires Complete(order) && Distinct(order)
    ensures var r := VisitTerm(orient, t, order);
      && Complete(r) && Distinct(r) && order <= r && t in r
      && forall u :: u in r ==> u in order || Height(u) <= Height(t)
    decreases Height(t) + 1, 0
  {
    hide Height, Kids;
    if t !in order {
      KidsAreShorter(orient, t);
      VisitTermsFacts(orient, Height(t), Kids(orient, t), order);
      var s := VisitTerms(orient, Height(t), Kids(orient, t), order);
      DistinctMore(s, t);
      ArgsAreKids(orient, t, s);
    }
  }

  lemma ArgsAreKids(orient: Orientation, t: Term, s: seq<Term>)
    requires forall k :: 0 <= k < |Kids(orient, t)| ==> Kids(orient, t)[k] in s
    ensures forall k :: 0 <= k < |t.args| ==> t.args[k] in s
  {
    forall k | 0 <= k < |t.args| ensures t.args[k] in s {
      if TermSwapped(orient, t) { assert t.args[k] == Kids(orient, t)[1 - k]; } else { assert t.args[k] == Kids(orient, t)[k]; }
    }
  }

  lemma {:induction false} VisitTermsFacts(orient: Orientation, bound: nat, todo: seq<Term>, order: seq<Term>)
    requires Shorter(todo, bound) && Complete(order) && Distinct(order)
    ensures var r := VisitTerms(orient, bound, todo, order);
      && Complete(r) && Distinct(r) && order <= r
      && (forall k :: 0 <= k < |todo| ==> todo[k] in r)
      && forall u :: u in r ==> u in order || Height(u) < bound
    decreases bound, |todo| + 1
  {
    hide Height, Kids;
    if todo != [] {
      var s := VisitTerm(orient, todo[0], order);
      VisitTermFacts(orient, todo[0], order);
      VisitTermsFacts(orient, bound, todo[1..], s);
      var r := VisitTerms(orient, bound, todo[1..], s);
      forall k | 0 <= k < |todo| ensures todo[k] in r {
        if k > 0 { assert todo[k] == todo[1..][k - 1]; } else { assert s <= r; }
      }
    }
  }

  lemma {:induction false} VisitTermsNoop(orient: Orientation, bound: nat, todo: seq<Term>, order: seq<Term>)
    requires Shorter(todo, bound) && forall k :: 0 <= k < |todo| ==> todo[k] in order
    ensures VisitTerms(orient, bound, todo, order) == order
  {
    if todo != [] { VisitTermsNoop(orient, bound, todo[1..], order); }
  }

  /** The bound only serves termination. */
  lemma {:induction false} VisitTermsBound(orient: Orientation, a: nat, b: nat, todo: seq<Term>, order: seq<Term>)
    requires Shorter(todo, a) && Shorter(todo, b)
    ensures VisitTerms(orient, a, todo, order) == VisitTerms(orient, b, todo, order)
    decreases |todo|
  {
    if todo != [] { VisitTermsBound(orient, a, b, todo[1..], VisitTerm(orient, todo[0], order)); }
  }

  /** The post-order of everything `outs` are made of. */
  function TermOrder(orient: Orientation, outs: seq<Term>): seq<Term> {
    VisitTerms(orient, Tallest(outs) + 1, outs, [])
  }

  lemma TermOrderFacts(orient: Orientation, outs: seq<Term>)
    ensures Complete(TermOrder(orient, outs)) && Distinct(TermOrder(orient, outs))
    ensures forall k :: 0 <= k < |outs| ==> outs[k] in TermOrder(orient, outs)
  {
    hide Height, Tallest;
    AllShorter(outs);
    VisitTermsFacts(orient, Tallest(outs) + 1, outs, []);
  }

  // ---- an arena's walk projects to the walk on its labels ---------------------------------------

  /** Labels under which a node's visited inputs are its label's arguments, or the node is transparent:
      it has the label of its one input. */
  predicate Labelled(orient: Orientation, w: Wiring, labels: seq<Term>)
    requires Downward(w)
  {
    |labels| == |w| && forall i :: 0 <= i < |w| ==> LabelFits(orient, w, labels, i)
  }

  predicate LabelFits(orient: Orientation, w: Wiring, labels: seq<Term>, i: nat)
    requires i < |w| == |labels| && Downward(w)
  {
    assert Below(w[i], i);
    Gather(labels, w[i]) == Kids(orient, labels[i]) || Transparent(w, labels, i)
  }

  predicate Transparent(w: Wiring, labels: seq<Term>, i: nat)
    requires i < |w| == |labels| && Downward(w)
  {
    assert Below(w[i], i);
    |w[i]| == 1 && labels[w[i][0]] == labels[i]
  }

  /** The labels of the finished nodes, each when it first appeared. */
  function Classes(labels: seq<Term>, order: seq<nat>): (r: seq<Term>)
    requires Below(order, |labels|)
  {
    if order == [] then []
    else Insert(Classes(labels, order[..|order| - 1]), labels[order[|order| - 1]])
  }

  lemma ClassesMore(labels: seq<Term>, order: seq<nat>, i: nat)
    requires Below(order, |labels|) && i < |labels|
    ensures Classes(labels, order + [i]) == Insert(Classes(labels, order), labels[i])
  {
    assert (order + [i])[..|order|] == order;
  }

  lemma {:induction false} ClassesAre(labels: seq<Term>, order: seq<nat>)
    requires Below(order, |labels|)
    ensures forall t :: t in Classes(labels, order) <==> exists p :: 0 <= p < |order| && labels[order[p]] == t
    ensures Distinct(Classes(labels, order))
  {
    if order != [] {
      var m := |order| - 1;
      ClassesAre(labels, order[..m]);
      var before := Classes(labels, order[..m]);
      if labels[order[m]] !in before { DistinctMore(before, labels[order[m]]); }
      forall t | t in before ensures exists p :: 0 <= p < |order| && labels[order[p]] == t {
        var p :| 0 <= p < m && labels[order[..m][p]] == t;
        assert order[p] == order[..m][p];
      }
      forall p | 0 <= p < |order| ensures labels[order[p]] in Classes(labels, order) {
        if p < m { assert order[..m][p] == order[p]; }
      }
    }
  }

  /** Visiting a node finishes exactly what visiting its label finishes, in the same order. */
  lemma {:induction false} VisitProjects(orient: Orientation, w: Wiring, labels: seq<Term>, i: nat, order: seq<nat>)
    requires Downward(w) && Labelled(orient, w, labels) && i < |w| && Ordered(w, order)
    requires Complete(Classes(labels, order))
    ensures Ordered(w, Visit(w, i, order))
    ensures Classes(labels, Visit(w, i, order)) == VisitTerm(orient, labels[i], Classes(labels, order))
    decreases i + 1, 0
  {
    hide Height, Kids, Classes, Complete, Distinct, Ordered, LabelFits, VisitTerm;
    VisitFacts(w, i, order);
    OrderedBelow(w, order);
    ClassesAre(labels, order);
    var seen := Classes(labels, order);
    if i in order {
      SeenLabel(orient, labels, order, i);
    } else {
      assert Below(w[i], i);
      VisitAllProjects(orient, w, labels, i, w[i], order);
      var s := VisitAll(w, i, w[i], order);
      VisitAllFacts(w, i, w[i], order);
      OrderedBelow(w, s);
      ClassesMore(labels, s, i);
      assert LabelFits(orient, w, labels, i);
      FitsEitherWay(orient, w, labels, i);
      if Gather(labels, w[i]) == Kids(orient, labels[i]) {
        FinishLabel(orient, labels[i], seen);
      } else {
        FinishTransparent(orient, w, labels, i, seen);
      }
    }
  }

  lemma FitsEitherWay(orient: Orientation, w: Wiring, labels: seq<Term>, i: nat)
    requires i < |w| == |labels| && Downward(w) && LabelFits(orient, w, labels, i)
    ensures Below(w[i], i)
    ensures Gather(labels, w[i]) == Kids(orient, labels[i]) || Transparent(w, labels, i)
  {
  }

  lemma SeenLabel(orient: Orientation, labels: seq<Term>, order: seq<nat>, i: nat)
    requires Below(order, |labels|) && i in order
    ensures i < |labels| && labels[i] in Classes(labels, order)
    ensures VisitTerm(orient, labels[i], Classes(labels, order)) == Classes(labels, order)
  {
    ClassesAre(labels, order);
    assert order[IndexOf(order, i)] == i;
  }

  /** Visiting a term's arguments and then finishing it is visiting it, also when a twin already did. */
  lemma FinishLabel(orient: Orientation, t: Term, seen: seq<Term>)
    requires Complete(seen) && Distinct(seen)
    ensures Shorter(Kids(orient, t), Tallest(Kids(orient, t)) + 1)
    ensures Insert(VisitTerms(orient, Tallest(Kids(orient, t)) + 1, Kids(orient, t), seen), t) == VisitTerm(orient, t, seen)
  {
    hide Height, Tallest, TermSwapped, Distinct, Kids, VisitTerms, Complete;
    var kids := Kids(orient, t);
    KidsAreShorter(orient, t);
    AllShorter(kids);
    VisitTermsBound(orient, Tallest(kids) + 1, Height(t), kids, seen);
    if t in seen {
      KidsSeen(orient, t, seen);
      VisitTermsNoop(orient, Height(t), kids, seen);
    } else {
      VisitTermsFacts(orient, Height(t), kids, seen);
    }
  }

  lemma KidsSeen(orient: Orientation, t: Term, seen: seq<Term>)
    requires Complete(seen) && t in seen
    ensures forall k :: 0 <= k < |Kids(orient, t)| ==> Kids(orient, t)[k] in seen
  {
  }

  lemma FinishTransparent(orient: Orientation, w: Wiring, labels: seq<Term>, i: nat, seen: seq<Term>)
    requires Downward(w) && i < |w| == |labels| && Transparent(w, labels, i) && Complete(seen) && Distinct(seen)
    ensures Below(w[i], i) && Shorter(Gather(labels, w[i]), Tallest(Gather(labels, w[i])) + 1)
    ensures Insert(VisitTerms(orient, Tallest(Gather(labels, w[i])) + 1, Gather(labels, w[i]), seen), labels[i])
         == VisitTerm(orient, labels[i], seen)
  {
    hide Height, Tallest, Kids, Distinct;
    assert Below(w[i], i);
    var todo := Gather(labels, w[i]);
    AllShorter(todo);
    assert todo == [labels[i]] && todo[1..] == [];
    VisitTermFacts(orient, labels[i], seen);
  }

  lemma {:induction false} VisitAllProjects(orient: Orientation, w: Wiring, labels: seq<Term>, bound: nat, todo: seq<nat>, order: seq<nat>)
    requires Downward(w) && Labelled(orient, w, labels) && bound <= |w| && Below(todo, bound) && Ordered(w, order)
    requires Complete(Classes(labels, order))
    ensures Ordered(w, VisitAll(w, bound, todo, order))
    ensures Shorter(Gather(labels, todo), Tallest(Gather(labels, todo)) + 1)
    ensures Classes(labels, VisitAll(w, bound, todo, order))
         == VisitTerms(orient, Tallest(Gather(labels, todo)) + 1, Gather(labels, todo), Classes(labels, order))
    decreases bound, |todo| + 1
  {
    hide Height, Kids, Classes, Complete, Distinct, Ordered, LabelFits, VisitTerm, Tallest;
    var ts := Gather(labels, todo);
    OrderedBelow(w, order);
    AllShorter(ts);
    if todo != [] {
      VisitProjects(orient, w, labels, todo[0], order);
      var s := Visit(w, todo[0], order);
      OrderedBelow(w, s);
      ClassesAre(labels, order);
      VisitTermFacts(orient, labels[todo[0]], Classes(labels, order));
      VisitAllProjects(orient, w, labels, bound, todo[1..], s);
      assert Gather(labels, todo[1..]) == ts[1..];
      AllShorter(ts[1..]);
      VisitTermsBound(orient, Tallest(ts[1..]) + 1, Tallest(ts) + 1, ts[1..], Classes(labels, s));
    }
  }

  /** The labels of an arena's post-order, each when first met, are the term order of its outputs. */
  lemma {:induction false} PostOrderProjects(orient: Orientation, w: Wiring, labels: seq<Term>, outputs: seq<nat>)
    requires Downward(w) && Labelled(orient, w, labels) && Below(outputs, |w|)
    ensures Ordered(w, PostOrder(w, outputs))
    ensures Classes(labels, PostOrder(w, outputs)) == TermOrder(orient, Gather(labels, outputs))
  {
    VisitAllProjects(orient, w, labels, |w|, outputs, []);
  }
}
