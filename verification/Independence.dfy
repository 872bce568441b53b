/** Cones do not depend on recording order (src/optimizer/mod.rs). */
module Independence {
  import opened Collections
  import opened Nodes
  import opened Graph
  import opened Walk
  import opened Dce
  import opened Congruence
  import opened Components
  import opened Fusion
  import opened Reduce
  import opened TermWalk

  /** The graph of a complete list of terms, each reading its arguments where they are listed. */
  function TermGraph(orient: Orientation, ts: seq<Term>): (g: seq<EngineNode>)
    requires Complete(ts)
    ensures |g| == |ts|
  {
    seq(|ts|, p requires 0 <= p < |ts| => TermNode(orient, ts, ts[p]))
  }

  function TermNode(orient: Orientation, ts: seq<Term>, t: Term): EngineNode
    requires Complete(ts) && t in ts
  {
    var kids := Kids(orient, t);
    EngineNode(t.token, BoundaryFromToken(t.token), Places(ts, kids))
  }

  /** Where `xs` are listed. */
  function Places(ts: seq<Term>, xs: seq<Term>): (r: seq<nat>)
    requires forall k :: 0 <= k < |xs| ==> xs[k] in ts
    ensures |r| == |xs|
    ensures forall k :: 0 <= k < |xs| ==> r[k] == IndexOf(ts, xs[k])
  {
    seq(|xs|, k requires 0 <= k < |xs| => IndexOf(ts, xs[k]))
  }

  function PlaceOf(ts: seq<Term>, t: Term): Option<nat> {
    if t in ts then Some(IndexOf(ts, t)) else None
  }

  ghost function SwapsFor(orient: Orientation, nodes: seq<NodeKey>): (s: Swaps)
    requires Arena(nodes)
    ensures Fits(nodes, s)
  {
    match orient case None => None case Some(hash) => Some(SwapsOf(hash, nodes))
  }

  /** What every node of an arena denotes. */
  function Denotes(nodes: seq<NodeKey>): (ts: seq<Term>)
    requires Arena(nodes)
    ensures |ts| == |nodes|
  {
    Terms(ToEngine(nodes))
  }

  lemma DenotesAt(nodes: seq<NodeKey>, i: nat)
    requires Arena(nodes) && i < |nodes|
    ensures Below(nodes[i].Inputs(), |nodes|)
    ensures Denotes(nodes)[i] == Term(nodes[i].Token(), Gather(Denotes(nodes), nodes[i].Inputs()))
  {
    hide NodeKey.Token, Fold;
    FoldIsFold(MkTerm(), ToEngine(nodes));
    assert ToEngine(nodes)[i] == ToEngineNode(nodes[i]);
    assert Below(nodes[i].Inputs(), i);
  }

  /** Distinct nodes of an interned arena denote distinct terms. */
  lemma {:induction false} DenotesInjective(nodes: seq<NodeKey>, i: nat, j: nat)
    requires Interned(nodes) && i < |nodes| && j < |nodes| && Denotes(nodes)[i] == Denotes(nodes)[j]
    ensures i == j
    decreases i
  {
    hide NodeKey.Token, Denotes, Distinct;
    DenotesAt(nodes, i);
    DenotesAt(nodes, j);
    assert Below(nodes[i].Inputs(), i);
    var a, b := nodes[i].Inputs(), nodes[j].Inputs();
    var ts := Denotes(nodes);
    assert |Gather(ts, a)| == |Gather(ts, b)|;
    forall k | 0 <= k < |a| ensures a[k] == b[k] {
      assert Gather(ts, a)[k] == Gather(ts, b)[k];
      DenotesInjective(nodes, a[k], b[k]);
    }
    KeyIsTokenAndInputs(nodes[i], nodes[j]);
    if i < j { DistinctPair(nodes, i, j); } else if j < i { DistinctPair(nodes, j, i); }
  }

  /** A node is swapped exactly when the term it denotes is. */
  lemma {:induction false} SwapIsTermSwap(hash: Hash, nodes: seq<NodeKey>, i: nat)
    requires Arena(nodes) && i < |nodes|
    ensures SwapsOf(hash, nodes)[i] <==> TermSwapped(Some(hash), Denotes(nodes)[i])
  {
    hide NodeKey.Token, Fold, Denotes, Eval;
    DenotesAt(nodes, i);
    KeysOfDenoted(hash, nodes);
    SymmetricIsCommuting(nodes[i]);
    var ks := InputKeys(hash, nodes, i);
    var t := Denotes(nodes)[i];
    forall k | 0 <= k < |ks| ensures ks[k] == TermKey(hash, t.args[k]) {
      assert Gather(Denotes(nodes), nodes[i].Inputs())[k] == t.args[k];
    }
  }

  lemma {:induction false} KeysOfDenoted(hash: Hash, nodes: seq<NodeKey>)
    requires Arena(nodes)
    ensures forall i :: 0 <= i < |nodes| ==> Keys(hash, ToEngine(nodes))[i] == TermKey(hash, Denotes(nodes)[i])
  {
    hide NodeKey.Token, Fold, Eval;
    FoldEvaluates(KeyOp(hash), ToEngine(nodes));
  }

  /** What the nodes denote labels the walk of the arena. */
  lemma {:induction false} DenotesLabels(orient: Orientation, nodes: seq<NodeKey>, i: nat)
    requires Arena(nodes) && i < |nodes|
    ensures var w := Wires(nodes, SwapsFor(orient, nodes));
      Below(w[i], i) && Gather(Denotes(nodes), w[i]) == Kids(orient, Denotes(nodes)[i])
  {
    hide NodeKey.Token, Fold, Denotes, SwapsOf, TermSwapped;
    var swap := SwapsFor(orient, nodes);
    var w := Wires(nodes, swap);
    assert Below(w[i], i);
    DenotesAt(nodes, i);
    NeverSwapped(Denotes(nodes)[i]);
    if orient.Some? { SwapIsTermSwap(orient.value, nodes, i); }
    var swapped := swap.Some? && swap.value[i];
    assert swapped <==> TermSwapped(orient, Denotes(nodes)[i]);
    assert w[i] == Operands(nodes[i].Inputs(), swapped);
  }

  lemma NeverSwapped(t: Term)
    ensures !TermSwapped(None, t)
  {
  }

  // ---- the cone is the graph of its terms -------------------------------------------------------

  lemma {:induction false} IndexThroughLabels(labels: seq<Term>, order: seq<nat>, x: nat)
    requires Below(order, |labels|) && Distinct(Gather(labels, order)) && x in order
    ensures x < |labels| && labels[x] in Gather(labels, order)
    ensures IndexOf(Gather(labels, order), labels[x]) == IndexOf(order, x)
  {
    var p := IndexOf(order, x);
    IndexOfAt(Gather(labels, order), p);
  }

  /** With distinct labels, the classes are the labels. */
  lemma LabelIsNew(labels: seq<Term>, order: seq<nat>, i: nat)
    requires Below(order, |labels|) && i < |labels| && i !in order
    requires forall i, j :: 0 <= i < |labels| && 0 <= j < |labels| && labels[i] == labels[j] ==> i == j
    ensures labels[i] !in Gather(labels, order)
  {
    forall k | 0 <= k < |order| ensures Gather(labels, order)[k] != labels[i] { assert order[k] in order; }
  }

  lemma {:induction false} ClassesOfDistinct(labels: seq<Term>, order: seq<nat>)
    requires Below(order, |labels|) && Distinct(order)
    requires forall i, j :: 0 <= i < |labels| && 0 <= j < |labels| && labels[i] == labels[j] ==> i == j
    ensures Classes(labels, order) == Gather(labels, order)
  {
    if order != [] {
      var m := |order| - 1;
      assert Distinct(order[..m]) && order[m] !in order[..m];
      hide Distinct;
      ClassesOfDistinct(labels, order[..m]);
      LabelIsNew(labels, order[..m], order[m]);
      assert Gather(labels, order) == Gather(labels, order[..m]) + [labels[order[m]]];
    }
  }

  /** Kept node `p` is the graph's node for the term it denotes. */
  lemma KeptIsTermNode(orient: Orientation, nodes: seq<NodeKey>, order: seq<nat>, p: nat)
    requires Arena(nodes) && Ordered(Wires(nodes, SwapsFor(orient, nodes)), order) && p < |order|
    requires Distinct(Gather(Denotes(nodes), order)) && Complete(Gather(Denotes(nodes), order))
    ensures ToEngineNode(KeptNodes(nodes, Wires(nodes, SwapsFor(orient, nodes)), order)[p])
         == TermNode(orient, Gather(Denotes(nodes), order), Denotes(nodes)[order[p]])
  {
    hide NodeKey.Token, NodeKey.IsBoundary, BoundaryFromToken, Fold, Denotes, SwapsFor, Wires, Distinct, Kids, KeptNodes, Gather, Ordered;
    var w := Wires(nodes, SwapsFor(orient, nodes));
    OrderedBelow(w, order);
    var i := order[p];
    KeptAt(nodes, w, order, p);
    var ins := Renumber(order, w[i]);
    assert Gather(Denotes(nodes), order)[p] == Denotes(nodes)[i];
    KeptPlaces(orient, nodes, order, i);
    RebuiltParts(orient, nodes, i, ins);
  }

  /** Node `i` over other inputs: its term's operator, and those inputs. */
  lemma RebuiltParts(orient: Orientation, nodes: seq<NodeKey>, i: nat, ins: seq<nat>)
    requires Arena(nodes) && i < |nodes| && |ins| == |Wires(nodes, SwapsFor(orient, nodes))[i]|
    ensures var key := nodes[i].WithInputs(ins);
      && key.Token() == Denotes(nodes)[i].token
      && key.IsBoundary() == BoundaryFromToken(Denotes(nodes)[i].token)
      && key.Inputs() == ins
  {
    hide NodeKey.Token, BoundaryFromToken, Fold, Denotes, SwapsFor, Wires;
    DenotesAt(nodes, i);
    SameOperatorSameToken(nodes[i], ins);
    BoundaryTokens(nodes[i]);
    KeptSource(orient, nodes, i);
  }

  /** A kept node's inputs are where its term's arguments are listed. */
  lemma KeptPlaces(orient: Orientation, nodes: seq<NodeKey>, order: seq<nat>, i: nat)
    requires Arena(nodes) && Below(order, |nodes|) && i < |nodes|
    requires Distinct(Gather(Denotes(nodes), order)) && Complete(Gather(Denotes(nodes), order)) && i in order
    requires AllIn(Wires(nodes, SwapsFor(orient, nodes))[i], order)
    ensures Denotes(nodes)[i] in Gather(Denotes(nodes), order)
    ensures Renumber(order, Wires(nodes, SwapsFor(orient, nodes))[i])
         == Places(Gather(Denotes(nodes), order), Kids(orient, Denotes(nodes)[i]))
  {
    hide NodeKey.Token, Fold, Denotes, SwapsFor, Wires, Distinct, Kids;
    var w := Wires(nodes, SwapsFor(orient, nodes));
    var labels := Denotes(nodes);
    var ts := Gather(labels, order);
    DenotesLabels(orient, nodes, i);
    assert ts[IndexOf(order, i)] == labels[i];
    var kids := Kids(orient, labels[i]);
    var ins := Renumber(order, w[i]);
    assert |kids| == |Gather(labels, w[i])| == |ins|;
    forall k | 0 <= k < |ins| ensures kids[k] in ts && ins[k] == IndexOf(ts, kids[k]) {
      IndexThroughLabels(labels, order, w[i][k]);
      assert Gather(labels, w[i])[k] == kids[k];
    }
  }

  lemma KeptSource(orient: Orientation, nodes: seq<NodeKey>, i: nat)
    requires Arena(nodes) && i < |nodes|
    ensures nodes[i].Source? ==> Wires(nodes, SwapsFor(orient, nodes))[i] == []
  {
  }

  /** The cone of an interned arena: the graph of its term order, its outputs and placed nodes where
      their terms are listed. */
  lemma {:induction false} ConeIsTermGraph(orient: Orientation, nodes: seq<NodeKey>, outputs: seq<nat>)
    requires Interned(nodes) && Below(outputs, |nodes|)
    ensures var labels := Denotes(nodes);
      var ts := TermOrder(orient, Gather(labels, outputs));
      var cone := ConeOf(nodes, outputs, SwapsFor(orient, nodes));
      && Complete(ts) && Distinct(ts) && |cone.remap| == |nodes|
      && ToEngine(cone.nodes) == TermGraph(orient, ts)
      && (forall k :: 0 <= k < |outputs| ==> labels[outputs[k]] in ts)
      && cone.outputs == Places(ts, Gather(labels, outputs))
      && forall i :: 0 <= i < |nodes| ==> cone.remap[i] == PlaceOf(ts, labels[i])
  {
    hide NodeKey.Token, Fold, Denotes, SwapsFor, Wires, Distinct, Kids, KeptNodes, Interned, Ordered, Classes, TermNode;
    InternedIsArena(nodes);
    var swap := SwapsFor(orient, nodes);
    var w := Wires(nodes, swap);
    var labels := Denotes(nodes);
    var order := PostOrder(w, outputs);
    var ts := OrderOfTerms(orient, nodes, outputs);
    KeptIsArena(nodes, w, order);
    var cone := ConeOf(nodes, outputs, swap);
    assert cone.nodes == KeptNodes(nodes, w, order);
    OrderedBelow(w, order);
    forall p | 0 <= p < |order| ensures ToEngine(cone.nodes)[p] == TermGraph(orient, ts)[p] {
      KeptIsTermNode(orient, nodes, order, p);
    }
    assert ToEngine(cone.nodes) == TermGraph(orient, ts);
    VisitAllFacts(w, |w|, outputs, []);
    forall k | 0 <= k < |outputs| ensures labels[outputs[k]] in ts && IndexOf(ts, labels[outputs[k]]) == cone.outputs[k] {
      assert outputs[k] in order;
      IndexThroughLabels(labels, order, outputs[k]);
    }
    forall i | 0 <= i < |nodes| ensures cone.remap[i] == PlaceOf(ts, labels[i]) {
      PlacedByTerm(nodes, order, i);
    }
  }

  lemma InternedIsArena(nodes: seq<NodeKey>)
    requires Interned(nodes)
    ensures Arena(nodes)
  {
  }

  lemma PlacedByTerm(nodes: seq<NodeKey>, order: seq<nat>, i: nat)
    requires Interned(nodes) && Below(order, |nodes|) && Distinct(Gather(Denotes(nodes), order)) && i < |nodes|
    ensures Position(order, i) == PlaceOf(Gather(Denotes(nodes), order), Denotes(nodes)[i])
  {
    hide NodeKey.Token, Fold, Denotes, Distinct;
    var labels := Denotes(nodes);
    var ts := Gather(labels, order);
    if i in order {
      IndexThroughLabels(labels, order, i);
    } else if labels[i] in ts {
      var p := IndexOf(ts, labels[i]);
      DenotesInjective(nodes, i, order[p]);
    }
  }

  /** An interned arena's post-order, read as terms, is the term order of its outputs. */
  lemma {:induction false} OrderOfTerms(orient: Orientation, nodes: seq<NodeKey>, outputs: seq<nat>) returns (ts: seq<Term>)
    requires Interned(nodes) && Below(outputs, |nodes|)
    ensures ts == TermOrder(orient, Gather(Denotes(nodes), outputs)) && Complete(ts) && Distinct(ts)
    ensures var order := PostOrder(Wires(nodes, SwapsFor(orient, nodes)), outputs);
      && Ordered(Wires(nodes, SwapsFor(orient, nodes)), order) && Below(order, |nodes|)
      && ts == Gather(Denotes(nodes), order)
  {
    hide NodeKey.Token, Fold, Denotes, SwapsFor, Wires, Distinct, Kids, Classes, Height, Tallest;
    InternedIsArena(nodes);
    var w := Wires(nodes, SwapsFor(orient, nodes));
    var labels := Denotes(nodes);
    forall i | 0 <= i < |w| ensures LabelFits(orient, w, labels, i) {
      DenotesLabels(orient, nodes, i);
    }
    PostOrderProjects(orient, w, labels, outputs);
    var order := PostOrder(w, outputs);
    forall i, j | 0 <= i < |labels| && 0 <= j < |labels| && labels[i] == labels[j] ensures i == j {
      DenotesInjective(nodes, i, j);
    }
    ClassesOfDistinct(labels, order);
    TermOrderFacts(orient, Gather(labels, outputs));
    ts := TermOrder(orient, Gather(labels, outputs));
  }

  // ---- recording order --------------------------------------------------------------------------

  /** Requests of two stores that ask for the same terms. */
  ghost predicate SameRequest(nodes: seq<NodeKey>, outputs: seq<nat>, nodes': seq<NodeKey>, outputs': seq<nat>) {
    && Interned(nodes) && Below(outputs, |nodes|) && Interned(nodes') && Below(outputs', |nodes'|)
    && Gather(Denotes(nodes), outputs) == Gather(Denotes(nodes'), outputs')
  }

  lemma SameEngineSameKeys(a: seq<NodeKey>, b: seq<NodeKey>)
    requires ToEngine(a) == ToEngine(b)
    ensures a == b
  {
    hide NodeKey.Token;
    assert |a| == |ToEngine(a)| == |b|;
    forall i | 0 <= i < |a| ensures a[i] == b[i] {
      assert ToEngineNode(a[i]) == ToEngine(a)[i] == ToEngine(b)[i] == ToEngineNode(b[i]);
      KeyIsTokenAndInputs(a[i], b[i]);
    }
  }

  /** However the two stores were filled, and whatever else they hold, their cones are identical, node
      for node, and nodes that denote one term are placed alike. */
  lemma {:induction false} ConeIgnoresRecordingOrder(orient: Orientation, nodes: seq<NodeKey>, outputs: seq<nat>,
                                                     nodes': seq<NodeKey>, outputs': seq<nat>)
    requires SameRequest(nodes, outputs, nodes', outputs')
    ensures var c, d := ConeOf(nodes, outputs, SwapsFor(orient, nodes)), ConeOf(nodes', outputs', SwapsFor(orient, nodes'));
      && c.nodes == d.nodes && c.outputs == d.outputs && |c.remap| == |nodes| && |d.remap| == |nodes'|
      && forall i, j :: 0 <= i < |nodes| && 0 <= j < |nodes'| && Denotes(nodes)[i] == Denotes(nodes')[j] ==>
           c.remap[i] == d.remap[j]
  {
    hide NodeKey.Token, Fold, Denotes, SwapsFor, Distinct, TermGraph, ConeOf, Interned, TermOrder;
    InternedIsArena(nodes);
    InternedIsArena(nodes');
    ConeIsTermGraph(orient, nodes, outputs);
    ConeIsTermGraph(orient, nodes', outputs');
    SameEngineSameKeys(ConeOf(nodes, outputs, SwapsFor(orient, nodes)).nodes,
                       ConeOf(nodes', outputs', SwapsFor(orient, nodes')).nodes);
  }

  /** So are their reductions: one list of nodes, one list of outputs, and one landing per term, hence
      one serialization. */
  lemma {:induction false} ReductionIgnoresRecordingOrder(hash: Hash, nodes: seq<NodeKey>, outputs: seq<nat>, nodes': seq<NodeKey>,
                                                          outputs': seq<nat>, engine: Engine, mode: FusionMode)
    requires SameRequest(nodes, outputs, nodes', outputs') && Total(engine)
    ensures var r := ReducedGraph(nodes, outputs, Some(SwapsOf(hash, nodes)), engine, mode);
      var s := ReducedGraph(nodes', outputs', Some(SwapsOf(hash, nodes')), engine, mode);
      && r.nodes == s.nodes && r.outputs == s.outputs
      && forall i, j :: 0 <= i < |nodes| && 0 <= j < |nodes'| && Denotes(nodes)[i] == Denotes(nodes')[j] ==>
           r.nodeMap[i] == s.nodeMap[j]
  {
    hide NodeKey.Token, Fold, Denotes, Distinct, ConeOf, Canonical, Heads, FusedNodes, TemplatesOf, LandingOf;
    ConeIgnoresRecordingOrder(Some(hash), nodes, outputs, nodes', outputs');
    ConeFacts(nodes, outputs, SwapsFor(Some(hash), nodes));
    ConeFacts(nodes', outputs', SwapsFor(Some(hash), nodes'));
  }

  // ---- taking the cone twice --------------------------------------------------------------------

  /** The cone of an interned arena is interned and asks for the same terms, so taking it again changes
      nothing. */
  lemma {:induction false} ConeIsIdempotent(nodes: seq<NodeKey>, outputs: seq<nat>)
    requires Interned(nodes) && Below(outputs, |nodes|)
    ensures var c := ConeOf(nodes, outputs, None);
      && Interned(c.nodes) && Below(c.outputs, |c.nodes|)
      && ConeOf(c.nodes, c.outputs, None).nodes == c.nodes && ConeOf(c.nodes, c.outputs, None).outputs == c.outputs
  {
    hide NodeKey.Token, Fold, Distinct, ConeOf, Interned;
    InternedIsArena(nodes);
    var c := ConeOf(nodes, outputs, None);
    ConeAsksTheSame(nodes, outputs);
    ConeIgnoresRecordingOrder(None, nodes, outputs, c.nodes, c.outputs);
  }

  lemma {:induction false} ConeAsksTheSame(nodes: seq<NodeKey>, outputs: seq<nat>)
    requires Interned(nodes) && Below(outputs, |nodes|)
    ensures SameRequest(nodes, outputs, ConeOf(nodes, outputs, None).nodes, ConeOf(nodes, outputs, None).outputs)
  {
    hide NodeKey.Token, Fold, Distinct, Interned, KeptNodes, Ordered;
    InternedIsArena(nodes);
    var w := Wires(nodes, None);
    var order := PostOrder(w, outputs);
    var c := ConeOf(nodes, outputs, None);
    VisitAllFacts(w, |w|, outputs, []);
    OrderedBelow(w, order);
    KeptFold(MkTerm(), nodes, None, order);
    ConeFacts(nodes, outputs, None);
    assert Denotes(c.nodes) == Gather(Denotes(nodes), order);
    RenumberGathers(Denotes(nodes), order, outputs);
    var ts := OrderOfTerms(None, nodes, outputs);
    DistinctDenotes(c.nodes);
  }

  lemma {:induction false} DistinctDenotes(nodes: seq<NodeKey>)
    requires Arena(nodes) && Distinct(Denotes(nodes))
    ensures Interned(nodes)
  {
    hide NodeKey.Token, Fold, Denotes, Distinct;
    forall i, j | 0 <= i < j < |nodes| ensures nodes[i] != nodes[j] {
      DenotesAt(nodes, i);
      DenotesAt(nodes, j);
      DistinctPair(Denotes(nodes), i, j);
    }
    DistinctFromPairs(nodes);
  }
}
