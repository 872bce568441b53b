/** The incremental and the one-shot path build one graph (src/optimizer/incremental.rs). */
module Agreement {
  import opened Collections
  import opened Nodes
  import opened Graph
  import opened Walk
  import opened Dce
  import opened Semantics
  import opened Congruence
  import opened Merge
  import opened Components
  import opened Fusion
  import opened Reduce
  import opened Store
  import opened Pipeline
  import opened TermWalk
  import opened Independence
  import opened Incremental
  import opened Canonicity
  import Codec

  // ---- a quotient by exact classes is the graph of its labels -----------------------------------

  /** Node `p` of a cone reads its inputs where the walk finished them, and is either transparent or
      its label's operator over its label's arguments. */
  ghost predicate Carries(w: Wiring, labels: seq<Term>, order: seq<nat>, g: seq<EngineNode>, p: nat)
    requires Downward(w) && |labels| == |w| && Ordered(w, order) && |g| == |order| && p < |order|
  {
    var i := order[p];
    assert Fed(w, order, p);
    assert Below(w[i], i);
    && AllIn(w[i], order[..p])
    && AllIn(w[i], order)
    && g[p].inputs == Renumber(order, w[i])
    && (Transparent(w, labels, i) || (g[p].token == labels[i].token && Gather(labels, w[i]) == labels[i].args))
  }

  /** The classes of the cone's nodes are their labels. */
  ghost predicate ClassedByLabel(labels: seq<Term>, order: seq<nat>, canon: seq<nat>)
    requires Below(order, |labels|)
  {
    |canon| == |order| && forall p, q :: 0 <= p < |order| && 0 <= q < |order| ==>
      (canon[p] == canon[q] <==> labels[order[p]] == labels[order[q]])
  }

  ghost predicate Carried(w: Wiring, labels: seq<Term>, order: seq<nat>, g: seq<EngineNode>) {
    && Downward(w) && |labels| == |w| && Ordered(w, order) && |g| == |order| && Topological(g)
    && forall p :: 0 <= p < |order| ==> Carries(w, labels, order, g, p)
  }

  /** The labels met by the first `m` nodes. */
  function Met(labels: seq<Term>, order: seq<nat>, m: nat): seq<Term>
    requires Below(order, |labels|) && m <= |order|
  {
    Classes(labels, order[..m])
  }

  lemma MetMore(labels: seq<Term>, order: seq<nat>, m: nat)
    requires Below(order, |labels|) && m < |order|
    ensures Met(labels, order, m + 1) == Insert(Met(labels, order, m), labels[order[m]])
  {
    TakeMore(order, m);
    ClassesMore(labels, order[..m], order[m]);
  }

  lemma MetAre(labels: seq<Term>, order: seq<nat>, m: nat)
    requires Below(order, |labels|) && m <= |order|
    ensures Distinct(Met(labels, order, m))
    ensures forall p :: 0 <= p < m ==> labels[order[p]] in Met(labels, order, m)
    ensures forall t :: t in Met(labels, order, m) ==> exists p :: 0 <= p < m && labels[order[p]] == t
  {
    hide Distinct;
    ClassesAre(labels, order[..m]);
    forall p | 0 <= p < m ensures labels[order[p]] in Met(labels, order, m) {
      assert order[..m][p] == order[p];
    }
    forall t | t in Met(labels, order, m) ensures exists p :: 0 <= p < m && labels[order[p]] == t {
      var p :| 0 <= p < m && labels[order[..m][p]] == t;
      assert order[..m][p] == order[p];
    }
  }

  /** A node whose label is new is not transparent, and its label's arguments were met before it. */
  lemma NewLabel(w: Wiring, labels: seq<Term>, order: seq<nat>, g: seq<EngineNode>, m: nat)
    requires Carried(w, labels, order, g) && m < |order|
    requires labels[order[m]] !in Met(labels, order, m)
    ensures Below(w[order[m]], |w|) && g[m].token == labels[order[m]].token
    ensures Gather(labels, w[order[m]]) == labels[order[m]].args
    ensures AllIn(w[order[m]], order[..m])
    ensures forall k :: 0 <= k < |labels[order[m]].args| ==> labels[order[m]].args[k] in Met(labels, order, m)
  {
    hide Distinct, Met;
    MetAre(labels, order, m);
    assert Carries(w, labels, order, g, m);
    var i := order[m];
    assert Below(w[i], i);
    forall k | 0 <= k < |w[i]| ensures labels[w[i][k]] in Met(labels, order, m) {
      var p := IndexOf(order[..m], w[i][k]);
      assert order[p] == w[i][k];
    }
    assert forall k :: 0 <= k < |w[i]| ==> Gather(labels, w[i])[k] == labels[w[i][k]];
  }

  /** One more label changes no node of the graph of the labels before it. */
  lemma TermGraphMore(ts: seq<Term>, t: Term)
    requires Complete(ts) && t !in ts && forall k :: 0 <= k < |t.args| ==> t.args[k] in ts
    ensures Complete(ts + [t])
    ensures TermGraph(None, ts + [t]) == TermGraph(None, ts) + [EngineNode(t.token, BoundaryFromToken(t.token), Places(ts, t.args))]
  {
    var more := ts + [t];
    assert more[..|ts|] == ts;
    forall u | u in ts ensures IndexOf(more, u) == IndexOf(ts, u) { IndexOfPrefix(more, |ts|, u); }
    forall p | 0 <= p < |ts| ensures TermNode(None, more, more[p]) == TermNode(None, ts, ts[p]) {
      assert Places(more, ts[p].args) == Places(ts, ts[p].args);
    }
    assert Places(more, t.args) == Places(ts, t.args);
  }

  lemma PlacesPrefix(ts: seq<Term>, t: Term, u: Term)
    requires u in ts
    ensures u in Insert(ts, t) && IndexOf(Insert(ts, t), u) == IndexOf(ts, u)
  {
    if t !in ts {
      assert (ts + [t])[..|ts|] == ts;
      IndexOfPrefix(ts + [t], |ts|, u);
    }
  }

  /** Extraction of the first `m` nodes is the graph of the labels they met, every node sent to its label. */
  ghost predicate ExtractsTo(labels: seq<Term>, order: seq<nat>, c: Merged, m: nat)
    requires Below(order, |labels|) && m <= |order|
  {
    && Complete(Met(labels, order, m)) && |c.remap| == m
    && c.nodes == TermGraph(None, Met(labels, order, m))
    && forall q :: 0 <= q < m ==> PlaceOf(Met(labels, order, m), labels[order[q]]) == Some(c.remap[q])
  }

  lemma {:induction false} ExtractionIsTermGraph(w: Wiring, labels: seq<Term>, order: seq<nat>, g: seq<EngineNode>, canon: seq<nat>, m: nat)
    requires Carried(w, labels, order, g) && ClassedByLabel(labels, order, canon) && m <= |order|
    ensures ExtractsTo(labels, order, Extracted(g, canon, m), m)
  {
    hide Distinct, Carries, TermGraph, ExtractsTo, Ordered, Complete;
    OrderedBelow(w, order);
    if m == 0 {
      NothingExtracted(labels, order);
    } else {
      var i := m - 1;
      ExtractionIsTermGraph(w, labels, order, g, canon, i);
      var c := Extracted(g, canon, i);
      SameClassMet(labels, order, canon, i);
      if canon[i] in canon[..i] {
        OntoExtracts(labels, order, canon, c, i);
      } else {
        CopyExtracts(w, labels, order, g, canon, c, i);
      }
    }
  }

  lemma NothingExtracted(labels: seq<Term>, order: seq<nat>)
    requires Below(order, |labels|)
    ensures ExtractsTo(labels, order, Merged([], [], []), 0)
  {
  }

  lemma SameClassMet(labels: seq<Term>, order: seq<nat>, canon: seq<nat>, i: nat)
    requires Below(order, |labels|) && ClassedByLabel(labels, order, canon) && i < |order|
    ensures canon[i] in canon[..i] <==> labels[order[i]] in Met(labels, order, i)
  {
    hide Distinct, Met;
    MetAre(labels, order, i);
    if labels[order[i]] in Met(labels, order, i) {
      var p :| 0 <= p < i && labels[order[p]] == labels[order[i]];
      assert canon[..i][p] == canon[p];
    }
  }

  lemma OntoExtracts(labels: seq<Term>, order: seq<nat>, canon: seq<nat>, c: Merged, i: nat)
    requires Below(order, |labels|) && ClassedByLabel(labels, order, canon) && i < |order|
    requires ExtractsTo(labels, order, c, i) && canon[i] in canon[..i]
    ensures ExtractsTo(labels, order, Onto(c, c.remap[IndexOf(canon[..i], canon[i])]), i + 1)
  {
    hide Distinct, Complete, Met, TermGraph;
    var j := IndexOf(canon[..i], canon[i]);
    assert canon[j] == canon[i];
    MetAre(labels, order, i);
    MetMore(labels, order, i);
  }

  lemma CopyExtracts(w: Wiring, labels: seq<Term>, order: seq<nat>, g: seq<EngineNode>, canon: seq<nat>, c: Merged, i: nat)
    requires Carried(w, labels, order, g) && i < |order| && labels[order[i]] !in Met(labels, order, i)
    requires ExtractsTo(labels, order, c, i)
    ensures Below(g[i].inputs, |c.remap|)
    ensures ExtractsTo(labels, order,
      Copying(c, EngineNode(g[i].token, BoundaryFromToken(g[i].token), Gather(c.remap, g[i].inputs)), i), i + 1)
  {
    hide Distinct, Met, TermGraph, Ordered, Complete;
    OrderedBelow(w, order);
    var met := Met(labels, order, i);
    var t := labels[order[i]];
    assert Below(g[i].inputs, i);
    NewLabel(w, labels, order, g, i);
    InputsPlaced(w, labels, order, g, c, i);
    MetMore(labels, order, i);
    TermGraphMore(met, t);
    var d := Copying(c, EngineNode(g[i].token, BoundaryFromToken(g[i].token), Gather(c.remap, g[i].inputs)), i);
    forall q | 0 <= q < i + 1 ensures PlaceOf(Met(labels, order, i + 1), labels[order[q]]) == Some(d.remap[q]) {
      if q < i {
        PlacesPrefix(met, t, labels[order[q]]);
      } else {
        LastPlace(met, t);
        assert |c.nodes| == |met|;
      }
    }
  }

  lemma LastPlace(ts: seq<Term>, t: Term)
    requires t !in ts
    ensures IndexOf(ts + [t], t) == |ts|
  {
    assert (ts + [t])[..|ts|] == ts;
  }

  /** The extracted node's inputs are where its label's arguments were put. */
  lemma InputsPlaced(w: Wiring, labels: seq<Term>, order: seq<nat>, g: seq<EngineNode>, c: Merged, i: nat)
    requires Carried(w, labels, order, g) && i < |order| && labels[order[i]] !in Met(labels, order, i)
    requires ExtractsTo(labels, order, c, i)
    ensures Below(g[i].inputs, i)
    ensures forall k :: 0 <= k < |labels[order[i]].args| ==> labels[order[i]].args[k] in Met(labels, order, i)
    ensures Gather(c.remap, g[i].inputs) == Places(Met(labels, order, i), labels[order[i]].args)
  {
    hide Distinct, Met, TermGraph, Complete;
    OrderedBelow(w, order);
    assert Below(g[i].inputs, i);
    NewLabel(w, labels, order, g, i);
    assert Carries(w, labels, order, g, i);
    var ins := w[order[i]];
    var args := labels[order[i]].args;
    forall k | 0 <= k < |ins| ensures c.remap[g[i].inputs[k]] == IndexOf(Met(labels, order, i), args[k]) {
      var q := g[i].inputs[k];
      assert q == IndexOf(order, ins[k]) && order[q] == ins[k];
      assert args[k] == Gather(labels, ins)[k] == labels[ins[k]];
      assert PlaceOf(Met(labels, order, i), labels[order[q]]) == Some(c.remap[q]);
    }
  }

  // ---- the labels of the two paths --------------------------------------------------------------

  /** Each recorded node labelled with what its canonical node denotes. */
  function RecordLabels(c: Canon): (labels: seq<Term>)
    requires Shaped(c) && Arena(c.nodes)
    ensures |labels| == |c.map_|
  {
    Gather(Denotes(c.nodes), c.map_)
  }

  lemma {:induction false} RecordLabelAt(hash: Hash, nodes: seq<NodeKey>, c: Canon, i: nat)
    requires Arena(nodes) && Tracks(hash, nodes, c, |nodes|) && Arena(c.nodes) && i < |nodes|
    ensures var w := Wires(nodes, Some(SwapsOf(hash, nodes))); var labels := RecordLabels(c);
      && Below(w[i], i)
      && (Transparent(w, labels, i)
          || (nodes[i].Token() == labels[i].token && Gather(labels, w[i]) == labels[i].args))
  {
    hide NodeKey.Token, Keys, Distinct, CanonicalNode, Denotes, SwapsOf;
    var w := Wires(nodes, Some(SwapsOf(hash, nodes)));
    assert Below(w[i], i);
    assert WentTo(nodes, w, c, i);
    if !IsIdentityNode(nodes[i]) {
      DenotesAt(c.nodes, c.map_[i]);
      SameOperatorSameToken(nodes[i], Gather(c.map_, w[i]));
      GatherGather(Denotes(c.nodes), c.map_, w[i]);
      WiredSource(nodes, hash, i);
    }
  }

  lemma WiredSource(nodes: seq<NodeKey>, hash: Hash, i: nat)
    requires Arena(nodes) && i < |nodes|
    ensures nodes[i].Source? ==> Wires(nodes, Some(SwapsOf(hash, nodes)))[i] == []
  {
  }

  lemma {:induction false} KeptCarries(nodes: seq<NodeKey>, swap: Swaps, labels: seq<Term>, order: seq<nat>)
    requires Arena(nodes) && Fits(nodes, swap) && |labels| == |nodes| && Ordered(Wires(nodes, swap), order)
    requires forall i :: 0 <= i < |nodes| ==> FitsNode(nodes, swap, labels, i)
    ensures Carried(Wires(nodes, swap), labels, order, ToEngine(KeptNodes(nodes, Wires(nodes, swap), order)))
  {
    hide NodeKey.Token, Distinct, KeptNodes, Wires;
    var w := Wires(nodes, swap);
    var kept := KeptNodes(nodes, w, order);
    KeptIsArena(nodes, w, order);
    OrderedBelow(w, order);
    forall p | 0 <= p < |order| ensures Carries(w, labels, order, ToEngine(kept), p) {
      KeptAt(nodes, w, order, p);
      var i := order[p];
      assert Fed(w, order, p);
      SameOperatorSameToken(nodes[i], Renumber(order, w[i]));
      assert FitsNode(nodes, swap, labels, i);
      if nodes[i].Source? { NoWires(nodes, swap, i); }
    }
  }

  lemma NoWires(nodes: seq<NodeKey>, swap: Swaps, i: nat)
    requires Fits(nodes, swap) && i < |nodes| && nodes[i].Source?
    ensures Wires(nodes, swap)[i] == []
  {
  }

  ghost predicate FitsNode(nodes: seq<NodeKey>, swap: Swaps, labels: seq<Term>, i: nat)
    requires Arena(nodes) && Fits(nodes, swap) && |labels| == |nodes| && i < |nodes|
  {
    var w := Wires(nodes, swap);
    && Below(w[i], i)
    && (Transparent(w, labels, i) || (nodes[i].Token() == labels[i].token && Gather(labels, w[i]) == labels[i].args))
  }

  /** The cone of a labelled arena, quotiented by exact classes: the graph of its term order, every cone
      node sent to its label. */
  lemma {:induction false} ConeQuotient(nodes: seq<NodeKey>, outputs: seq<nat>, swap: Swaps, labels: seq<Term>, canon: seq<nat>)
    requires Arena(nodes) && Below(outputs, |nodes|) && Fits(nodes, swap) && |labels| == |nodes|
    requires forall i :: 0 <= i < |nodes| ==> FitsNode(nodes, swap, labels, i)
    requires Below(PostOrder(Wires(nodes, swap), outputs), |nodes|) && ClassedByLabel(labels, PostOrder(Wires(nodes, swap), outputs), canon)
    ensures var cone := ConeOf(nodes, outputs, swap); var ts := TermOrder(None, Gather(labels, outputs));
      && Arena(cone.nodes) && |canon| == |cone.nodes| && |cone.remap| == |nodes| && Complete(ts)
      && Quotient(cone.nodes, canon).nodes == TermGraph(None, ts)
      && forall i :: 0 <= i < |nodes| && cone.remap[i].Some? ==>
           cone.remap[i].value < |cone.nodes|
           && PlaceOf(ts, labels[i]) == Some(Quotient(cone.nodes, canon).remap[cone.remap[i].value])
  {
    hide NodeKey.Token, Distinct, KeptNodes, Wires, Extracted, TermGraph, Ordered, Height, Tallest, Classes, Complete;
    var w := Wires(nodes, swap);
    var order := PostOrder(w, outputs);
    forall i | 0 <= i < |nodes| ensures LabelFits(None, w, labels, i) {
      assert FitsNode(nodes, swap, labels, i);
      NeverSwapped(labels[i]);
    }
    PostOrderProjects(None, w, labels, outputs);
    OrderedBelow(w, order);
    ConeFacts(nodes, outputs, swap);
    KeptCarries(nodes, swap, labels, order);
    var cone := ConeOf(nodes, outputs, swap);
    var g := ToEngine(cone.nodes);
    ExtractionIsTermGraph(w, labels, order, g, canon, |order|);
    assert order[..|order|] == order;
    forall i | 0 <= i < |nodes| && cone.remap[i].Some?
      ensures PlaceOf(TermOrder(None, Gather(labels, outputs)), labels[i]) == Some(Quotient(cone.nodes, canon).remap[cone.remap[i].value])
    {
      assert cone.remap[i] == Position(order, i);
      assert order[cone.remap[i].value] == i;
    }
  }

  // ---- equal quotients reduce alike -------------------------------------------------------------

  /** Two cones with one quotient, their outputs at the same places. */
  ghost predicate SameQuotient(keys: seq<NodeKey>, outs: seq<nat>, canon: seq<nat>, keys': seq<NodeKey>, outs': seq<nat>, canon': seq<nat>) {
    && Arena(keys) && Below(outs, |keys|) && |canon| == |keys|
    && Arena(keys') && Below(outs', |keys'|) && |canon'| == |keys'|
    && Quotient(keys, canon).nodes == Quotient(keys', canon').nodes
    && Gather(Quotient(keys, canon).remap, outs) == Gather(Quotient(keys', canon').remap, outs')
  }

  lemma SameCanonical(keys: seq<NodeKey>, outs: seq<nat>, canon: seq<nat>, keys': seq<NodeKey>, outs': seq<nat>, canon': seq<nat>)
    requires SameQuotient(keys, outs, canon, keys', outs', canon')
    ensures Canonical(keys, outs, canon).graph == Canonical(keys', outs', canon').graph
    ensures Hashed(keys, canon) == Hashed(keys', canon')
  {
    hide NodeKey.Token, Extracted, Deduped, Distinct;
  }

  /** The rebuilt nodes do not depend on which operators the templates were collected from. */
  lemma {:induction false} SameFused(g: seq<EngineNode>, heads: seq<nat>, s: Templates, t: Templates)
    requires Topological(g) && |heads| == |g| && Below(heads, |g|)
    requires forall i :: 0 <= i < |heads| ==> heads[heads[i]] == heads[i]
    requires Templated(g, s) && Templated(g, t)
    ensures FusedNodes(g, heads, s) == FusedNodes(g, heads, t)
  {
    hide NodeKey.Token, Distinct, FusedNode;
    HeadListFacts(heads);
    forall r | 0 <= r < |HeadList(heads)| ensures FusedNodes(g, heads, s)[r] == FusedNodes(g, heads, t)[r] {
      SameFusedNode(g, heads, s, t, HeadList(heads)[r]);
    }
  }

  lemma SameFusedNode(g: seq<EngineNode>, heads: seq<nat>, s: Templates, t: Templates, h: nat)
    requires Topological(g) && |heads| == |g| && Below(heads, |g|) && h < |g|
    requires forall i :: 0 <= i < |heads| ==> heads[heads[i]] == heads[i]
    requires Templated(g, s) && Templated(g, t)
    ensures FusedNode(g, heads, s, h) == FusedNode(g, heads, t, h)
  {
    hide NodeKey.Token, StageFor, Distinct, Ranks;
    if g[h].boundary {
      assert Below(g[h].inputs, h);
      SameOperatorRebuilds(s[g[h].token], t[g[h].token], Ranks(heads, g[h].inputs));
    }
  }

  lemma SameOperatorRebuilds(a: NodeKey, b: NodeKey, ins: seq<nat>)
    requires a.Token() == b.Token()
    ensures a.WithInputs(ins) == b.WithInputs(ins)
  {
    hide NodeKey.Token;
    TokenIsOperator(a, b);
  }

  lemma {:induction false} SameFinish(keys: seq<NodeKey>, outs: seq<nat>, canon: seq<nat>, remap: seq<Option<nat>>,
                                      keys': seq<NodeKey>, outs': seq<nat>, canon': seq<nat>, remap': seq<Option<nat>>, mode: FusionMode)
    requires SameQuotient(keys, outs, canon, keys', outs', canon')
    requires forall i :: 0 <= i < |remap| && remap[i].Some? ==> remap[i].value < |keys|
    requires forall i :: 0 <= i < |remap'| && remap'[i].Some? ==> remap'[i].value < |keys'|
    ensures var r, s := Finished(keys, outs, canon, mode, remap), Finished(keys', outs', canon', mode, remap');
      && r.nodes == s.nodes && r.outputs == s.outputs
      && forall i, j :: (0 <= i < |remap| && 0 <= j < |remap'| && remap[i].Some? && remap'[j].Some?
           && Quotient(keys, canon).remap[remap[i].value] == Quotient(keys', canon').remap[remap'[j].value]) ==>
           r.nodeMap[i] == s.nodeMap[j]
  {
    hide NodeKey.Token, Quotient, Hashed, Distinct, TemplatesOf, FusedNodes, LandingOf, Heads, Templated;
    SameCanonical(keys, outs, canon, keys', outs', canon');
    CanonicalFacts(keys, outs, canon);
    CanonicalTemplated(keys, outs, canon);
    CanonicalTemplated(keys', outs', canon');
    var g := Canonical(keys, outs, canon).graph;
    HeadsArePlan(g, mode);
    SameFused(g.nodes, Heads(g, mode), TemplatesOf(keys), TemplatesOf(keys'));
  }

  // ---- the two paths ----------------------------------------------------------------------------

  /** Labels that tell nodes apart exactly when the shared rules do. */
  ghost predicate LabelsDecide(nodes: seq<NodeKey>, labels: seq<Term>)
    requires Arena(nodes)
  {
    |labels| == |nodes| && forall i, j :: 0 <= i < |nodes| && 0 <= j < |nodes| ==>
      (labels[i] == labels[j] <==> Norms(ToEngine(nodes))[i] == Norms(ToEngine(nodes))[j])
  }

  lemma {:induction false} SaturatedClasses(nodes: seq<NodeKey>, outputs: seq<nat>, swap: Swaps, labels: seq<Term>, canon: seq<nat>)
    requires Arena(nodes) && Below(outputs, |nodes|) && Fits(nodes, swap) && SwapsCommute(nodes, swap)
    requires LabelsDecide(nodes, labels) && Arena(ConeOf(nodes, outputs, swap).nodes)
    requires Saturated(ToEngine(ConeOf(nodes, outputs, swap).nodes), canon)
    ensures Below(PostOrder(Wires(nodes, swap), outputs), |nodes|)
    ensures ClassedByLabel(labels, PostOrder(Wires(nodes, swap), outputs), canon)
  {
    hide NodeKey.Token, Distinct, KeptNodes, Wires, Ordered, Fold, Norms, Congruent, SwapsCommute, Commuting, Eliding;
    var w := Wires(nodes, swap);
    var order := PostOrder(w, outputs);
    VisitAllFacts(w, |w|, outputs, []);
    OrderedBelow(w, order);
    var g := ToEngine(KeptNodes(nodes, w, order));
    NormRules();
    KeptNorms(nodes, swap, order);
    forall p, q | 0 <= p < |order| && 0 <= q < |order| ensures canon[p] == canon[q] <==> labels[order[p]] == labels[order[q]] {
      CongruentNodes(g, p, q);
      assert Norms(g)[p] == Norms(ToEngine(nodes))[order[p]] && Norms(g)[q] == Norms(ToEngine(nodes))[order[q]];
    }
  }

  lemma {:induction false} KeptNorms(nodes: seq<NodeKey>, swap: Swaps, order: seq<nat>)
    requires Arena(nodes) && Fits(nodes, swap) && SwapsCommute(nodes, swap) && Ordered(Wires(nodes, swap), order)
    ensures var kept := KeptNodes(nodes, Wires(nodes, swap), order);
      Arena(kept) && Below(order, |nodes|) && Norms(ToEngine(kept)) == Gather(Norms(ToEngine(nodes)), order)
  {
    hide NodeKey.Token, Distinct, KeptNodes, Wires, Fold, Commuting, Eliding;
    NormRules();
    KeptFold(NormOp(), nodes, swap, order);
  }

  lemma {:induction false} CanonLabelsDecide(hash: Hash, c: Canon)
    requires CanonicalArena(hash, c) && Arena(c.nodes) && Distinct(c.keys)
    ensures LabelsDecide(c.nodes, Denotes(c.nodes))
  {
    hide NodeKey.Token, Distinct, CanonicalNode, Norms, Denotes;
    var labels := Denotes(c.nodes);
    forall i, j | 0 <= i < |labels| && 0 <= j < |labels|
      ensures labels[i] == labels[j] <==> Norms(ToEngine(c.nodes))[i] == Norms(ToEngine(c.nodes))[j]
    {
      if labels[i] == labels[j] { DenotesInjective(c.nodes, i, j); }
      if Norms(ToEngine(c.nodes))[i] == Norms(ToEngine(c.nodes))[j] { CanonNormsInjective(hash, c, i, j); }
    }
  }

  lemma {:induction false} RecordLabelsDecide(hash: Hash, nodes: seq<NodeKey>)
    requires Arena(nodes) && Distinct(Canonicalized(hash, nodes, |nodes|).keys)
    ensures var c := Canonicalized(hash, nodes, |nodes|); Arena(c.nodes) && LabelsDecide(nodes, RecordLabels(c))
  {
    hide NodeKey.Token, Distinct, CanonicalNode, Norms, Denotes, Canonicalized, Keys, WentTo, LabelsDecide;
    var c := Canonicalized(hash, nodes, |nodes|);
    NormsTracked(hash, nodes);
    CanonLabelsDecide(hash, c);
    LabelsThrough(nodes, c.nodes, c.map_);
  }

  /** Labels that decide an arena decide another whose nodes have their values there. */
  lemma {:induction false} LabelsThrough(nodes: seq<NodeKey>, canon: seq<NodeKey>, map_: seq<nat>)
    requires Arena(nodes) && Arena(canon) && LabelsDecide(canon, Denotes(canon)) && |map_| == |nodes| && Below(map_, |canon|)
    requires Gather(Norms(ToEngine(canon)), map_) == Norms(ToEngine(nodes))
    ensures LabelsDecide(nodes, Gather(Denotes(canon), map_))
  {
    hide NodeKey.Token, Norms, Denotes;
    var ns := Norms(ToEngine(canon));
    forall i, j | 0 <= i < |nodes| && 0 <= j < |nodes|
      ensures Gather(Denotes(canon), map_)[i] == Gather(Denotes(canon), map_)[j] <==> Norms(ToEngine(nodes))[i] == Norms(ToEngine(nodes))[j]
    {
      assert Norms(ToEngine(nodes))[i] == Gather(ns, map_)[i] == ns[map_[i]];
      assert Norms(ToEngine(nodes))[j] == Gather(ns, map_)[j] == ns[map_[j]];
    }
  }

  /** The cone the incremental path gives the engine. */
  ghost function CanonicalCone(hash: Hash, nodes: seq<NodeKey>, outputs: seq<nat>): (cone: Cone)
    requires Arena(nodes) && Below(outputs, |nodes|)
    ensures Arena(cone.nodes)
  {
    CanonIsArena(hash, nodes, |nodes|);
    var c := Canonicalized(hash, nodes, |nodes|);
    ConeFacts(c.nodes, Gather(c.map_, outputs), None);
    ConeOf(c.nodes, Gather(c.map_, outputs), None)
  }

  /** The engine's classes on both paths' cones are exactly the congruence of the shared rules, and no
      two canonical nodes share a structural key. */
  ghost predicate Exact(hash: Hash, nodes: seq<NodeKey>, outputs: seq<nat>, engine: Engine)
    requires Arena(nodes) && Below(outputs, |nodes|)
  {
    && Total(engine)
    && Distinct(Canonicalized(hash, nodes, |nodes|).keys)
    && Saturated(OneShotCone(hash, nodes, outputs), engine(OneShotCone(hash, nodes, outputs)))
    && Saturated(ToEngine(CanonicalCone(hash, nodes, outputs).nodes), engine(ToEngine(CanonicalCone(hash, nodes, outputs).nodes)))
  }

  /** The term order both paths walk. */
  ghost function SharedOrder(hash: Hash, nodes: seq<NodeKey>, outputs: seq<nat>): seq<Term>
    requires Arena(nodes) && Below(outputs, |nodes|)
  {
    CanonIsArena(hash, nodes, |nodes|);
    TermOrder(None, Gather(RecordLabels(Canonicalized(hash, nodes, |nodes|)), outputs))
  }

  /** One path's quotient is the graph of the shared order, its placed nodes at their labels. */
  ghost predicate Lands(ts: seq<Term>, labels: seq<Term>, cone: Cone, canon: seq<nat>) {
    && Complete(ts) && Arena(cone.nodes) && |canon| == |cone.nodes| && |cone.remap| == |labels|
    && Quotient(cone.nodes, canon).nodes == TermGraph(None, ts)
    && forall i :: 0 <= i < |labels| ==>
         match cone.remap[i]
         case None => true
         case Some(d) => d < |cone.nodes| && PlaceOf(ts, labels[i]) == Some(Quotient(cone.nodes, canon).remap[d])
  }

  lemma {:induction false} OneShotLands(hash: Hash, nodes: seq<NodeKey>, outputs: seq<nat>, engine: Engine)
    requires Arena(nodes) && Below(outputs, |nodes|) && Exact(hash, nodes, outputs, engine)
    ensures Arena(Canonicalized(hash, nodes, |nodes|).nodes)
    ensures Lands(SharedOrder(hash, nodes, outputs), RecordLabels(Canonicalized(hash, nodes, |nodes|)),
                  ConeOf(nodes, outputs, Some(SwapsOf(hash, nodes))), engine(OneShotCone(hash, nodes, outputs)))
  {
    hide NodeKey.Token, Distinct, CanonicalNode, Norms, Denotes, Canonicalized, Keys, WentTo, RecordLabels, ConeOf, TermOrder,
         Quotient, LabelsDecide, Wires, SwapsOf, CanonicalCone, ClassedByLabel, PostOrder;
    var c := Canonicalized(hash, nodes, |nodes|);
    var swap := Some(SwapsOf(hash, nodes));
    CanonTracks(hash, nodes, |nodes|);
    RecordLabelsDecide(hash, nodes);
    var labels := RecordLabels(c);
    SwapsOfCommute(hash, nodes);
    ConeFacts(nodes, outputs, swap);
    SaturatedClasses(nodes, outputs, swap, labels, engine(OneShotCone(hash, nodes, outputs)));
    forall i | 0 <= i < |nodes| ensures FitsNode(nodes, swap, labels, i) { RecordLabelAt(hash, nodes, c, i); }
    ConeQuotient(nodes, outputs, swap, labels, engine(OneShotCone(hash, nodes, outputs)));
  }

  lemma {:induction false} CanonicalLands(hash: Hash, nodes: seq<NodeKey>, outputs: seq<nat>, engine: Engine)
    requires Arena(nodes) && Below(outputs, |nodes|) && Exact(hash, nodes, outputs, engine)
    ensures Arena(Canonicalized(hash, nodes, |nodes|).nodes)
    ensures Lands(SharedOrder(hash, nodes, outputs), Denotes(Canonicalized(hash, nodes, |nodes|).nodes),
                  CanonicalCone(hash, nodes, outputs), engine(ToEngine(CanonicalCone(hash, nodes, outputs).nodes)))
  {
    hide NodeKey.Token, Distinct, CanonicalNode, Norms, Denotes, Canonicalized, Keys, WentTo, ConeOf, TermOrder,
         Quotient, LabelsDecide, Wires, SwapsOf, ClassedByLabel, PostOrder;
    var c := Canonicalized(hash, nodes, |nodes|);
    CanonTracks(hash, nodes, |nodes|);
    CanonIsArena(hash, nodes, |nodes|);
    CanonLabelsDecide(hash, c);
    var labels := Denotes(c.nodes);
    var outs := Gather(c.map_, outputs);
    var canon := engine(ToEngine(CanonicalCone(hash, nodes, outputs).nodes));
    ConeFacts(c.nodes, outs, None);
    SaturatedClasses(c.nodes, outs, None, labels, canon);
    forall i | 0 <= i < |c.nodes| ensures FitsNode(c.nodes, None, labels, i) { DenotesFits(c.nodes, i); }
    ConeQuotient(c.nodes, outs, None, labels, canon);
    GatherGather(labels, c.map_, outputs);
  }

  lemma DenotesFits(nodes: seq<NodeKey>, i: nat)
    requires Arena(nodes) && i < |nodes|
    ensures FitsNode(nodes, None, Denotes(nodes), i)
  {
    hide NodeKey.Token, Denotes;
    DenotesLabels(None, nodes, i);
    DenotesAt(nodes, i);
    NeverSwapped(Denotes(nodes)[i]);
  }

  /** The outputs, wherever their labels are listed. */
  lemma OutputsLand(ts: seq<Term>, labels: seq<Term>, cone: Cone, canon: seq<nat>, outputs: seq<nat>)
    requires Lands(ts, labels, cone, canon) && Below(outputs, |labels|) && Below(cone.outputs, |cone.nodes|)
    requires |cone.outputs| == |outputs| && forall k :: 0 <= k < |outputs| ==> cone.remap[outputs[k]] == Some(cone.outputs[k])
    ensures forall k :: 0 <= k < |outputs| ==>
      PlaceOf(ts, labels[outputs[k]]) == Some(Gather(Quotient(cone.nodes, canon).remap, cone.outputs)[k])
  {
    hide NodeKey.Token, Quotient, TermGraph, PlaceOf;
  }

  lemma {:induction false} QuotientsAgree(hash: Hash, nodes: seq<NodeKey>, outputs: seq<nat>, engine: Engine)
    requires Arena(nodes) && Below(outputs, |nodes|) && Exact(hash, nodes, outputs, engine)
    ensures var d := ConeOf(nodes, outputs, Some(SwapsOf(hash, nodes))); var e := CanonicalCone(hash, nodes, outputs);
      SameQuotient(d.nodes, d.outputs, engine(ToEngine(d.nodes)), e.nodes, e.outputs, engine(ToEngine(e.nodes)))
  {
    hide NodeKey.Token, Distinct, Canonicalized, ConeOf, Quotient, SwapsOf, Lands, Exact, Denotes, TermGraph;
    var c := Canonicalized(hash, nodes, |nodes|);
    var swap := Some(SwapsOf(hash, nodes));
    var outs := Gather(c.map_, outputs);
    OneShotLands(hash, nodes, outputs, engine);
    CanonicalLands(hash, nodes, outputs, engine);
    ConeFacts(nodes, outputs, swap);
    ConeFacts(c.nodes, outs, None);
    ConeHoldsOutputs(nodes, outputs, swap);
    ConeHoldsOutputs(c.nodes, outs, None);
    var ts := SharedOrder(hash, nodes, outputs);
    var d, e := ConeOf(nodes, outputs, swap), CanonicalCone(hash, nodes, outputs);
    OutputsLand(ts, RecordLabels(c), d, engine(ToEngine(d.nodes)), outputs);
    OutputsLand(ts, Denotes(c.nodes), e, engine(ToEngine(e.nodes)), outs);
    LandsQuotient(ts, RecordLabels(c), d, engine(ToEngine(d.nodes)));
    LandsQuotient(ts, Denotes(c.nodes), e, engine(ToEngine(e.nodes)));
    var x := Gather(Quotient(d.nodes, engine(ToEngine(d.nodes))).remap, d.outputs);
    var y := Gather(Quotient(e.nodes, engine(ToEngine(e.nodes))).remap, e.outputs);
    forall k | 0 <= k < |outputs| ensures x[k] == y[k] {
      assert RecordLabels(c)[outputs[k]] == Denotes(c.nodes)[outs[k]];
    }
    assert x == y;
  }

  lemma LandsQuotient(ts: seq<Term>, labels: seq<Term>, cone: Cone, canon: seq<nat>)
    requires Lands(ts, labels, cone, canon)
    ensures Complete(ts) && Arena(cone.nodes) && |canon| == |cone.nodes| && Quotient(cone.nodes, canon).nodes == TermGraph(None, ts)
  {
  }

  /** A placed node's canonical node is placed, at the same class. */
  lemma {:induction false} LandingsAgree(hash: Hash, nodes: seq<NodeKey>, outputs: seq<nat>, engine: Engine, i: nat)
    requires Arena(nodes) && Below(outputs, |nodes|) && Exact(hash, nodes, outputs, engine) && i < |nodes|
    requires ConeOf(nodes, outputs, Some(SwapsOf(hash, nodes))).remap[i].Some?
    ensures var d := ConeOf(nodes, outputs, Some(SwapsOf(hash, nodes))); var e := CanonicalCone(hash, nodes, outputs);
      var j := Canonicalized(hash, nodes, |nodes|).map_[i];
      && Arena(d.nodes) && Arena(e.nodes) && d.remap[i].value < |d.nodes|
      && j < |e.remap| && e.remap[j].Some? && e.remap[j].value < |e.nodes|
      && Quotient(d.nodes, engine(ToEngine(d.nodes))).remap[d.remap[i].value]
         == Quotient(e.nodes, engine(ToEngine(e.nodes))).remap[e.remap[j].value]
  {
    hide NodeKey.Token, Distinct, Canonicalized, ConeOf, Quotient, SwapsOf, Exact, Denotes, TermGraph, TermOrder;
    var c := Canonicalized(hash, nodes, |nodes|);
    OneShotLands(hash, nodes, outputs, engine);
    CanonicalLands(hash, nodes, outputs, engine);
    assert RecordLabels(c)[i] == Denotes(c.nodes)[c.map_[i]];
    CanonicalPlaced(hash, nodes, outputs, c.map_[i]);
  }

  /** The canonical cone places exactly the nodes whose terms the shared order lists. */
  lemma {:induction false} CanonicalPlaced(hash: Hash, nodes: seq<NodeKey>, outputs: seq<nat>, j: nat)
    requires Arena(nodes) && Below(outputs, |nodes|)
    requires j < |Canonicalized(hash, nodes, |nodes|).nodes|
    ensures var c := Canonicalized(hash, nodes, |nodes|);
      && Arena(c.nodes) && |CanonicalCone(hash, nodes, outputs).remap| == |c.nodes|
      && CanonicalCone(hash, nodes, outputs).remap[j] == PlaceOf(SharedOrder(hash, nodes, outputs), Denotes(c.nodes)[j])
  {
    hide NodeKey.Token, Distinct, Canonicalized, ConeOf, Denotes, TermGraph, TermOrder, CanonicalNode, WentTo, Keys;
    var c := Canonicalized(hash, nodes, |nodes|);
    CanonTracks(hash, nodes, |nodes|);
    CanonIsArena(hash, nodes, |nodes|);
    ConeIsTermGraph(None, c.nodes, Gather(c.map_, outputs));
    GatherGather(Denotes(c.nodes), c.map_, outputs);
  }

  /** Stepping through an arena in any chunks and finalizing gives what one reduction of the whole gives:
      the same nodes, the same outputs, and the same landing for every node an output depends on. */
  lemma {:induction false} IncrementalEqualsOneShot(hash: Hash, nodes: seq<NodeKey>, outputs: seq<nat>, engine: Engine, mode: FusionMode)
    requires Arena(nodes) && Below(outputs, |nodes|) && Exact(hash, nodes, outputs, engine)
    ensures var r, s := OneShot(hash, nodes, outputs, engine, mode), FinalForm(hash, nodes, outputs, engine, mode);
      && r.nodes == s.nodes && r.outputs == s.outputs && |s.nodeMap| == |nodes|
      && forall i :: 0 <= i < |nodes| && Needed(Wires(nodes, None), outputs, i) ==> s.nodeMap[i] == r.nodeMap[i]
  {
    hide NodeKey.Token, Distinct, Canonicalized, ConeOf, Quotient, SwapsOf, Exact, Finished, Needed, SameQuotient, ReducedGraph;
    var c := Canonicalized(hash, nodes, |nodes|);
    var swap := Some(SwapsOf(hash, nodes));
    var outs := Gather(c.map_, outputs);
    CanonIsArena(hash, nodes, |nodes|);
    ExactIsTotal(hash, nodes, outputs, engine);
    ConeFacts(nodes, outputs, swap);
    ConeFacts(c.nodes, outs, None);
    QuotientsAgree(hash, nodes, outputs, engine);
    var d, e := ConeOf(nodes, outputs, swap), ConeOf(c.nodes, outs, None);
    SameFinish(d.nodes, d.outputs, engine(ToEngine(d.nodes)), d.remap, e.nodes, e.outputs, engine(ToEngine(e.nodes)), e.remap, mode);
    ReducedIsFinished(nodes, outputs, swap, engine, mode);
    ReducedIsFinished(c.nodes, outs, None, engine, mode);
    forall i | 0 <= i < |nodes| && Needed(Wires(nodes, None), outputs, i)
      ensures FinalForm(hash, nodes, outputs, engine, mode).nodeMap[i] == OneShot(hash, nodes, outputs, engine, mode).nodeMap[i]
    {
      PlacedInCone(nodes, outputs, swap, i);
      LandingsAgree(hash, nodes, outputs, engine, i);
    }
  }

  lemma ExactIsTotal(hash: Hash, nodes: seq<NodeKey>, outputs: seq<nat>, engine: Engine)
    requires Arena(nodes) && Below(outputs, |nodes|) && Exact(hash, nodes, outputs, engine)
    ensures Total(engine)
  {
  }

  lemma {:induction false} PlacedInCone(nodes: seq<NodeKey>, outputs: seq<nat>, swap: Swaps, i: nat)
    requires Arena(nodes) && Below(outputs, |nodes|) && Fits(nodes, swap) && i < |nodes|
    ensures ConeOf(nodes, outputs, swap).remap[i].Some? <==> Needed(Wires(nodes, None), outputs, i)
  {
    hide NodeKey.Token, Distinct, KeptNodes;
    var w := Wires(nodes, swap);
    PostOrderIsCone(w, outputs);
    forall o: nat | o < |nodes| ensures Reaches(w, o, i) <==> Reaches(Wires(nodes, None), o, i) {
      SwapsKeepReach(nodes, swap, o, i);
    }
    assert Needed(w, outputs, i) <==> Needed(Wires(nodes, None), outputs, i);
  }

  // ---- where the two paths differ ---------------------------------------------------------------

  /** The terms of the shared order are those of the needed nodes. */
  lemma {:induction false} SharedOrderIsNeeded(hash: Hash, nodes: seq<NodeKey>, outputs: seq<nat>, t: Term)
    requires Arena(nodes) && Below(outputs, |nodes|)
    ensures Arena(Canonicalized(hash, nodes, |nodes|).nodes)
    ensures var labels := RecordLabels(Canonicalized(hash, nodes, |nodes|));
      t in SharedOrder(hash, nodes, outputs) <==>
        exists j :: 0 <= j < |nodes| && Needed(Wires(nodes, None), outputs, j) && labels[j] == t
  {
    hide NodeKey.Token, Distinct, CanonicalNode, Denotes, Canonicalized, Keys, WentTo, RecordLabels, TermOrder, Wires, SwapsOf,
         Classes, Ordered, Needed, PostOrder;
    var c := Canonicalized(hash, nodes, |nodes|);
    var swap := Some(SwapsOf(hash, nodes));
    var w := Wires(nodes, swap);
    CanonTracks(hash, nodes, |nodes|);
    CanonIsArena(hash, nodes, |nodes|);
    var labels := RecordLabels(c);
    forall i | 0 <= i < |nodes| ensures LabelFits(None, w, labels, i) {
      RecordLabelAt(hash, nodes, c, i);
      NeverSwapped(labels[i]);
    }
    PostOrderProjects(None, w, labels, outputs);
    var order := PostOrder(w, outputs);
    OrderedBelow(w, order);
    ClassesAre(labels, order);
    OrderIsNeeded(nodes, outputs, swap);
    if t in SharedOrder(hash, nodes, outputs) {
      var p :| 0 <= p < |order| && labels[order[p]] == t;
      assert order[p] in order;
    }
    forall j | 0 <= j < |nodes| && Needed(Wires(nodes, None), outputs, j) && labels[j] == t ensures t in SharedOrder(hash, nodes, outputs) {
      assert labels[order[IndexOf(order, j)]] == t;
    }
  }

  lemma {:induction false} OrderIsNeeded(nodes: seq<NodeKey>, outputs: seq<nat>, swap: Swaps)
    requires Arena(nodes) && Below(outputs, |nodes|) && Fits(nodes, swap)
    ensures forall i :: 0 <= i < |nodes| ==>
      (i in PostOrder(Wires(nodes, swap), outputs) <==> Needed(Wires(nodes, None), outputs, i))
  {
    hide NodeKey.Token, Distinct, KeptNodes, Wires, Needed, PostOrder;
    forall i | 0 <= i < |nodes|
      ensures i in PostOrder(Wires(nodes, swap), outputs) <==> Needed(Wires(nodes, None), outputs, i)
    {
      PlacedInCone(nodes, outputs, swap, i);
      RemapIsPosition(nodes, outputs, swap, i);
    }
  }

  lemma RemapIsPosition(nodes: seq<NodeKey>, outputs: seq<nat>, swap: Swaps, i: nat)
    requires Arena(nodes) && Below(outputs, |nodes|) && Fits(nodes, swap) && i < |nodes|
    ensures |ConeOf(nodes, outputs, swap).remap| == |nodes|
    ensures ConeOf(nodes, outputs, swap).remap[i].Some? <==> i in PostOrder(Wires(nodes, swap), outputs)
  {
    hide NodeKey.Token, Distinct, KeptNodes, Wires, PostOrder;
  }

  /** The incremental map places a node exactly when the outputs depend on one the shared rules make
      equal to it; the one-shot map, exactly when they depend on the node itself (`PlacedIffNeeded`). */
  lemma {:induction false} IncrementalPlaces(hash: Hash, nodes: seq<NodeKey>, outputs: seq<nat>, engine: Engine, mode: FusionMode, i: nat)
    requires Arena(nodes) && Below(outputs, |nodes|) && Total(engine) && i < |nodes|
    requires Distinct(Canonicalized(hash, nodes, |nodes|).keys)
    ensures FinalForm(hash, nodes, outputs, engine, mode).nodeMap[i].Some? <==>
      exists j :: 0 <= j < |nodes| && Needed(Wires(nodes, None), outputs, j) && Congruent(Denotes(nodes)[i], Denotes(nodes)[j])
  {
    hide NodeKey.Token, Distinct, Canonicalized, ConeOf, Denotes, TermOrder, Needed, Congruent, Finished, Norms, ReducedGraph, Wires, LabelsDecide;
    var c := Canonicalized(hash, nodes, |nodes|);
    var outs := Gather(c.map_, outputs);
    CanonIsArena(hash, nodes, |nodes|);
    ConeFacts(c.nodes, outs, None);
    ReducedIsFinished(c.nodes, outs, None, engine, mode);
    FinishedPlaces(c.nodes, outs, engine, mode, c.map_[i]);
    CanonicalPlaced(hash, nodes, outputs, c.map_[i]);
    var labels := RecordLabels(c);
    assert labels[i] == Denotes(c.nodes)[c.map_[i]];
    SharedOrderIsNeeded(hash, nodes, outputs, labels[i]);
    forall j | 0 <= j < |nodes| ensures labels[j] == labels[i] <==> Congruent(Denotes(nodes)[i], Denotes(nodes)[j]) {
      RecordLabelsDecide(hash, nodes);
      LabelsDecideAt(nodes, labels, j, i);
      CongruentDenoted(nodes, i, j);
    }
  }

  /** So with exact classes the two maps agree on a node exactly when the outputs depend on it, or on
      nothing the shared rules make equal to it. */
  lemma {:induction false} MapsAgreeIff(hash: Hash, nodes: seq<NodeKey>, outputs: seq<nat>, engine: Engine, mode: FusionMode, i: nat)
    requires Arena(nodes) && Below(outputs, |nodes|) && Exact(hash, nodes, outputs, engine) && i < |nodes|
    ensures OneShot(hash, nodes, outputs, engine, mode).nodeMap[i] == FinalForm(hash, nodes, outputs, engine, mode).nodeMap[i] <==>
      Needed(Wires(nodes, None), outputs, i)
      || !exists j :: 0 <= j < |nodes| && Needed(Wires(nodes, None), outputs, j) && Congruent(Denotes(nodes)[i], Denotes(nodes)[j])
  {
    hide NodeKey.Token, Distinct, Canonicalized, Denotes, Needed, Congruent, FinalForm, ReducedGraph, Wires, Saturated;
    IncrementalEqualsOneShot(hash, nodes, outputs, engine, mode);
    IncrementalPlaces(hash, nodes, outputs, engine, mode, i);
    PlacedIffNeeded(nodes, outputs, Some(SwapsOf(hash, nodes)), engine, mode, i);
  }

  lemma CongruentDenoted(nodes: seq<NodeKey>, i: nat, j: nat)
    requires Arena(nodes) && i < |nodes| && j < |nodes|
    ensures Congruent(Denotes(nodes)[i], Denotes(nodes)[j]) <==> Norms(ToEngine(nodes))[i] == Norms(ToEngine(nodes))[j]
  {
    hide NodeKey.Token, Fold, Norms, Congruent;
    CongruentNodes(ToEngine(nodes), i, j);
  }

  lemma LabelsDecideAt(nodes: seq<NodeKey>, labels: seq<Term>, i: nat, j: nat)
    requires Arena(nodes) && LabelsDecide(nodes, labels) && i < |nodes| && j < |nodes|
    ensures labels[i] == labels[j] <==> Norms(ToEngine(nodes))[i] == Norms(ToEngine(nodes))[j]
  {
  }

  lemma {:induction false} FinishedPlaces(nodes: seq<NodeKey>, outputs: seq<nat>, engine: Engine, mode: FusionMode, j: nat)
    requires Arena(nodes) && Below(outputs, |nodes|) && Total(engine) && j < |nodes|
    ensures |ConeOf(nodes, outputs, None).remap| == |nodes|
    ensures ReducedGraph(nodes, outputs, None, engine, mode).nodeMap[j].Some? <==> ConeOf(nodes, outputs, None).remap[j].Some?
  {
    hide NodeKey.Token, Needed, ConeOf, ReducedGraph, Finished;
    PlacedIffNeeded(nodes, outputs, None, engine, mode, j);
    PlacedInCone(nodes, outputs, None, j);
    ConeFacts(nodes, outputs, None);
  }

  /** Two sources and the sum of them, recorded in both operand orders. */
  const TWINS := [Source("a", []), Source("b", []), Op("add", [], [0, 1]), Op("add", [], [1, 0])]

  lemma TwinsAreAnArena()
    ensures Arena(TWINS) && Below([2], |TWINS|) && !Needed(Wires(TWINS, None), [2], 3)
  {
    var w := Wires(TWINS, None);
    assert w == [[], [], [0, 1], [1, 0]];
    forall k | 0 <= k < |[2]| ensures !Reaches(w, [2][k], 3) {
      assert !Reaches(w, 0, 3) && !Reaches(w, 1, 3);
    }
  }

  /** An example: asked for one of two commuted twins, one-shot does not place the other, and the
      incremental path does. */
  lemma {:induction false} TwinPlacedOnlyIncrementally(hash: Hash, engine: Engine, mode: FusionMode)
    requires Total(engine) && Arena(TWINS) && Keys(hash, ToEngine(TWINS))[0] != Keys(hash, ToEngine(TWINS))[1]
    ensures OneShot(hash, TWINS, [2], engine, mode).nodeMap[3].None?
    ensures FinalForm(hash, TWINS, [2], engine, mode).nodeMap[3].Some?
  {
    hide NodeKey.Token, Distinct, Canonicalized, ConeOf, ReducedGraph, Keys, Wires;
    var c := Canonicalized(hash, TWINS, 4);
    var outs := Gather(c.map_, [2]);
    TwinsAreAnArena();
    PlacedIffNeeded(TWINS, [2], Some(SwapsOf(hash, TWINS)), engine, mode, 3);
    CanonIsArena(hash, TWINS, 4);
    TwinsShareId(hash);
    PlacedIffNeeded(c.nodes, outs, None, engine, mode, c.map_[3]);
    assert Reaches(Wires(c.nodes, None), outs[0], c.map_[3]);
  }

  lemma {:induction false} TwinsShareId(hash: Hash)
    requires Arena(TWINS) && Keys(hash, ToEngine(TWINS))[0] != Keys(hash, ToEngine(TWINS))[1]
    ensures Canonicalized(hash, TWINS, 4).map_[2] == Canonicalized(hash, TWINS, 4).map_[3]
  {
    hide NodeKey.Token, Distinct, Canonicalized, Keys, CanonicalNode, Wires;
    var c := Canonicalized(hash, TWINS, 4);
    CanonTracks(hash, TWINS, 4);
    var w := Wires(TWINS, Some(SwapsOf(hash, TWINS)));
    assert WentTo(TWINS, w, c, 2) && WentTo(TWINS, w, c, 3);
    TwinsReadAlike(hash);
    DistinctIds(c, c.map_[2], c.map_[3]);
  }

  lemma {:induction false} TwinsReadAlike(hash: Hash)
    requires Arena(TWINS) && Keys(hash, ToEngine(TWINS))[0] != Keys(hash, ToEngine(TWINS))[1]
    ensures var w := Wires(TWINS, Some(SwapsOf(hash, TWINS))); w[2] == w[3]
  {
    hide NodeKey.Token, Keys;
    var ks := Keys(hash, ToEngine(TWINS));
    assert InputKeys(hash, TWINS, 2) == [ks[0], ks[1]] && InputKeys(hash, TWINS, 3) == [ks[1], ks[0]];
  }

  lemma DistinctIds(c: Canon, a: nat, b: nat)
    requires Distinct(c.nodes) && a < |c.nodes| && b < |c.nodes| && c.nodes[a] == c.nodes[b]
    ensures a == b
  {
    hide NodeKey.Token, Distinct;
    if a < b { DistinctPair(c.nodes, a, b); } else if b < a { DistinctPair(c.nodes, b, a); }
  }

  // ---- what finalize returns, on its own ---------------------------------------------------------

  /** The incremental path preserves meaning too, for any hash, any engine that merges only what the shared
      rules make equal, and every node it places, needed or not. */
  lemma {:induction false} IncrementalKeepsMeaning<V(!new)>(base: (string, seq<V>) -> V, hash: Hash, nodes: seq<NodeKey>,
                                                            outputs: seq<nat>, engine: Engine, mode: FusionMode)
    requires Arena(nodes) && Below(outputs, |nodes|) && Total(engine) && Commuting(base) && Eliding(base)
    requires Justified(ToEngine(CanonicalCone(hash, nodes, outputs).nodes), engine(ToEngine(CanonicalCone(hash, nodes, outputs).nodes)))
    ensures Faithful(base, nodes, outputs, FinalForm(hash, nodes, outputs, engine, mode))
  {
    hide NodeKey.Token, Fold, Distinct, ReducedGraph, Congruent, Commuting, Eliding, Canonicalized, Keys, Tracks, Meaning;
    var c := Canonicalized(hash, nodes, |nodes|);
    var outs := Gather(c.map_, outputs);
    CanonIsArena(hash, nodes, |nodes|);
    CanonTracks(hash, nodes, |nodes|);
    MeaningFollowsRules(base);
    CanonKeepsValues(Meaning(base), hash, nodes, c);
    JustifiedSound(base, ToEngine(CanonicalCone(hash, nodes, outputs).nodes), engine);
    ReductionKeepsMeaning(base, c.nodes, outs, None, engine, mode);
    ThroughCanon(base, nodes, c.nodes, c.map_, outputs, ReducedGraph(c.nodes, outs, None, engine, mode));
  }

  lemma {:induction false} JustifiedSound<V(!new)>(base: (string, seq<V>) -> V, g: seq<EngineNode>, engine: Engine)
    requires Topological(g) && Justified(g, engine(g)) && Commuting(Meaning(base)) && Eliding(Meaning(base))
    ensures Sound(base, g, engine(g))
  {
    hide Fold, Congruent, Commuting, Eliding, Meaning;
    forall i, j | 0 <= i < |g| && 0 <= j < |g| && engine(g)[i] == engine(g)[j]
      ensures Values(base, g)[i] == Values(base, g)[j]
    {
      JustifiedValues(Meaning(base), g, engine(g), i, j);
    }
  }

  /** A reduction faithful to canonical nodes, answered in recorded ids, is faithful to the recorded ones. */
  lemma {:induction false} ThroughCanon<V(!new)>(base: (string, seq<V>) -> V, nodes: seq<NodeKey>, canon: seq<NodeKey>, map_: seq<nat>,
                                                 outputs: seq<nat>, red: Reduced)
    requires Arena(nodes) && Arena(canon) && |map_| == |nodes| && Below(map_, |canon|) && Below(outputs, |nodes|)
    requires Below(Gather(map_, outputs), |canon|) && Faithful(base, canon, Gather(map_, outputs), red)
    requires Values(base, ToEngine(nodes)) == Gather(Values(base, ToEngine(canon)), map_)
    ensures Faithful(base, nodes, outputs, Reduced(red.nodes, red.outputs, Gather(red.nodeMap, map_)))
  {
    hide NodeKey.Token, Values;
    GatherGather(Values(base, ToEngine(canon)), map_, outputs);
  }

  // ---- what the caller of finalize reads back ----------------------------------------------------

  /** Finalize's landings name its nodes, and its outputs land where its output list says. */
  lemma {:induction false} FinalFormLands(hash: Hash, nodes: seq<NodeKey>, outputs: seq<nat>, engine: Engine, mode: FusionMode)
    requires Arena(nodes) && Below(outputs, |nodes|) && Total(engine)
    ensures var r := FinalForm(hash, nodes, outputs, engine, mode);
      && Arena(r.nodes) && Below(r.outputs, |r.nodes|) && |r.outputs| == |outputs|
      && |r.nodeMap| == |nodes| && LandsIn(r.nodeMap, |r.nodes|)
      && forall k :: 0 <= k < |outputs| ==>
           r.nodeMap[outputs[k]].Some? && r.nodeMap[outputs[k]].value.0 == r.outputs[k]
  {
    hide NodeKey.Token, Distinct, Canonicalized, ReducedGraph;
    var c := Canonicalized(hash, nodes, |nodes|);
    var outs := Gather(c.map_, outputs);
    CanonIsArena(hash, nodes, |nodes|);
    ReductionLands(c.nodes, outs, None, engine, mode);
    var red := ReducedGraph(c.nodes, outs, None, engine, mode);
    forall k | 0 <= k < |outputs| ensures Gather(red.nodeMap, c.map_)[outputs[k]] == red.nodeMap[outs[k]] {
    }
  }

  /** The store rebuilt from finalize's answer. */
  ghost function CompiledIncrementally(hash: Hash, nodes: seq<NodeKey>, outputs: seq<nat>, engine: Engine, mode: FusionMode): Stored
    requires Arena(nodes) && Below(outputs, |nodes|) && Total(engine)
  {
    FinalFormLands(hash, nodes, outputs, engine, mode);
    StoredOf(FinalForm(hash, nodes, outputs, engine, mode))
  }

  /** On the incremental path too, after re-interning and output deduplication every requested array's slot
      holds the value the recorded graph gives it, and so does every landing. */
  lemma {:induction false} IncrementalReadsBack<V(!new)>(base: (string, seq<V>) -> V, hash: Hash, nodes: seq<NodeKey>,
                                                         outputs: seq<nat>, engine: Engine, mode: FusionMode)
    requires Arena(nodes) && Below(outputs, |nodes|) && Total(engine) && Commuting(base) && Eliding(base)
    requires Justified(ToEngine(CanonicalCone(hash, nodes, outputs).nodes), engine(ToEngine(CanonicalCone(hash, nodes, outputs).nodes)))
    ensures ReadsBack(base, nodes, outputs, CompiledIncrementally(hash, nodes, outputs, engine, mode))
  {
    hide NodeKey.Token, Fold, Distinct, FinalForm, Faithful, Commuting, Eliding, Justified, ReadsBack, StoredOf, CanonicalCone;
    IncrementalKeepsMeaning(base, hash, nodes, outputs, engine, mode);
    FinalFormLands(hash, nodes, outputs, engine, mode);
    StoredReadsBack(base, nodes, outputs, FinalForm(hash, nodes, outputs, engine, mode));
  }

  /** With exact classes the two paths compile to one store, so to the same bytes; only where they place
      nodes no output depends on may differ. */
  lemma {:induction false} BothPathsCompileAlike(hash: Hash, nodes: seq<NodeKey>, outputs: seq<nat>, engine: Engine, mode: FusionMode)
    requires Arena(nodes) && Below(outputs, |nodes|) && Exact(hash, nodes, outputs, engine)
    ensures var a, b := Compiled(hash, nodes, outputs, engine, mode), CompiledIncrementally(hash, nodes, outputs, engine, mode);
      && a.nodes == b.nodes && a.outputs == b.outputs && Codec.Encode(a.nodes, a.outputs) == Codec.Encode(b.nodes, b.outputs)
  {
    hide NodeKey.Token, Distinct, FinalForm, ReducedGraph, Exact, Codec.Encode;
    ExactIsTotal(hash, nodes, outputs, engine);
    IncrementalEqualsOneShot(hash, nodes, outputs, engine, mode);
    FinalFormLands(hash, nodes, outputs, engine, mode);
    ReductionLands(nodes, outputs, Some(SwapsOf(hash, nodes)), engine, mode);
  }
}
