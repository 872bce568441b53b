/** The four passes composed (`reduce_oriented` of src/optimizer/mod.rs). */
module Reduce {
  import opened Collections
  import opened Nodes
  import opened Graph
  import opened Walk
  import opened Dce
  import opened Semantics
  import opened Merge
  import opened Components
  import opened Fusion
  import opened FusionPass

  /** The engine: the class of every node of a graph. */
  type Engine = seq<EngineNode> -> seq<nat>

  ghost predicate Total(engine: Engine) {
    forall g :: |engine(g)| == |g|
  }

  datatype Reduced = Reduced(nodes: seq<NodeKey>, outputs: seq<nat>, nodeMap: seq<Option<Landing>>)

  /** Operator token to the first of `keys` with it. */
  function TemplatesOf(keys: seq<NodeKey>): (t: Templates) {
    if keys == [] then map[]
    else
      var before := TemplatesOf(keys[..|keys| - 1]);
      var key := keys[|keys| - 1];
      if key.Token() in before then before else before[key.Token() := key]
  }

  lemma {:induction false} TemplatesFacts(keys: seq<NodeKey>)
    ensures forall i :: 0 <= i < |keys| ==> keys[i].Token() in TemplatesOf(keys)
    ensures forall t :: t in TemplatesOf(keys) ==>
      TemplatesOf(keys)[t].Token() == t && exists i :: 0 <= i < |keys| && keys[i] == TemplatesOf(keys)[t]
  {
    hide NodeKey.Token;
    if keys != [] {
      var m := |keys| - 1;
      TemplatesFacts(keys[..m]);
      forall t | t in TemplatesOf(keys)
        ensures TemplatesOf(keys)[t].Token() == t && exists i :: 0 <= i < |keys| && keys[i] == TemplatesOf(keys)[t]
      {
        if t in TemplatesOf(keys[..m]) {
          var i :| 0 <= i < m && keys[..m][i] == TemplatesOf(keys[..m])[t];
          assert keys[i] == TemplatesOf(keys)[t];
        } else {
          assert keys[m] == TemplatesOf(keys)[t];
        }
      }
    }
  }

  method CollectTemplates(keys: seq<NodeKey>) returns (templates: Templates)
    ensures templates == TemplatesOf(keys)
  {
    hide NodeKey.Token;
    templates := map[];
    for i := 0 to |keys|
      invariant templates == TemplatesOf(keys[..i])
    {
      assert keys[..i + 1][..i] == keys[..i];
      var token := keys[i].Token();
      if token !in templates {
        templates := templates[token := keys[i]];
      }
    }
    assert keys[..|keys|] == keys;
  }

  // ---- what the passes after DCE compute --------------------------------------------------------

  /** A graph and where each node of the graph before it went. */
  datatype Step = Step(graph: EngineGraph, remap: seq<nat>)

  /** The quotient of the cone `keys` by the classes `canon`. */
  function Quotient(keys: seq<NodeKey>, canon: seq<nat>): (c: Merged)
    requires Arena(keys) && |canon| == |keys|
    ensures |c.remap| == |keys| && Below(c.remap, |c.nodes|) && |c.reps| == |c.nodes|
  {
    Extracted(ToEngine(keys), canon, |keys|)
  }

  lemma QuotientFacts(keys: seq<NodeKey>, canon: seq<nat>)
    requires Arena(keys) && |canon| == |keys|
    ensures Merges(ToEngine(keys), Quotient(keys, canon)) && TokensMarkBoundaries(Quotient(keys, canon).nodes)
    ensures ByClass(canon, Quotient(keys, canon), |keys|)
  {
    hide NodeKey.Token, Extracted;
    var g := ToEngine(keys);
    ExtractedMerges(g, canon, |g|);
    assert g[..|g|] == g;
    MergesMarkBoundaries(g, Quotient(keys, canon));
  }

  function Hashed(keys: seq<NodeKey>, canon: seq<nat>): (d: Merged)
    requires Arena(keys) && |canon| == |keys|
    ensures |d.remap| == |Quotient(keys, canon).nodes| && Below(d.remap, |d.nodes|) && |d.reps| == |d.nodes|
  {
    QuotientFacts(keys, canon);
    Deduped(Quotient(keys, canon).nodes, |Quotient(keys, canon).nodes|)
  }

  lemma HashedFacts(keys: seq<NodeKey>, canon: seq<nat>)
    requires Arena(keys) && |canon| == |keys|
    ensures Topological(Quotient(keys, canon).nodes)
    ensures Merges(Quotient(keys, canon).nodes, Hashed(keys, canon)) && TokensMarkBoundaries(Hashed(keys, canon).nodes)
    ensures Distinct(Shapes(Hashed(keys, canon).nodes))
  {
    hide NodeKey.Token, Extracted, Deduped;
    QuotientFacts(keys, canon);
    var g := Quotient(keys, canon).nodes;
    DedupedMerges(g, |g|);
    assert g[..|g|] == g;
    MergesMarkBoundaries(g, Hashed(keys, canon));
  }

  /** Extraction then CSE over the cone `keys` with outputs `outs` and node classes `canon`. */
  function Canonical(keys: seq<NodeKey>, outs: seq<nat>, canon: seq<nat>): (s: Step)
    requires Arena(keys) && Below(outs, |keys|) && |canon| == |keys|
    ensures |s.remap| == |keys|
  {
    var c, d := Quotient(keys, canon), Hashed(keys, canon);
    Step(EngineGraph(d.nodes, Gather(d.remap, Gather(c.remap, outs))), Gather(d.remap, c.remap))
  }

  /** The facts every later step stands on. */
  lemma CanonicalFacts(keys: seq<NodeKey>, outs: seq<nat>, canon: seq<nat>)
    requires Arena(keys) && Below(outs, |keys|) && |canon| == |keys|
    ensures var s := Canonical(keys, outs, canon);
      && Graphed(s.graph) && Below(s.remap, |s.graph.nodes|)
      && TokensMarkBoundaries(s.graph.nodes) && Distinct(Shapes(s.graph.nodes))
      && s.graph.outputs == Gather(s.remap, outs)
  {
    hide NodeKey.Token, Extracted, Deduped;
    QuotientFacts(keys, canon);
    HashedFacts(keys, canon);
    GatherGather(Hashed(keys, canon).remap, Quotient(keys, canon).remap, outs);
  }

  /** `node` has the operator of `keys[i]`, and as many inputs. */
  ghost predicate CopyOfKey(keys: seq<NodeKey>, node: EngineNode, i: nat)
    requires i < |keys|
  {
    node.token == keys[i].Token() && |node.inputs| == |keys[i].Inputs()|
  }

  lemma CanonicalCopies(keys: seq<NodeKey>, outs: seq<nat>, canon: seq<nat>, k: nat) returns (i: nat)
    requires Arena(keys) && Below(outs, |keys|) && |canon| == |keys|
    requires k < |Canonical(keys, outs, canon).graph.nodes|
    ensures i < |keys| && CopyOfKey(keys, Canonical(keys, outs, canon).graph.nodes[k], i)
  {
    hide NodeKey.Token, Extracted, Deduped;
    QuotientFacts(keys, canon);
    HashedFacts(keys, canon);
    var c, d := Quotient(keys, canon), Hashed(keys, canon);
    assert CopiedFrom(c.nodes, d, k) && CopiedFrom(ToEngine(keys), c, d.reps[k]);
    i := c.reps[d.reps[k]];
    assert ToEngine(keys)[i] == ToEngineNode(keys[i]);
  }

  lemma MergesMarkBoundaries(g: seq<EngineNode>, c: Merged)
    requires Merges(g, c)
    ensures TokensMarkBoundaries(c.nodes)
  {
    forall k | 0 <= k < |c.nodes| ensures c.nodes[k].boundary == BoundaryFromToken(c.nodes[k].token) {
      assert CopiedFrom(g, c, k);
    }
  }

  /** The templates rebuild every boundary left. */
  lemma CanonicalTemplated(keys: seq<NodeKey>, outs: seq<nat>, canon: seq<nat>)
    requires Arena(keys) && Below(outs, |keys|) && |canon| == |keys|
    ensures Templated(Canonical(keys, outs, canon).graph.nodes, TemplatesOf(keys))
  {
    hide NodeKey.Token, Canonical, TemplatesOf, Distinct;
    var g := Canonical(keys, outs, canon).graph.nodes;
    forall k | 0 <= k < |g|
      ensures g[k].token in TemplatesOf(keys) && TemplatesOf(keys)[g[k].token].Token() == g[k].token
      ensures TemplatesOf(keys)[g[k].token].Source? ==> g[k].inputs == []
    {
      TemplateOfCopy(keys, outs, canon, k);
    }
  }

  lemma TemplateOfCopy(keys: seq<NodeKey>, outs: seq<nat>, canon: seq<nat>, k: nat)
    requires Arena(keys) && Below(outs, |keys|) && |canon| == |keys|
    requires k < |Canonical(keys, outs, canon).graph.nodes|
    ensures var node := Canonical(keys, outs, canon).graph.nodes[k];
      && node.token in TemplatesOf(keys) && TemplatesOf(keys)[node.token].Token() == node.token
      && (TemplatesOf(keys)[node.token].Source? ==> node.inputs == [])
  {
    hide NodeKey.Token, Canonical, TemplatesOf, Distinct;
    TemplatesFacts(keys);
    var i := CanonicalCopies(keys, outs, canon, k);
    TokenIsOperator(keys[i], TemplatesOf(keys)[Canonical(keys, outs, canon).graph.nodes[k].token]);
  }

  ghost function Finished(keys: seq<NodeKey>, outs: seq<nat>, canon: seq<nat>, mode: FusionMode,
                          remap: seq<Option<nat>>): (r: Reduced)
    requires Arena(keys) && Below(outs, |keys|) && |canon| == |keys|
    requires forall i :: 0 <= i < |remap| && remap[i].Some? ==> remap[i].value < |keys|
    ensures |r.nodeMap| == |remap|
  {
    CanonicalFacts(keys, outs, canon);
    CanonicalTemplated(keys, outs, canon);
    var s := Canonical(keys, outs, canon);
    HeadsArePlan(s.graph, mode);
    var heads := Heads(s.graph, mode);
    Reduced(FusedNodes(s.graph.nodes, heads, TemplatesOf(keys)),
            Ranks(heads, s.graph.outputs),
            seq(|remap|, i requires 0 <= i < |remap| =>
              match remap[i]
              case None => None
              case Some(d) => Some(LandingOf(s.graph.nodes, heads, s.remap[d]))))
  }

  /** The whole reduction. */
  ghost function ReducedGraph(nodes: seq<NodeKey>, outputs: seq<nat>, swap: Swaps, engine: Engine, mode: FusionMode): (r: Reduced)
    requires Arena(nodes) && Below(outputs, |nodes|) && Fits(nodes, swap) && Total(engine)
    ensures |r.nodeMap| == |nodes|
  {
    ConeFacts(nodes, outputs, swap);
    var cone := ConeOf(nodes, outputs, swap);
    Finished(cone.nodes, cone.outputs, engine(ToEngine(cone.nodes)), mode, cone.remap)
  }

  lemma ConeFacts(nodes: seq<NodeKey>, outputs: seq<nat>, swap: Swaps)
    requires Arena(nodes) && Below(outputs, |nodes|) && Fits(nodes, swap)
    ensures var cone := ConeOf(nodes, outputs, swap);
      && Arena(cone.nodes) && Below(cone.outputs, |cone.nodes|) && |cone.remap| == |nodes|
      && forall i :: 0 <= i < |nodes| && cone.remap[i].Some? ==> cone.remap[i].value < |cone.nodes|
  {
    var w := Wires(nodes, swap);
    PostOrderIsCone(w, outputs);
    KeptIsArena(nodes, w, PostOrder(w, outputs));
  }

  /** `reduce_oriented`: the four passes in turn, and their re-indexings composed. */
  method ReduceOriented(nodes: seq<NodeKey>, outputs: seq<nat>, swap: Swaps, engine: Engine, mode: FusionMode)
    returns (r: Reduced)
    requires Arena(nodes) && Below(outputs, |nodes|) && Fits(nodes, swap) && Total(engine)
    ensures r == ReducedGraph(nodes, outputs, swap, engine, mode)
  {
    hide NodeKey.Token, Extracted, Deduped, Heads, FusedNodes, LandingOf, Ranks, FusionPlan, Templated, Distinct, ConeOf;
    ConeFacts(nodes, outputs, swap);
    var keys, outs, remap := DeadCodeElimination(nodes, outputs, swap);
    var templates := CollectTemplates(keys);
    var canon := engine(ToEngine(keys));
    CanonicalFacts(keys, outs, canon);
    CanonicalTemplated(keys, outs, canon);
    QuotientFacts(keys, canon);
    var canonical, canonMap := ExtractClasses(EngineGraph(ToEngine(keys), outs), canon);
    var deduped, cseMap := Cse(canonical);
    var reduced, reducedOutputs, landing := StageFusion(deduped, templates, mode);
    var nodeMap := seq(|nodes|, i requires 0 <= i < |nodes| =>
      match remap[i] case None => None case Some(d) => Some(landing[cseMap[canonMap[d]]]));
    r := Reduced(reduced, reducedOutputs, nodeMap);
  }

  // ---- reduction keeps meaning ------------------------------------------------------------------

  /** Nodes of one class are worth the same. */
  ghost predicate Sound<V(!new)>(base: (string, seq<V>) -> V, g: seq<EngineNode>, canon: seq<nat>)
    requires Topological(g)
  {
    |canon| == |g| && forall i, j :: 0 <= i < |g| && 0 <= j < |g| && canon[i] == canon[j] ==>
      Values(base, g)[i] == Values(base, g)[j]
  }

  lemma {:induction false} CanonicalKeeps<V(!new)>(base: (string, seq<V>) -> V, keys: seq<NodeKey>, outs: seq<nat>, canon: seq<nat>)
    requires Arena(keys) && Below(outs, |keys|) && Sound(base, ToEngine(keys), canon)
    ensures var s := Canonical(keys, outs, canon);
      && Topological(s.graph.nodes) && Below(s.remap, |s.graph.nodes|)
      && Gather(Values(base, s.graph.nodes), s.remap) == Values(base, ToEngine(keys))
  {
    hide NodeKey.Token, Extracted, Deduped, Fold, Distinct;
    QuotientFacts(keys, canon);
    HashedFacts(keys, canon);
    CanonicalFacts(keys, outs, canon);
    var g := ToEngine(keys);
    var c, d := Quotient(keys, canon), Hashed(keys, canon);
    var vs := Values(base, g);
    FoldIsFold(Meaning(base), g);
    MergeFold(Meaning(base), g, c, vs);
    var us := Values(base, c.nodes);
    FoldIsFold(Meaning(base), c.nodes);
    DedupedSameValue(Meaning(base), c.nodes, us, |c.nodes|);
    assert c.nodes[..|c.nodes|] == c.nodes;
    MergeFold(Meaning(base), c.nodes, d, us);
    GatherGather(Values(base, d.nodes), d.remap, c.remap);
  }

  /** What a reduction owes its caller over `base`: the outputs keep their values, and every node the
      map places is worth what the address it names is worth. */
  ghost predicate Faithful<V(!new)>(base: (string, seq<V>) -> V, nodes: seq<NodeKey>, outputs: seq<nat>, r: Reduced)
    requires Arena(nodes) && Below(outputs, |nodes|)
  {
    && Arena(r.nodes) && Below(r.outputs, |r.nodes|) && |r.outputs| == |outputs| && |r.nodeMap| == |nodes|
    && Gather(Values(base, ToEngine(r.nodes)), r.outputs) == Gather(Values(base, ToEngine(nodes)), outputs)
    && forall i :: 0 <= i < |nodes| && r.nodeMap[i].Some? ==>
         AddressValue(base, r.nodes, r.nodeMap[i].value) == Some(Values(base, ToEngine(nodes))[i])
  }

  /** The passes after DCE are faithful to the cone. */
  lemma {:induction false} FinishedKeeps<V(!new)>(base: (string, seq<V>) -> V, keys: seq<NodeKey>, outs: seq<nat>, canon: seq<nat>,
                               mode: FusionMode, remap: seq<Option<nat>>)
    requires Arena(keys) && Below(outs, |keys|) && Sound(base, ToEngine(keys), canon)
    requires forall i :: 0 <= i < |remap| && remap[i].Some? ==> remap[i].value < |keys|
    ensures var r := Finished(keys, outs, canon, mode, remap);
      && Arena(r.nodes) && Below(r.outputs, |r.nodes|) && |r.outputs| == |outs|
      && Gather(Values(base, ToEngine(r.nodes)), r.outputs) == Gather(Values(base, ToEngine(keys)), outs)
      && forall i :: 0 <= i < |remap| && remap[i].Some? ==>
           r.nodeMap[i].Some? && AddressValue(base, r.nodes, r.nodeMap[i].value) == Some(Values(base, ToEngine(keys))[remap[i].value])
    ensures forall i :: 0 <= i < |remap| && remap[i].None? ==> Finished(keys, outs, canon, mode, remap).nodeMap[i].None?
  {
    hide NodeKey.Token, Canonical, Fold, Distinct, TemplatesOf, FusedNodes, AddressValue, LandingOf, Heads;
    CanonicalFacts(keys, outs, canon);
    CanonicalTemplated(keys, outs, canon);
    CanonicalKeeps(base, keys, outs, canon);
    var s := Canonical(keys, outs, canon);
    var heads := Heads(s.graph, mode);
    var templates := TemplatesOf(keys);
    HeadsArePlan(s.graph, mode);
    FusedFold(base, s.graph, heads, templates);
    var vs := Values(base, s.graph.nodes);
    OutputsAreHeads(s.graph, heads);
    RanksHold(heads, vs, s.graph.outputs);
    GatherGather(vs, s.remap, outs);
    forall i | 0 <= i < |remap| && remap[i].Some?
      ensures AddressValue(base, FusedNodes(s.graph.nodes, heads, templates), LandingOf(s.graph.nodes, heads, s.remap[remap[i].value]))
           == Some(Values(base, ToEngine(keys))[remap[i].value])
    {
      LandingHoldsValue(base, s.graph, heads, templates, s.remap[remap[i].value]);
    }
  }

  lemma OutputsAreHeads(graph: EngineGraph, heads: seq<nat>)
    requires Graphed(graph) && FusionPlan(graph, heads)
    ensures forall k :: 0 <= k < |graph.outputs| ==> heads[graph.outputs[k]] == graph.outputs[k]
  {
    forall k | 0 <= k < |graph.outputs| ensures heads[graph.outputs[k]] == graph.outputs[k] {
      var o := graph.outputs[k];
      assert o in graph.outputs;
      assert heads[o] == o || Inner(graph, heads, o);
    }
  }

  /** The reduction of any arena, with any outputs, in either fusion mode, is faithful over every
      backend that respects the commute rules and the engine's classes. */
  lemma {:induction false} ReductionKeepsMeaning<V(!new)>(base: (string, seq<V>) -> V, nodes: seq<NodeKey>, outputs: seq<nat>, swap: Swaps,
                                       engine: Engine, mode: FusionMode)
    requires Arena(nodes) && Below(outputs, |nodes|) && Fits(nodes, swap) && SwapsCommute(nodes, swap) && Total(engine)
    requires Commuting(base)
    requires var cone := ConeOf(nodes, outputs, swap).nodes;
      Arena(cone) && Sound(base, ToEngine(cone), engine(ToEngine(cone)))
    ensures Faithful(base, nodes, outputs, ReducedGraph(nodes, outputs, swap, engine, mode))
  {
    hide NodeKey.Token, Fold, Distinct, Finished, KeptNodes, AddressValue;
    ConeFacts(nodes, outputs, swap);
    var cone := ConeOf(nodes, outputs, swap);
    ConeKeeps(base, nodes, outputs, swap);
    FinishedKeeps(base, cone.nodes, cone.outputs, engine(ToEngine(cone.nodes)), mode, cone.remap);
  }

  lemma {:induction false} ConeKeeps<V(!new)>(base: (string, seq<V>) -> V, nodes: seq<NodeKey>, outputs: seq<nat>, swap: Swaps)
    requires Arena(nodes) && Below(outputs, |nodes|) && Fits(nodes, swap) && SwapsCommute(nodes, swap) && (swap.Some? ==> Commuting(base))
    ensures var cone := ConeOf(nodes, outputs, swap);
      && Arena(cone.nodes) && Below(cone.outputs, |cone.nodes|) && |cone.remap| == |nodes|
      && Gather(Values(base, ToEngine(cone.nodes)), cone.outputs) == Gather(Values(base, ToEngine(nodes)), outputs)
      && forall i :: 0 <= i < |nodes| && cone.remap[i].Some? ==>
           cone.remap[i].value < |cone.nodes|
           && Values(base, ToEngine(cone.nodes))[cone.remap[i].value] == Values(base, ToEngine(nodes))[i]
  {
    hide NodeKey.Token, Fold, Distinct, KeptNodes, PostOrder, Commuting, SwapsCommute, Fed;
    var w := Wires(nodes, swap);
    var order := PostOrder(w, outputs);
    PostOrderHolds(w, outputs);
    ConeFacts(nodes, outputs, swap);
    ValuesKept(base, nodes, swap, order);
    RenumberGathers(Values(base, ToEngine(nodes)), order, outputs);
  }

  lemma PostOrderHolds(w: Wiring, outputs: seq<nat>)
    requires Downward(w) && Below(outputs, |w|)
    ensures Ordered(w, PostOrder(w, outputs)) && Below(PostOrder(w, outputs), |w|) && AllIn(outputs, PostOrder(w, outputs))
  {
    hide Visit, VisitAll, Fed, Distinct;
    VisitAllFacts(w, |w|, outputs, []);
  }

  lemma {:induction false} ValuesKept<V(!new)>(base: (string, seq<V>) -> V, nodes: seq<NodeKey>, swap: Swaps, order: seq<nat>)
    requires Arena(nodes) && Fits(nodes, swap) && SwapsCommute(nodes, swap) && (swap.Some? ==> Commuting(base))
    requires Ordered(Wires(nodes, swap), order)
    ensures var kept := KeptNodes(nodes, Wires(nodes, swap), order);
      Arena(kept) && Values(base, ToEngine(kept)) == Gather(Values(base, ToEngine(nodes)), order)
  {
    hide NodeKey.Token, Fold, Ordered, KeptNodes, Meaning, SwapsCommute;
    MeaningFollowsRules(base);
    KeptFold(Meaning(base), nodes, swap, order);
  }

  /** A node has a place in the reduced graph exactly when an output depends on it. */
  lemma {:induction false} PlacedIffNeeded(nodes: seq<NodeKey>, outputs: seq<nat>, swap: Swaps, engine: Engine, mode: FusionMode, i: nat)
    requires Arena(nodes) && Below(outputs, |nodes|) && Fits(nodes, swap) && Total(engine) && i < |nodes|
    ensures ReducedGraph(nodes, outputs, swap, engine, mode).nodeMap[i].Some? <==> Needed(Wires(nodes, None), outputs, i)
  {
    hide NodeKey.Token, Fold, Distinct, KeptNodes, Canonical, Heads, FusedNodes, LandingOf;
    var w := Wires(nodes, swap);
    PostOrderIsCone(w, outputs);
    ConeFacts(nodes, outputs, swap);
    forall o: nat | o < |nodes| ensures Reaches(w, o, i) <==> Reaches(Wires(nodes, None), o, i) {
      SwapsKeepReach(nodes, swap, o, i);
    }
    assert Needed(w, outputs, i) <==> Needed(Wires(nodes, None), outputs, i);
    assert ConeOf(nodes, outputs, swap).remap[i] == Position(PostOrder(w, outputs), i);
  }

  /** The two wirings visit the same inputs, in different orders. */
  lemma SameInputs(nodes: seq<NodeKey>, swap: Swaps, o: nat, k: nat) returns (j: nat)
    requires Arena(nodes) && Fits(nodes, swap) && o < |nodes| && k < |nodes[o].Inputs()|
    ensures j < |nodes[o].Inputs()|
    ensures Wires(nodes, swap)[o][k] == Wires(nodes, None)[o][j] && Wires(nodes, None)[o][k] == Wires(nodes, swap)[o][j]
    ensures Wires(nodes, None)[o][j] < o && Wires(nodes, None)[o][k] < o
  {
    assert Below(nodes[o].Inputs(), o);
    j := if swap.Some? && swap.value[o] then 1 - k else k;
  }

  lemma {:induction false} SwapsKeepReach(nodes: seq<NodeKey>, swap: Swaps, o: nat, i: nat)
    requires Arena(nodes) && Fits(nodes, swap) && o < |nodes|
    ensures Reaches(Wires(nodes, swap), o, i) <==> Reaches(Wires(nodes, None), o, i)
    decreases o
  {
    hide Wires;
    var w, v := Wires(nodes, swap), Wires(nodes, None);
    if o != i {
      if Reaches(w, o, i) {
        var k :| 0 <= k < |w[o]| && Reaches(w, w[o][k], i);
        WiresLength(nodes, swap, o);
        var j := SameInputs(nodes, swap, o, k);
        SwapsKeepReach(nodes, swap, w[o][k], i);
        assert Reaches(v, v[o][j], i);
      }
      if Reaches(v, o, i) {
        var k :| 0 <= k < |v[o]| && Reaches(v, v[o][k], i);
        WiresLength(nodes, swap, o);
        var j := SameInputs(nodes, swap, o, k);
        SwapsKeepReach(nodes, swap, v[o][k], i);
        assert Reaches(w, w[o][j], i);
      }
    }
  }

  lemma WiresLength(nodes: seq<NodeKey>, swap: Swaps, o: nat)
    requires Fits(nodes, swap) && o < |nodes|
    ensures |Wires(nodes, swap)[o]| == |Wires(nodes, None)[o]| == |nodes[o].Inputs()|
  {
  }
}
