/** The reduction as its callers see it (src/optimizer/mod.rs, src/store.rs). */
module Pipeline {
  import opened Collections
  import opened Nodes
  import opened Graph
  import opened Walk
  import opened Dce
  import opened Semantics
  import opened Congruence
  import opened Components
  import opened Fusion
  import opened Reduce
  import opened Store

  /** `reduce_with_mode`. */
  ghost function OneShot(hash: Hash, nodes: seq<NodeKey>, outputs: seq<nat>, engine: Engine, mode: FusionMode): (r: Reduced)
    requires Arena(nodes) && Below(outputs, |nodes|) && Total(engine)
    ensures |r.nodeMap| == |nodes|
  {
    ReducedGraph(nodes, outputs, Some(SwapsOf(hash, nodes)), engine, mode)
  }

  method ReduceWithMode(hash: Hash, nodes: seq<NodeKey>, outputs: seq<nat>, engine: Engine, mode: FusionMode)
    returns (r: Reduced)
    requires Arena(nodes) && Below(outputs, |nodes|) && Total(engine)
    ensures r == OneShot(hash, nodes, outputs, engine, mode)
  {
    var swap := SymmetricSwaps(hash, nodes);
    r := ReduceOriented(nodes, outputs, Some(swap), engine, mode);
  }

  /** The oriented cone the engine is given. */
  ghost function OneShotCone(hash: Hash, nodes: seq<NodeKey>, outputs: seq<nat>): (g: seq<EngineNode>)
    requires Arena(nodes) && Below(outputs, |nodes|)
    ensures Topological(g)
  {
    ConeFacts(nodes, outputs, Some(SwapsOf(hash, nodes)));
    ToEngine(ConeOf(nodes, outputs, Some(SwapsOf(hash, nodes))).nodes)
  }

  /** Reduction preserves meaning: over any backend where the shared rules hold, for any engine that
      merges only what those rules make equal, any hash, and either fusion mode. */
  lemma {:induction false} OneShotKeepsMeaning<V(!new)>(base: (string, seq<V>) -> V, hash: Hash, nodes: seq<NodeKey>,
                                                        outputs: seq<nat>, engine: Engine, mode: FusionMode)
    requires Arena(nodes) && Below(outputs, |nodes|) && Total(engine) && Commuting(base) && Eliding(base)
    requires Justified(OneShotCone(hash, nodes, outputs), engine(OneShotCone(hash, nodes, outputs)))
    ensures Faithful(base, nodes, outputs, OneShot(hash, nodes, outputs, engine, mode))
  {
    hide NodeKey.Token, Fold, Distinct, ReducedGraph, Faithful, Congruent, Commuting, Eliding;
    var swap := SwapsOf(hash, nodes);
    var g := OneShotCone(hash, nodes, outputs);
    SwapsOfCommute(hash, nodes);
    ConeFacts(nodes, outputs, Some(swap));
    MeaningFollowsRules(base);
    forall i, j | 0 <= i < |g| && 0 <= j < |g| && engine(g)[i] == engine(g)[j]
      ensures Values(base, g)[i] == Values(base, g)[j]
    {
      JustifiedValues(Meaning(base), g, engine(g), i, j);
    }
    ReductionKeepsMeaning(base, nodes, outputs, Some(swap), engine, mode);
  }

  // ---- no node twice, so no id moves ------------------------------------------------------------

  predicate StageFree(nodes: seq<NodeKey>) {
    forall i :: 0 <= i < |nodes| ==> !nodes[i].Stage?
  }

  lemma RewiredIsNoStage(key: NodeKey, ins: seq<NodeId>)
    requires !key.Stage?
    ensures !key.WithInputs(ins).Stage?
  {
  }

  lemma KeptStageFree(nodes: seq<NodeKey>, w: Wiring, order: seq<nat>)
    requires |w| == |nodes| && Ordered(w, order) && StageFree(nodes)
    ensures StageFree(KeptNodes(nodes, w, order))
  {
    hide NodeKey.WithInputs, NodeKey.Inputs, Ordered, KeptNodes, Renumber;
    OrderedBelow(w, order);
    forall p | 0 <= p < |order| ensures !KeptNodes(nodes, w, order)[p].Stage? {
      KeptAt(nodes, w, order, p);
      RewiredIsNoStage(nodes[order[p]], Renumber(order, w[order[p]]));
    }
  }

  /** The reduced nodes of an arena that records no stage are pairwise distinct. */
  lemma {:induction false} ReducedDistinct(nodes: seq<NodeKey>, outputs: seq<nat>, swap: Swaps, engine: Engine, mode: FusionMode)
    requires Arena(nodes) && Below(outputs, |nodes|) && Fits(nodes, swap) && Total(engine) && StageFree(nodes)
    ensures Distinct(ReducedGraph(nodes, outputs, swap, engine, mode).nodes)
  {
    hide NodeKey.Token, Fold, Distinct, KeptNodes, Canonical, Heads, FusedNodes, TemplatesOf, FusionPlan;
    var w := Wires(nodes, swap);
    PostOrderIsCone(w, outputs);
    KeptStageFree(nodes, w, PostOrder(w, outputs));
    ConeFacts(nodes, outputs, swap);
    var cone := ConeOf(nodes, outputs, swap);
    var canon := engine(ToEngine(cone.nodes));
    CanonicalFacts(cone.nodes, cone.outputs, canon);
    CanonicalTemplated(cone.nodes, cone.outputs, canon);
    var graph := Canonical(cone.nodes, cone.outputs, canon).graph;
    var templates := TemplatesOf(cone.nodes);
    TemplatesFacts(cone.nodes);
    HeadsArePlan(graph, mode);
    forall i | 0 <= i < |graph.nodes| && graph.nodes[i].boundary ensures !templates[graph.nodes[i].token].Stage? {
      var p :| 0 <= p < |cone.nodes| && cone.nodes[p] == templates[graph.nodes[i].token];
    }
    FusedDistinct(graph, Heads(graph, mode), templates);
  }

  /** The reduced graph, its outputs and map as the rebuilt store holds them. */
  datatype Stored = Stored(nodes: seq<NodeKey>, outputs: seq<NodeId>, nodeMap: seq<Option<Landing>>)

  ghost function StoredOf(red: Reduced): (s: Stored)
    requires Arena(red.nodes) && Below(red.outputs, |red.nodes|) && LandsIn(red.nodeMap, |red.nodes|)
  {
    var r := Reinterned(red.nodes, |red.nodes|);
    Stored(r.nodes, Marked([], Gather(r.map_, red.outputs)), Relanded(red.nodeMap, r.map_))
  }

  /** Rebuilding a stage-free arena's reduction moves no node and no landing. */
  lemma {:induction false} RebuildIsIdentity(nodes: seq<NodeKey>, outputs: seq<nat>, swap: Swaps, engine: Engine, mode: FusionMode)
    requires Arena(nodes) && Below(outputs, |nodes|) && Fits(nodes, swap) && Total(engine) && StageFree(nodes)
    ensures var r := ReducedGraph(nodes, outputs, swap, engine, mode);
      && Arena(r.nodes) && Below(r.outputs, |r.nodes|) && LandsIn(r.nodeMap, |r.nodes|)
      && StoredOf(r) == Stored(r.nodes, Marked([], r.outputs), r.nodeMap)
  {
    hide NodeKey.Token, Fold, Distinct, ReducedGraph, Reinterned;
    var r := ReducedGraph(nodes, outputs, swap, engine, mode);
    ReductionLands(nodes, outputs, swap, engine, mode);
    ReducedDistinct(nodes, outputs, swap, engine, mode);
    ReinternIsIdentity(r.nodes, |r.nodes|);
    assert r.nodes[..|r.nodes|] == r.nodes;
    assert Gather(UpTo(|r.nodes|), r.outputs) == r.outputs;
    assert Relanded(r.nodeMap, UpTo(|r.nodes|)) == r.nodeMap;
  }

  /** The reduction's landings name reduced nodes, and its nodes are an arena. */
  lemma {:induction false} ReductionLands(nodes: seq<NodeKey>, outputs: seq<nat>, swap: Swaps, engine: Engine, mode: FusionMode)
    requires Arena(nodes) && Below(outputs, |nodes|) && Fits(nodes, swap) && Total(engine)
    ensures var r := ReducedGraph(nodes, outputs, swap, engine, mode);
      && Arena(r.nodes) && Below(r.outputs, |r.nodes|) && |r.outputs| == |outputs| && LandsIn(r.nodeMap, |r.nodes|)
      && forall k :: 0 <= k < |outputs| ==>
           r.nodeMap[outputs[k]].Some? && r.nodeMap[outputs[k]].value.0 == r.outputs[k]
  {
    hide NodeKey.Token, Fold, Distinct, ConeOf, Finished, ReducedGraph;
    ConeFacts(nodes, outputs, swap);
    ConeHoldsOutputs(nodes, outputs, swap);
    var cone := ConeOf(nodes, outputs, swap);
    var canon := engine(ToEngine(cone.nodes));
    FinishedLands(cone.nodes, cone.outputs, canon, mode, cone.remap);
    ReducedIsFinished(nodes, outputs, swap, engine, mode);
  }

  lemma {:induction false} ReducedIsFinished(nodes: seq<NodeKey>, outputs: seq<nat>, swap: Swaps, engine: Engine, mode: FusionMode)
    requires Arena(nodes) && Below(outputs, |nodes|) && Fits(nodes, swap) && Total(engine)
    ensures var cone := ConeOf(nodes, outputs, swap);
      && Arena(cone.nodes) && Below(cone.outputs, |cone.nodes|) && |cone.remap| == |nodes|
      && (forall i :: 0 <= i < |nodes| && cone.remap[i].Some? ==> cone.remap[i].value < |cone.nodes|)
      && |engine(ToEngine(cone.nodes))| == |cone.nodes|
      && ReducedGraph(nodes, outputs, swap, engine, mode)
         == Finished(cone.nodes, cone.outputs, engine(ToEngine(cone.nodes)), mode, cone.remap)
  {
    hide NodeKey.Token, Fold, Distinct, ConeOf, Finished;
    ConeFacts(nodes, outputs, swap);
  }

  lemma ConeHoldsOutputs(nodes: seq<NodeKey>, outputs: seq<nat>, swap: Swaps)
    requires Arena(nodes) && Below(outputs, |nodes|) && Fits(nodes, swap)
    ensures var cone := ConeOf(nodes, outputs, swap);
      |cone.remap| == |nodes| && |cone.outputs| == |outputs|
      && forall k :: 0 <= k < |outputs| ==> cone.remap[outputs[k]] == Some(cone.outputs[k])
  {
    hide NodeKey.Token, KeptNodes, PostOrder, Fed, Distinct;
    var w := Wires(nodes, swap);
    PostOrderHolds(w, outputs);
    forall k | 0 <= k < |outputs| ensures outputs[k] in PostOrder(w, outputs) { }
  }

  lemma {:induction false} FinishedLands(keys: seq<NodeKey>, outs: seq<nat>, canon: seq<nat>, mode: FusionMode,
                                         remap: seq<Option<nat>>)
    requires Arena(keys) && Below(outs, |keys|) && |canon| == |keys|
    requires forall i :: 0 <= i < |remap| && remap[i].Some? ==> remap[i].value < |keys|
    ensures var r := Finished(keys, outs, canon, mode, remap);
      && Arena(r.nodes) && Below(r.outputs, |r.nodes|) && |r.outputs| == |outs| && LandsIn(r.nodeMap, |r.nodes|)
      && forall i, k :: 0 <= i < |remap| && 0 <= k < |outs| && remap[i] == Some(outs[k]) ==>
           r.nodeMap[i].Some? && r.nodeMap[i].value.0 == r.outputs[k]
  {
    hide NodeKey.Token, Fold, Distinct, Canonical, Heads, FusedNodes, TemplatesOf;
    CanonicalFacts(keys, outs, canon);
    CanonicalTemplated(keys, outs, canon);
    var s := Canonical(keys, outs, canon);
    HeadsArePlan(s.graph, mode);
    FusedFold((t: string, vs: seq<int>) => 0, s.graph, Heads(s.graph, mode), TemplatesOf(keys));
  }

  // ---- re-interning keeps meaning ---------------------------------------------------------------

  /** Re-interning sends every node to one with its operator, over the moved inputs. */
  ghost predicate Moved(nodes: seq<NodeKey>, r: Rebuilt) {
    && Arena(r.nodes) && |r.map_| <= |nodes| && Below(r.map_, |r.nodes|)
    && forall i :: 0 <= i < |r.map_| ==> MovedTo(nodes, r, i)
  }

  ghost predicate MovedTo(nodes: seq<NodeKey>, r: Rebuilt, i: nat)
    requires i < |r.map_| <= |nodes| && Below(r.map_, |r.nodes|)
  {
    && Below(nodes[i].Inputs(), i)
    && r.nodes[r.map_[i]] == nodes[i].WithInputs(Gather(r.map_, nodes[i].Inputs()))
  }

  lemma StepMoves(nodes: seq<NodeKey>, before: Rebuilt, m: nat)
    requires m < |nodes| && |before.map_| == m && Moved(nodes, before) && Below(nodes[m].Inputs(), m)
    ensures Moved(nodes, ReinternStep(before, nodes[m]))
  {
    hide NodeKey.Token, IndexOf;
    var r := ReinternStep(before, nodes[m]);
    var moved := nodes[m].WithInputs(Gather(before.map_, nodes[m].Inputs()));
    assert r.nodes[r.map_[m]] == moved;
    forall i | 0 <= i < |r.map_| ensures MovedTo(nodes, r, i) {
      if i < m { assert MovedTo(nodes, before, i); }
      assert Gather(r.map_, nodes[i].Inputs()) == Gather(before.map_, nodes[i].Inputs());
    }
    assert Below(moved.Inputs(), |before.nodes|);
    forall i | 0 <= i < |r.nodes| ensures Below(r.nodes[i].Inputs(), i) {
      if i < |before.nodes| { assert Below(before.nodes[i].Inputs(), i); }
    }
  }

  lemma {:induction false} ReinternMoves(nodes: seq<NodeKey>, m: nat)
    requires Arena(nodes) && m <= |nodes|
    ensures Moved(nodes, Reinterned(nodes, m))
  {
    hide NodeKey.Token, ReinternStep, MovedTo;
    if m > 0 {
      ReinternMoves(nodes, m - 1);
      assert Below(nodes[m - 1].Inputs(), m - 1);
      StepMoves(nodes, Reinterned(nodes, m - 1), m - 1);
    }
  }

  /** Whether or not it merged nodes, re-interning keeps every node's value. */
  lemma {:induction false} MovedFold<V>(f: (string, seq<V>) -> V, nodes: seq<NodeKey>, r: Rebuilt)
    requires Arena(nodes) && Moved(nodes, r) && |r.map_| == |nodes|
    ensures Gather(Fold(f, ToEngine(r.nodes)), r.map_) == Fold(f, ToEngine(nodes))
  {
    hide NodeKey.Token, Fold;
    var g, h := ToEngine(nodes), ToEngine(r.nodes);
    var us := Fold(f, h);
    FoldIsFold(f, h);
    var vs := Gather(us, r.map_);
    forall i | 0 <= i < |g| ensures vs[i] == f(g[i].token, Gather(vs, g[i].inputs)) {
      MovedNodeFold(f, nodes, r, us, i);
    }
    FoldUnique(f, g, vs);
  }

  lemma {:induction false} MovedNodeFold<V>(f: (string, seq<V>) -> V, nodes: seq<NodeKey>, r: Rebuilt, us: seq<V>, i: nat)
    requires Arena(nodes) && Moved(nodes, r) && |r.map_| == |nodes| && i < |nodes| && IsFold(f, ToEngine(r.nodes), us)
    ensures Below(nodes[i].Inputs(), i)
    ensures us[r.map_[i]] == f(nodes[i].Token(), Gather(Gather(us, r.map_), nodes[i].Inputs()))
  {
    hide NodeKey.Token, Fold;
    assert MovedTo(nodes, r, i);
    var key := r.nodes[r.map_[i]];
    assert ToEngine(r.nodes)[r.map_[i]] == ToEngineNode(key);
    SameOperatorSameToken(nodes[i], Gather(r.map_, nodes[i].Inputs()));
    assert Gather(us, key.Inputs()) == Gather(Gather(us, r.map_), nodes[i].Inputs());
  }

  lemma {:induction false} MovedAddress<V(!new)>(base: (string, seq<V>) -> V, nodes: seq<NodeKey>, r: Rebuilt, at: Landing)
    requires Arena(nodes) && Moved(nodes, r) && |r.map_| == |nodes| && at.0 < |nodes|
    ensures AddressValue(base, r.nodes, (r.map_[at.0], at.1)) == AddressValue(base, nodes, at)
  {
    hide NodeKey.Token, Fold;
    MovedFold(Meaning(base), nodes, r);
    assert MovedTo(nodes, r, at.0);
    var us, vs := Values(base, ToEngine(r.nodes)), Values(base, ToEngine(nodes));
    assert Gather(us, r.nodes[r.map_[at.0]].Inputs()) == Gather(vs, nodes[at.0].Inputs());
  }

  // ---- what the caller reads back ---------------------------------------------------------------

  /** What the caller of a reduction is owed: each requested node lands on a marked output of its
      value, and every landing holds the value of the node it is the landing of. */
  ghost predicate ReadsBack<V(!new)>(base: (string, seq<V>) -> V, nodes: seq<NodeKey>, outputs: seq<nat>, st: Stored)
    requires Arena(nodes) && Below(outputs, |nodes|)
  {
    && Arena(st.nodes) && Below(st.outputs, |st.nodes|) && Distinct(st.outputs) && |st.nodeMap| == |nodes|
    && (forall i :: 0 <= i < |nodes| && st.nodeMap[i].Some? ==>
          AddressValue(base, st.nodes, st.nodeMap[i].value) == Some(Values(base, ToEngine(nodes))[i]))
    && forall k :: 0 <= k < |outputs| ==> SlotHolds(base, nodes, st, outputs[k])
  }

  /** `values[slot(a)]` is the value of `a`, where `values` are the evaluated outputs of the store. */
  ghost predicate SlotHolds<V(!new)>(base: (string, seq<V>) -> V, nodes: seq<NodeKey>, st: Stored, a: nat)
    requires Arena(nodes) && a < |nodes| == |st.nodeMap| && Arena(st.nodes) && Below(st.outputs, |st.nodes|)
  {
    && st.nodeMap[a].Some? && st.nodeMap[a].value.0 in st.outputs
    && Gather(Values(base, ToEngine(st.nodes)), st.outputs)[SlotOfNode(st, a)] == Values(base, ToEngine(nodes))[a]
  }

  /** `_slot_of`: the position, among the marked outputs, of the node an array landed on. */
  function SlotOfNode(st: Stored, a: nat): (slot: nat)
    requires a < |st.nodeMap| && st.nodeMap[a].Some? && st.nodeMap[a].value.0 in st.outputs
  {
    IndexOf(st.outputs, st.nodeMap[a].value.0)
  }

  lemma {:induction false} StoredReadsBack<V(!new)>(base: (string, seq<V>) -> V, nodes: seq<NodeKey>, outputs: seq<nat>, red: Reduced)
    requires Arena(nodes) && Below(outputs, |nodes|) && Faithful(base, nodes, outputs, red) && LandsIn(red.nodeMap, |red.nodes|)
    requires forall k :: 0 <= k < |outputs| ==>
      red.nodeMap[outputs[k]].Some? && red.nodeMap[outputs[k]].value.0 == red.outputs[k]
    ensures ReadsBack(base, nodes, outputs, StoredOf(red))
  {
    hide NodeKey.Token, Fold, Distinct, AddressValue, Values, Moved, IndexOf, Reinterned;
    var r := Reinterned(red.nodes, |red.nodes|);
    var st := StoredOf(red);
    var marks := Gather(r.map_, red.outputs);
    ReinternMoves(red.nodes, |red.nodes|);
    MovedIsArena(red.nodes, r);
    MarkedFacts(marks);
    MarkedBelow(marks, |st.nodes|);
    forall i | 0 <= i < |nodes| && st.nodeMap[i].Some?
      ensures AddressValue(base, st.nodes, st.nodeMap[i].value) == Some(Values(base, ToEngine(nodes))[i])
    {
      MovedAddress(base, red.nodes, r, red.nodeMap[i].value);
    }
    forall k | 0 <= k < |outputs| ensures SlotHolds(base, nodes, st, outputs[k]) {
      assert marks[k] in marks;
      MovedValue(base, red.nodes, r, red.outputs[k]);
      assert Gather(Values(base, ToEngine(red.nodes)), red.outputs)[k] == Gather(Values(base, ToEngine(nodes)), outputs)[k];
    }
  }

  lemma MovedIsArena(nodes: seq<NodeKey>, r: Rebuilt)
    requires Moved(nodes, r)
    ensures Arena(r.nodes) && Below(r.map_, |r.nodes|)
  {
  }

  lemma MarkedBelow(marks: seq<NodeId>, n: nat)
    requires Below(marks, n)
    ensures Below(Marked([], marks), n)
  {
    MarkedFacts(marks);
    var outs := Marked([], marks);
    forall k | 0 <= k < |outs| ensures outs[k] < n { assert outs[k] in marks; }
  }

  lemma {:induction false} MovedValue<V(!new)>(base: (string, seq<V>) -> V, nodes: seq<NodeKey>, r: Rebuilt, i: nat)
    requires Arena(nodes) && Moved(nodes, r) && |r.map_| == |nodes| && i < |nodes|
    ensures Values(base, ToEngine(r.nodes))[r.map_[i]] == Values(base, ToEngine(nodes))[i]
  {
    hide NodeKey.Token, Fold;
    MovedFold(Meaning(base), nodes, r);
    assert Gather(Fold(Meaning(base), ToEngine(r.nodes)), r.map_)[i] == Fold(Meaning(base), ToEngine(nodes))[i];
  }

  /** The store a request compiles to. */
  ghost function Compiled(hash: Hash, nodes: seq<NodeKey>, outputs: seq<nat>, engine: Engine, mode: FusionMode): (st: Stored)
    requires Arena(nodes) && Below(outputs, |nodes|) && Total(engine)
  {
    ReductionLands(nodes, outputs, Some(SwapsOf(hash, nodes)), engine, mode);
    StoredOf(OneShot(hash, nodes, outputs, engine, mode))
  }

  /** End to end: after reduction, re-interning and output deduplication, every requested array's slot
      holds the value the recorded graph gives it, and every placed node's landing holds its value. */
  lemma {:induction false} SlotsHoldValues<V(!new)>(base: (string, seq<V>) -> V, hash: Hash, nodes: seq<NodeKey>,
                                                    outputs: seq<nat>, engine: Engine, mode: FusionMode)
    requires Arena(nodes) && Below(outputs, |nodes|) && Total(engine) && Commuting(base) && Eliding(base)
    requires Justified(OneShotCone(hash, nodes, outputs), engine(OneShotCone(hash, nodes, outputs)))
    ensures ReadsBack(base, nodes, outputs, Compiled(hash, nodes, outputs, engine, mode))
  {
    hide NodeKey.Token, Fold, Distinct, ReducedGraph, Faithful, Commuting, Eliding, Justified, ReadsBack, StoredOf, OneShotCone;
    var red := OneShot(hash, nodes, outputs, engine, mode);
    OneShotKeepsMeaning(base, hash, nodes, outputs, engine, mode);
    ReductionLands(nodes, outputs, Some(SwapsOf(hash, nodes)), engine, mode);
    StoredReadsBack(base, nodes, outputs, red);
  }

  /** `reduce_with_outputs`: the reduction of a store for an explicit output request, rebuilt in a new
      store; a request for a node the store does not hold is refused. The store itself is untouched. */
  method ReduceWithOutputs(hash: Hash, store: GraphStore, outputs: seq<NodeId>, engine: Engine, mode: FusionMode)
    returns (r: Result<GraphStore, StoreError>)
    requires store.Valid() && Total(engine)
    ensures r.Ok? <==> Below(outputs, |store.nodes|)
    ensures r.Err? ==> FirstBeyond(outputs, |store.nodes|) == Some(r.error.id)
    ensures r.Ok? ==> fresh(r.value) && r.value.Valid()
    ensures r.Ok? ==> Stored(r.value.nodes, r.value.outputs, r.value.nodeMap) == Compiled(hash, store.nodes, outputs, engine, mode)
  {
    hide NodeKey.Token, Fold, Distinct, ReducedGraph;
    var held := ArenaHolding(store, outputs);
    if held.Err? { return Err(held.error); }
    var red := ReduceWithMode(hash, held.value, outputs, engine, mode);
    ReductionLands(store.nodes, outputs, Some(SwapsOf(hash, store.nodes)), engine, mode);
    var out := FromReduced(red);
    return Ok(out);
  }

  /** `arena_holding`. */
  method ArenaHolding(store: GraphStore, outputs: seq<NodeId>) returns (r: Result<seq<NodeKey>, StoreError>)
    requires store.Valid()
    ensures r.Ok? <==> Below(outputs, |store.nodes|)
    ensures r.Ok? ==> r.value == store.nodes
    ensures r.Err? ==> FirstBeyond(outputs, |store.nodes|) == Some(r.error.id)
  {
    for k := 0 to |outputs|
      invariant Below(outputs[..k], |store.nodes|)
    {
      if outputs[k] >= |store.nodes| {
        FirstBeyondAt(outputs, |store.nodes|, k);
        return Err(BadNodeId(outputs[k]));
      }
      TakeMore(outputs, k);
    }
    assert outputs[..|outputs|] == outputs;
    return Ok(store.nodes);
  }

  // ---- the cone alone ---------------------------------------------------------------------------

  /** The 1:1 cone as a reduction: every kept node on its own, unrewritten. */
  ghost function ConeAlone(nodes: seq<NodeKey>, outputs: seq<nat>): (r: Reduced)
    requires Arena(nodes) && Below(outputs, |nodes|)
  {
    var cone := ConeOf(nodes, outputs, None);
    Reduced(cone.nodes, cone.outputs, Whole(cone.remap))
  }

  function Whole(remap: seq<Option<nat>>): (r: seq<Option<Landing>>)
    ensures |r| == |remap|
  {
    seq(|remap|, i requires 0 <= i < |remap| =>
      match remap[i] case None => None case Some(d) => Some((d, None)))
  }

  /** The store a request compiles to at level 0. */
  ghost function CompiledCone(nodes: seq<NodeKey>, outputs: seq<nat>): (st: Stored)
    requires Arena(nodes) && Below(outputs, |nodes|)
  {
    ConeFacts(nodes, outputs, None);
    StoredOf(ConeAlone(nodes, outputs))
  }

  /** `cone`, the compiler at level 0. */
  method Cone0(store: GraphStore, outputs: seq<NodeId>) returns (r: Result<GraphStore, StoreError>)
    requires store.Valid()
    ensures r.Ok? <==> Below(outputs, |store.nodes|)
    ensures r.Err? ==> FirstBeyond(outputs, |store.nodes|) == Some(r.error.id)
    ensures r.Ok? ==> fresh(r.value) && r.value.Valid()
    ensures r.Ok? ==> Stored(r.value.nodes, r.value.outputs, r.value.nodeMap) == CompiledCone(store.nodes, outputs)
  {
    hide NodeKey.Token, Fold, Distinct, ConeOf;
    var held := ArenaHolding(store, outputs);
    if held.Err? { return Err(held.error); }
    ConeFacts(store.nodes, outputs, None);
    var kept, outs, remap := DeadCodeElimination(held.value, outputs, None);
    var out := FromReduced(Reduced(kept, outs, Whole(remap)));
    return Ok(out);
  }

  /** Level 0 needs no rule to hold: over any backend, what is read back is what was recorded. */
  lemma {:induction false} ConeReadsBack<V(!new)>(base: (string, seq<V>) -> V, nodes: seq<NodeKey>, outputs: seq<nat>)
    requires Arena(nodes) && Below(outputs, |nodes|)
    ensures ReadsBack(base, nodes, outputs, CompiledCone(nodes, outputs))
  {
    hide NodeKey.Token, Fold, Distinct, ConeOf, ReadsBack, StoredOf;
    var red := ConeAlone(nodes, outputs);
    ConeFacts(nodes, outputs, None);
    ConeHoldsOutputs(nodes, outputs, None);
    ConeKeeps(base, nodes, outputs, None);
    StoredReadsBack(base, nodes, outputs, red);
  }

  // ---- the leading slots ------------------------------------------------------------------------

  lemma {:induction false} MarkedPrefix(marks: seq<NodeId>, m: nat)
    requires m <= |marks|
    ensures Marked([], marks[..m]) <= Marked([], marks)
  {
    if m < |marks| {
      var n := |marks| - 1;
      MarkedPrefix(marks[..n], m);
      assert marks[..n][..m] == marks[..m];
    } else {
      assert marks[..m] == marks;
    }
  }

  /** The slots of the first `m` requests. */
  ghost function SlotSet(st: Stored, outputs: seq<nat>, m: nat): (s: set<nat>)
    requires m <= |outputs| && Below(outputs, |st.nodeMap|)
    requires forall k :: 0 <= k < |outputs| ==> st.nodeMap[outputs[k]].Some? && st.nodeMap[outputs[k]].value.0 in st.outputs
  {
    set k {:trigger outputs[k]} | 0 <= k < m :: SlotOfNode(st, outputs[k])
  }

  /** Outputs requested first lead the evaluated list: the distinct slots of the first `m` requests are
      exactly `0..n`, where `n` counts them. */
  lemma {:induction false} CompiledLeads(hash: Hash, nodes: seq<NodeKey>, outputs: seq<nat>, engine: Engine, mode: FusionMode, m: nat)
    requires Arena(nodes) && Below(outputs, |nodes|) && Total(engine) && m <= |outputs|
    ensures var st := Compiled(hash, nodes, outputs, engine, mode);
      && |st.nodeMap| == |nodes|
      && (forall k :: 0 <= k < |outputs| ==> st.nodeMap[outputs[k]].Some? && st.nodeMap[outputs[k]].value.0 in st.outputs)
      && forall s :: s in SlotSet(st, outputs, m) <==> 0 <= s < |SlotSet(st, outputs, m)|
  {
    hide NodeKey.Token, Fold, Distinct, ReducedGraph, Reinterned, Marked, IndexOf;
    ReductionLands(nodes, outputs, Some(SwapsOf(hash, nodes)), engine, mode);
    LeadingSlots(OneShot(hash, nodes, outputs, engine, mode), outputs, m);
  }

  /** The slots of any rebuilt reduction whose landings agree with its outputs. */
  lemma {:induction false} LeadingSlots(red: Reduced, outputs: seq<nat>, m: nat)
    requires Arena(red.nodes) && Below(red.outputs, |red.nodes|) && LandsIn(red.nodeMap, |red.nodes|)
    requires |red.outputs| == |outputs| && Below(outputs, |red.nodeMap|) && m <= |outputs|
    requires forall k :: 0 <= k < |outputs| ==>
      red.nodeMap[outputs[k]].Some? && red.nodeMap[outputs[k]].value.0 == red.outputs[k]
    ensures var st := StoredOf(red);
      && (forall k :: 0 <= k < |outputs| ==> st.nodeMap[outputs[k]].Some? && st.nodeMap[outputs[k]].value.0 in st.outputs)
      && forall s :: s in SlotSet(st, outputs, m) <==> 0 <= s < |SlotSet(st, outputs, m)|
  {
    hide NodeKey.Token, Fold, Distinct, IndexOf, Reinterned, Marked;
    var r := Reinterned(red.nodes, |red.nodes|);
    var st := StoredOf(red);
    var marks := Gather(r.map_, red.outputs);
    MarkedFacts(marks);
    forall k | 0 <= k < |outputs| ensures st.nodeMap[outputs[k]] == Some((marks[k], red.nodeMap[outputs[k]].value.1)) && marks[k] in st.outputs {
      assert marks[k] in marks;
    }
    LeadIndices(marks, m);
    var n := |Marked([], marks[..m])|;
    SlotsAreIndices(st, outputs, marks, m, n);
  }

  ghost predicate MarkedAt(marks: seq<NodeId>, k: nat, s: nat) {
    k < |marks| && marks[k] in Marked([], marks) && IndexOf(Marked([], marks), marks[k]) == s
  }

  /** One of the first `m` marks is at position `s`. */
  ghost predicate Leads(marks: seq<NodeId>, m: nat, s: nat) {
    exists k :: 0 <= k < m && MarkedAt(marks, k, s)
  }

  /** The first marks take the first positions, all of them. */
  lemma LeadIndices(marks: seq<NodeId>, m: nat)
    requires m <= |marks|
    ensures forall k :: 0 <= k < |marks| ==> marks[k] in Marked([], marks)
    ensures var n := |Marked([], marks[..m])|;
      && (forall k :: 0 <= k < m ==> IndexOf(Marked([], marks), marks[k]) < n)
      && (forall s :: 0 <= s < n ==> Leads(marks, m, s))
  {
    hide Distinct, IndexOf, Marked;
    var outs, lead := Marked([], marks), Marked([], marks[..m]);
    MarkedFacts(marks);
    MarkedFacts(marks[..m]);
    MarkedPrefix(marks, m);
    forall k | 0 <= k < m ensures IndexOf(outs, marks[k]) < |lead| {
      assert marks[..m][k] in marks[..m];
      assert outs[..|lead|] == lead;
      IndexOfPrefix(outs, |lead|, marks[k]);
    }
    forall s | 0 <= s < |lead| ensures Leads(marks, m, s) {
      assert lead[s] in marks[..m];
      var k := IndexOf(marks[..m], lead[s]);
      IndexOfAt(outs, s);
      assert outs[s] == lead[s] == marks[k];
      assert MarkedAt(marks, k, s);
    }
  }

  lemma SlotsAreIndices(st: Stored, outputs: seq<nat>, marks: seq<NodeId>, m: nat, n: nat)
    requires m <= |outputs| == |marks| && Below(outputs, |st.nodeMap|) && st.outputs == Marked([], marks)
    requires forall k :: 0 <= k < |outputs| ==>
      st.nodeMap[outputs[k]].Some? && st.nodeMap[outputs[k]].value.0 == marks[k] && marks[k] in st.outputs
    requires forall k :: 0 <= k < m ==> IndexOf(st.outputs, marks[k]) < n
    requires forall s :: 0 <= s < n ==> Leads(marks, m, s)
    ensures forall s :: s in SlotSet(st, outputs, m) <==> 0 <= s < |SlotSet(st, outputs, m)|
  {
    hide Distinct, IndexOf, Marked;
    var slots := SlotSet(st, outputs, m);
    forall s | s in slots ensures 0 <= s < n {
      var k :| 0 <= k < m && s == SlotOfNode(st, outputs[k]);
    }
    forall s | 0 <= s < n ensures s in slots {
      assert Leads(marks, m, s);
      var k :| 0 <= k < m && MarkedAt(marks, k, s);
      assert s == SlotOfNode(st, outputs[k]);
    }
    SetBelow(slots, n);
  }
}
