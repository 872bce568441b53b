/** Compile, serialize, load, evaluate, look up by slot. */
module EndToEnd {
  import opened Collections
  import opened Nodes
  import opened Graph
  import opened Walk
  import opened Dce
  import opened Semantics
  import opened Congruence
  import opened Components
  import opened Fusion
  import opened Reduce
  import opened Store
  import opened Pipeline
  import opened Evaluate
  import opened Independence
  import Codec
  import Serialize

  // ---- a reduced graph can be run ---------------------------------------------------------------

  /** A stage's references fit as many inputs as it has. */
  predicate StageFits(key: NodeKey) {
    key.Stage? ==> StageOk(key.members, |key.inputs|)
  }

  predicate StagesFit(nodes: seq<NodeKey>) {
    forall i :: 0 <= i < |nodes| ==> StageFits(nodes[i])
  }

  lemma SameShapeFits(a: NodeKey, b: NodeKey)
    requires StageFits(a) && a.Token() == b.Token() && |a.Inputs()| == |b.Inputs()|
    ensures StageFits(b)
  {
    hide NodeKey.Token;
    TokenIsOperator(a, b);
  }

  lemma KeptFit(nodes: seq<NodeKey>, w: Wiring, order: seq<nat>)
    requires |w| == |nodes| && Ordered(w, order) && StagesFit(nodes)
    requires forall i :: 0 <= i < |nodes| ==> |w[i]| == |nodes[i].Inputs()|
    ensures StagesFit(KeptNodes(nodes, w, order))
  {
    hide NodeKey.Token, Ordered;
    OrderedBelow(w, order);
    forall p | 0 <= p < |order| ensures StageFits(KeptNodes(nodes, w, order)[p]) {
      KeptAt(nodes, w, order, p);
      assert StageFits(nodes[order[p]]);
    }
  }

  lemma {:induction false} FusedFit(keys: seq<NodeKey>, outs: seq<nat>, canon: seq<nat>, mode: FusionMode)
    requires Arena(keys) && Below(outs, |keys|) && |canon| == |keys| && StagesFit(keys)
    ensures var g := Canonical(keys, outs, canon).graph;
      && Graphed(g) && FusionPlan(g, Heads(g, mode)) && Templated(g.nodes, TemplatesOf(keys))
      && StagesFit(FusedNodes(g.nodes, Heads(g, mode), TemplatesOf(keys)))
  {
    hide NodeKey.Token, Canonical, TemplatesOf, Heads, FusedNode, Distinct, StageFits, FusionPlan;
    CanonicalFacts(keys, outs, canon);
    CanonicalTemplated(keys, outs, canon);
    var g := Canonical(keys, outs, canon).graph;
    var heads := Heads(g, mode);
    HeadsArePlan(g, mode);
    PlanFacts(g, heads);
    HeadListFacts(heads);
    forall r | 0 <= r < |HeadList(heads)| ensures StageFits(FusedNodes(g.nodes, heads, TemplatesOf(keys))[r]) {
      assert HeadList(heads)[r] in HeadList(heads);
      FusedNodeFits(keys, outs, canon, heads, HeadList(heads)[r]);
    }
  }

  lemma PlanFacts(graph: EngineGraph, heads: seq<nat>)
    requires FusionPlan(graph, heads)
    ensures |heads| == |graph.nodes| && Below(heads, |heads|) && forall i :: 0 <= i < |heads| ==> heads[heads[i]] == heads[i]
  {
  }

  lemma {:induction false} FusedNodeFits(keys: seq<NodeKey>, outs: seq<nat>, canon: seq<nat>, heads: seq<nat>, h: nat)
    requires Arena(keys) && Below(outs, |keys|) && |canon| == |keys| && StagesFit(keys)
    requires var g := Canonical(keys, outs, canon).graph;
      && Graphed(g) && FusionPlan(g, heads) && TokensMarkBoundaries(g.nodes) && Templated(g.nodes, TemplatesOf(keys))
    requires h < |heads| && heads[h] == h
    ensures StageFits(FusedNode(Canonical(keys, outs, canon).graph.nodes, heads, TemplatesOf(keys), h))
  {
    hide NodeKey.Token, Canonical, TemplatesOf, Distinct, Fold, StageFor;
    var graph := Canonical(keys, outs, canon).graph;
    var g := graph.nodes;
    if g[h].boundary {
      assert Below(g[h].inputs, h);
      var i := CanonicalCopies(keys, outs, canon, h);
      assert StageFits(keys[i]);
      SameOperatorSameToken(TemplatesOf(keys)[g[h].token], Ranks(heads, g[h].inputs));
      RebuiltLength(TemplatesOf(keys)[g[h].token], keys[i], Ranks(heads, g[h].inputs));
      SameShapeFits(keys[i], TemplatesOf(keys)[g[h].token].WithInputs(Ranks(heads, g[h].inputs)));
    } else {
      var base := (t: string, vs: seq<int>) => 0;
      FoldIsFold(Meaning(base), g);
      StageComputes(base, graph, heads, h, Fold(Meaning(base), g));
      StageSlots(g, heads, h);
    }
  }

  lemma RebuiltLength(template: NodeKey, key: NodeKey, ins: seq<nat>)
    requires template.Token() == key.Token() && |ins| == |key.Inputs()|
    ensures |template.WithInputs(ins).Inputs()| == |key.Inputs()|
  {
    hide NodeKey.Token;
    TokenIsOperator(template, key);
  }

  lemma StageSlots(g: seq<EngineNode>, heads: seq<nat>, h: nat)
    requires Topological(g) && |heads| == |g| && Below(heads, |g|) && h < |g|
    requires forall i :: 0 <= i < |heads| ==> heads[heads[i]] == heads[i]
    ensures StageFor(g, heads, h).Stage?
    ensures |StageFor(g, heads, h).inputs| == |Slots(g, heads, h, Fusion.Members(heads, h))|
  {
  }

  /** Reducing a graph that can be run gives one that can. */
  lemma {:induction false} ReducedRunnable(nodes: seq<NodeKey>, outputs: seq<nat>, swap: Swaps, engine: Engine, mode: FusionMode)
    requires Runnable(nodes) && Below(outputs, |nodes|) && Fits(nodes, swap) && Total(engine)
    ensures Runnable(ReducedGraph(nodes, outputs, swap, engine, mode).nodes)
  {
    hide NodeKey.Token, Fold, Distinct, KeptNodes, Canonical, Heads, FusedNodes, TemplatesOf, FusionPlan, Ordered;
    assert forall i :: 0 <= i < |nodes| ==> StageFits(nodes[i]);
    var w := Wires(nodes, swap);
    PostOrderIsCone(w, outputs);
    KeptFit(nodes, w, PostOrder(w, outputs));
    ConeFacts(nodes, outputs, swap);
    var cone := ConeOf(nodes, outputs, swap);
    FusedFit(cone.nodes, cone.outputs, engine(ToEngine(cone.nodes)), mode);
    ReductionLands(nodes, outputs, swap, engine, mode);
    var r := ReducedGraph(nodes, outputs, swap, engine, mode);
    assert forall i :: 0 <= i < |r.nodes| ==> StageFits(r.nodes[i]);
  }

  lemma StepFits(before: Rebuilt, key: NodeKey)
    requires Below(key.Inputs(), |before.map_|) && StagesFit(before.nodes) && StageFits(key)
    ensures StagesFit(ReinternStep(before, key).nodes)
  {
    hide NodeKey.Token, IndexOf, StageOk;
    var moved := key.WithInputs(Gather(before.map_, key.Inputs()));
    assert StageFits(moved);
  }

  lemma {:induction false} ReinternedFit(nodes: seq<NodeKey>, m: nat)
    requires Arena(nodes) && StagesFit(nodes) && m <= |nodes|
    ensures StagesFit(Reinterned(nodes, m).nodes)
  {
    hide NodeKey.Token, ReinternStep, StageFits;
    if m > 0 {
      ReinternedFit(nodes, m - 1);
      assert Below(nodes[m - 1].Inputs(), m - 1);
      StepFits(Reinterned(nodes, m - 1), nodes[m - 1]);
    }
  }

  lemma {:induction false} CompiledRunnable(hash: Hash, nodes: seq<NodeKey>, outputs: seq<nat>, engine: Engine, mode: FusionMode)
    requires Runnable(nodes) && Below(outputs, |nodes|) && Total(engine)
    ensures Runnable(Compiled(hash, nodes, outputs, engine, mode).nodes)
  {
    hide NodeKey.Token, Fold, Distinct, ReducedGraph, Reinterned;
    var red := OneShot(hash, nodes, outputs, engine, mode);
    ReductionLands(nodes, outputs, Some(SwapsOf(hash, nodes)), engine, mode);
    ReducedRunnable(nodes, outputs, Some(SwapsOf(hash, nodes)), engine, mode);
    assert forall i :: 0 <= i < |red.nodes| ==> StageFits(red.nodes[i]);
    ReinternedFit(red.nodes, |red.nodes|);
    ReinternMoves(red.nodes, |red.nodes|);
    var st := Reinterned(red.nodes, |red.nodes|).nodes;
    assert forall i :: 0 <= i < |st| ==> StageFits(st[i]);
  }

  // ---- its bytes --------------------------------------------------------------------------------

  /** A graph that can be run can be read back from its bytes. */
  lemma RunnableReadable(nodes: seq<NodeKey>)
    requires Runnable(nodes)
    ensures Serialize.AllReadable(nodes)
  {
    hide NodeKey.Token;
    forall i | 0 <= i < |nodes| ensures Codec.Readable(nodes[i]) {
      if nodes[i].Stage? { StageReadable(nodes[i].members, |nodes[i].inputs|); }
    }
  }

  lemma StageReadable(members: seq<StageOp>, slots: nat)
    requires StageOk(members, slots)
    ensures Codec.MembersEarlier(members)
  {
    forall k | 0 <= k < |members| ensures Codec.RefsEarlier(members[k], k) {
      assert RefsOk(members[k].refs, slots, k);
      assert forall j :: 0 <= j < |members[k].refs| ==> RefOk(members[k].refs[j], slots, k);
    }
  }

  /** Requests for the same terms compile to the same bytes, however their stores were filled. */
  lemma {:induction false} BytesIgnoreRecordingOrder(hash: Hash, nodes: seq<NodeKey>, outputs: seq<nat>, nodes': seq<NodeKey>,
                                                     outputs': seq<nat>, engine: Engine, mode: FusionMode)
    requires SameRequest(nodes, outputs, nodes', outputs') && Total(engine)
    ensures var st, st' := Compiled(hash, nodes, outputs, engine, mode), Compiled(hash, nodes', outputs', engine, mode);
      Codec.Encode(st.nodes, st.outputs) == Codec.Encode(st'.nodes, st'.outputs)
  {
    hide NodeKey.Token, Fold, Distinct, ReducedGraph, Denotes, Reinterned, Marked, Codec.Encode;
    ReductionIgnoresRecordingOrder(hash, nodes, outputs, nodes', outputs', engine, mode);
    ReductionLands(nodes, outputs, Some(SwapsOf(hash, nodes)), engine, mode);
    ReductionLands(nodes', outputs', Some(SwapsOf(hash, nodes')), engine, mode);
  }

  // ---- the whole way ----------------------------------------------------------------------------

  /** What can go wrong on the way: a count past the format's field, or a failing dispatch. */
  datatype Problem<E> = NotEncodable(length: nat) | Failed(failure: Failure<E>)

  /** Compile, ship as bytes, load and run: what is read back for every requested array is the value the
      recorded graph gives it. */
  method Compute<V(!new), E>(base: (string, seq<V>) -> V, faults: Faults<V, E>, hash: Hash, store: GraphStore, outputs: seq<NodeId>,
                             engine: Engine, mode: FusionMode)
    returns (r: Result<seq<V>, Problem<E>>)
    requires store.Valid() && Runnable(store.nodes) && Below(outputs, |store.nodes|)
    requires Total(engine) && Commuting(base) && Eliding(base)
    requires Justified(OneShotCone(hash, store.nodes, outputs), engine(OneShotCone(hash, store.nodes, outputs)))
    ensures var st := Compiled(hash, store.nodes, outputs, engine, mode);
      && Runnable(st.nodes)
      && r == match Codec.Encode(st.nodes, st.outputs)
              case Err(e) => Err(NotEncodable(e.value))
              case Ok(_) =>
                match FirstFault(base, faults, st.nodes, map[], IdsBelow(|st.nodes|), |st.nodes|)
                case Some(failure) => Err(Failed(failure))
                case None => Ok(Gather(Values(base, ToEngine(store.nodes)), outputs))
    ensures r.Err? && r.error.NotEncodable? ==> r.error.length >= 0x1_0000_0000
    ensures r.Err? && r.error.Failed? ==> var nodes := Compiled(hash, store.nodes, outputs, engine, mode).nodes;
      FirstFailing(base, faults, nodes, map[], IdsBelow(|nodes|), r.error.failure)
  {
    hide NodeKey.Token, Fold, Distinct, Commuting, Eliding, Justified, Compiled, OneShotCone, FirstFault, Overridden, Runnable,
         Values, SlotHolds, Codec.Encode, Serialize.Decode, Consistent;
    ghost var nodes := store.nodes;
    RunnableIsArena(nodes);
    ghost var st := Compiled(hash, nodes, outputs, engine, mode);
    SlotsHoldValues(base, hash, nodes, outputs, engine, mode);
    CompiledRunnable(hash, nodes, outputs, engine, mode);
    var compiled := ReduceWithOutputs(hash, store, outputs, engine, mode);
    assert st == Stored(compiled.value.nodes, compiled.value.outputs, compiled.value.nodeMap);
    var nodeMap := compiled.value.nodeMap;
    var bytes := Serialize.SerializeWith(compiled.value, compiled.value.outputs);
    if bytes.Err? {
      Codec.OnlyLongFails(compiled.value.nodes, compiled.value.outputs);
      return Err(NotEncodable(bytes.error.value));
    }
    LoadsBack(compiled.value);
    var loaded := Serialize.Deserialize(bytes.value);
    var values;
    ghost var run;
    ghost var held;
    values, run, held := EvaluateIr(base, faults, loaded.value.nodes, loaded.value.outputs, false, map[]);
    assert run == IdsBelow(|st.nodes|);
    if values.Err? {
      return Err(Failed(values.error));
    }
    CutKeepsValues(base, st.nodes, st.outputs, map[]);
    var out := ReadSlots(base, nodeMap, loaded.value.outputs, outputs, values.value, nodes, st);
    return Ok(out);
  }

  /** The compiled store's bytes hold its graph. */
  lemma {:induction false} LoadsBack(store: GraphStore)
    requires store.Valid() && Runnable(store.nodes) && Codec.Encode(store.nodes, store.outputs).Ok?
    ensures Serialize.Decode(Codec.Encode(store.nodes, store.outputs).value) == Ok((store.nodes, store.outputs))
  {
    hide NodeKey.Token, Runnable, Codec.Encode, Serialize.Decode, Distinct, Indexed, Serialize.AllReadable;
    RunnableReadable(store.nodes);
    Serialize.DecodeEncode(store.nodes, store.outputs);
    Serialize.MarkedOfDistinct(store.outputs);
  }

  /** The requested arrays' values, by slot. */
  method ReadSlots<V(!new)>(ghost base: (string, seq<V>) -> V, nodeMap: seq<Option<Landing>>, marked: seq<NodeId>, outputs: seq<NodeId>,
                            values: seq<V>, ghost nodes: seq<NodeKey>, ghost st: Stored)
    returns (out: seq<V>)
    requires Arena(nodes) && Below(outputs, |nodes|) && |st.nodeMap| == |nodes|
    requires Arena(st.nodes) && Below(st.outputs, |st.nodes|) && st.nodeMap == nodeMap && st.outputs == marked
    requires values == Gather(Values(base, ToEngine(st.nodes)), marked)
    requires forall k :: 0 <= k < |outputs| ==> SlotHolds(base, nodes, st, outputs[k])
    ensures out == Gather(Values(base, ToEngine(nodes)), outputs)
  {
    hide NodeKey.Token, Fold, Values;
    out := [];
    for k := 0 to |outputs|
      invariant out == Gather(Values(base, ToEngine(nodes)), outputs[..k])
    {
      assert SlotHolds(base, nodes, st, outputs[k]);
      out := out + [values[IndexOf(marked, nodeMap[outputs[k]].value.0)]];
      TakeMore(outputs, k);
    }
    assert outputs[..|outputs|] == outputs;
  }
}
