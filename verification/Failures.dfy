/** Compiling neither adds nor hides failures (src/optimizer/mod.rs, python/graphed/execute.py). */
module Failures {
  import opened Collections
  import opened Nodes
  import opened Graph
  import opened Walk
  import opened Dce
  import opened Semantics
  import opened Congruence
  import opened Merge
  import opened Components
  import opened Fusion
  import opened Reduce
  import opened Pipeline
  import opened Evaluate
  import opened EndToEnd

  // ---- an interpretation that fails --------------------------------------------------------------

  ghost predicate AllSome<V>(xs: seq<Option<V>>) {
    forall k :: 0 <= k < |xs| ==> xs[k].Some?
  }

  function Unwrapped<V>(xs: seq<Option<V>>): (r: seq<V>)
    requires forall k :: 0 <= k < |xs| ==> xs[k].Some?
    ensures |r| == |xs| && forall k :: 0 <= k < |r| ==> xs[k] == Some(r[k])
  {
    seq(|xs|, k requires 0 <= k < |xs| => xs[k].value)
  }

  function Somes<V>(xs: seq<V>): (r: seq<Option<V>>)
    ensures |r| == |xs| && forall k :: 0 <= k < |r| ==> r[k] == Some(xs[k])
  {
    seq(|xs|, k requires 0 <= k < |xs| => Some(xs[k]))
  }

  ghost function Partly<V, E>(base: (string, seq<V>) -> V, faults: Faults<V, E>, token: string, ins: seq<Option<V>>): Option<V> {
    if !AllSome(ins) || faults(token, Unwrapped(ins)).Some? then None else Some(base(token, Unwrapped(ins)))
  }

  /** The backend with its failures as values: what fails, or reads what failed, is none. */
  ghost function Partial<V, E>(base: (string, seq<V>) -> V, faults: Faults<V, E>): (string, seq<Option<V>>) -> Option<V> {
    (token, ins) => Partly(base, faults, token, ins)
  }

  lemma PartlyOfSomes<V, E>(base: (string, seq<V>) -> V, faults: Faults<V, E>, token: string, ins: seq<V>)
    ensures Partial(base, faults)(token, Somes(ins)) == if faults(token, ins).Some? then None else Some(base(token, ins))
  {
    assert Unwrapped(Somes(ins)) == ins;
  }

  /** Swapping a symmetric op's operands moves no failure, and identity ops do not fail. */
  ghost predicate FaultsFollowRules<V(!new), E>(faults: Faults<V, E>) {
    && (forall t, a, b :: Commutes(t) ==> (faults(t, [a, b]).Some? <==> faults(t, [b, a]).Some?))
    && forall t, a :: IsIdentity(t) ==> faults(t, [a]).None?
  }

  lemma {:induction false} PartialFollowsRules<V(!new), E>(base: (string, seq<V>) -> V, faults: Faults<V, E>)
    requires Commuting(base) && Eliding(base) && FaultsFollowRules(faults)
    ensures Commuting(Partial(base, faults)) && Eliding(Partial(base, faults))
  {
    hide Commutes, IsIdentity, Partial;
    forall t, a, b | Commutes(t) ensures Partial(base, faults)(t, [a, b]) == Partial(base, faults)(t, [b, a]) {
      PartialCommutes(base, faults, t, a, b);
    }
    forall t, a | IsIdentity(t) ensures Partial(base, faults)(t, [a]) == a {
      PartialElides(base, faults, t, a);
    }
  }

  lemma {:induction false} PartialCommutes<V(!new), E>(base: (string, seq<V>) -> V, faults: Faults<V, E>, t: string, a: Option<V>, b: Option<V>)
    requires Commuting(base) && FaultsFollowRules(faults) && Commutes(t)
    ensures Partial(base, faults)(t, [a, b]) == Partial(base, faults)(t, [b, a])
  {
    hide Commutes, IsIdentity;
    if a.Some? && b.Some? {
      assert Somes([a.value, b.value]) == [a, b] && Somes([b.value, a.value]) == [b, a];
      PartlyOfSomes(base, faults, t, [a.value, b.value]);
      PartlyOfSomes(base, faults, t, [b.value, a.value]);
    } else {
      assert !AllSome([a, b]) by { assert [a, b][0] == a && [a, b][1] == b; }
      assert !AllSome([b, a]) by { assert [b, a][0] == b && [b, a][1] == a; }
    }
  }

  lemma {:induction false} PartialElides<V(!new), E>(base: (string, seq<V>) -> V, faults: Faults<V, E>, t: string, a: Option<V>)
    requires Eliding(base) && FaultsFollowRules(faults) && IsIdentity(t)
    ensures Partial(base, faults)(t, [a]) == a
  {
    hide Commutes, IsIdentity;
    if a.Some? {
      assert Somes([a.value]) == [a];
      PartlyOfSomes(base, faults, t, [a.value]);
    } else {
      assert !AllSome([a]) by { assert [a][0] == a; }
    }
  }

  // ---- the recorded graph ------------------------------------------------------------------------

  /** Node `i` fails on the values its inputs have. */
  ghost predicate FailsAt<V(!new), E>(base: (string, seq<V>) -> V, faults: Faults<V, E>, nodes: seq<NodeKey>, i: nat)
    requires Arena(nodes) && StageFree(nodes) && i < |nodes|
  {
    assert Below(nodes[i].Inputs(), i);
    faults(nodes[i].Token(), Gather(Values(base, ToEngine(nodes)), nodes[i].Inputs())).Some?
  }

  lemma {:induction false} ValueAt<V(!new)>(base: (string, seq<V>) -> V, nodes: seq<NodeKey>, i: nat)
    requires Arena(nodes) && StageFree(nodes) && i < |nodes|
    ensures Below(nodes[i].Inputs(), i)
    ensures Values(base, ToEngine(nodes))[i] == base(nodes[i].Token(), Gather(Values(base, ToEngine(nodes)), nodes[i].Inputs()))
  {
    hide NodeKey.Token, Fold, Run;
    assert Below(nodes[i].Inputs(), i);
    FoldIsFold(Meaning(base), ToEngine(nodes));
    assert ToEngine(nodes)[i] == ToEngineNode(nodes[i]);
    RunOfNode(base, nodes[i], Gather(Values(base, ToEngine(nodes)), nodes[i].Inputs()));
  }

  /** A node's value is none exactly when it depends on one that fails; otherwise it is its plain value. */
  lemma {:induction false} NoneIffFails<V(!new), E>(base: (string, seq<V>) -> V, faults: Faults<V, E>, nodes: seq<NodeKey>, i: nat)
    requires Arena(nodes) && StageFree(nodes) && i < |nodes|
    ensures Values(Partial(base, faults), ToEngine(nodes))[i] ==
      if DependsOnFailure(base, faults, nodes, i) then None else Some(Values(base, ToEngine(nodes))[i])
    decreases i
  {
    hide NodeKey.Token, Fold, Run, Values, Partial, FailsAt;
    ValueAt(base, nodes, i);
    ValueAt(Partial(base, faults), nodes, i);
    var vs, ps := Values(base, ToEngine(nodes)), Values(Partial(base, faults), ToEngine(nodes));
    var ins := nodes[i].Inputs();
    forall k | 0 <= k < |ins|
      ensures ps[ins[k]] == if DependsOnFailure(base, faults, nodes, ins[k]) then None else Some(vs[ins[k]])
    {
      NoneIffFails(base, faults, nodes, ins[k]);
    }
    FailureThrough(base, faults, nodes, i);
    if exists k :: 0 <= k < |ins| && DependsOnFailure(base, faults, nodes, ins[k]) {
      var k :| 0 <= k < |ins| && DependsOnFailure(base, faults, nodes, ins[k]);
      NoneIn(base, faults, nodes[i].Token(), Gather(ps, ins), k);
    } else {
      assert Gather(ps, ins) == Somes(Gather(vs, ins));
      PartlyOfSomes(base, faults, nodes[i].Token(), Gather(vs, ins));
      FailsAtIs(base, faults, nodes, i);
    }
  }

  lemma FailsAtIs<V(!new), E>(base: (string, seq<V>) -> V, faults: Faults<V, E>, nodes: seq<NodeKey>, i: nat)
    requires Arena(nodes) && StageFree(nodes) && i < |nodes| && Below(nodes[i].Inputs(), i)
    ensures FailsAt(base, faults, nodes, i) <==>
      faults(nodes[i].Token(), Gather(Values(base, ToEngine(nodes)), nodes[i].Inputs())).Some?
  {
    hide NodeKey.Token, Values;
  }

  lemma NoneIn<V, E>(base: (string, seq<V>) -> V, faults: Faults<V, E>, token: string, ins: seq<Option<V>>, k: nat)
    requires k < |ins| && ins[k].None?
    ensures Partial(base, faults)(token, ins) == None
  {
    assert !AllSome(ins);
  }

  ghost predicate DependsOnFailure<V(!new), E>(base: (string, seq<V>) -> V, faults: Faults<V, E>, nodes: seq<NodeKey>, i: nat)
    requires Arena(nodes) && StageFree(nodes) && i < |nodes|
  {
    exists j :: 0 <= j < |nodes| && Reaches(Wires(nodes, None), i, j) && FailsAt(base, faults, nodes, j)
  }

  lemma {:induction false} FailureThrough<V(!new), E>(base: (string, seq<V>) -> V, faults: Faults<V, E>, nodes: seq<NodeKey>, i: nat)
    requires Arena(nodes) && StageFree(nodes) && i < |nodes| && Below(nodes[i].Inputs(), i)
    ensures DependsOnFailure(base, faults, nodes, i) <==>
      FailsAt(base, faults, nodes, i) || exists k :: 0 <= k < |nodes[i].Inputs()| && DependsOnFailure(base, faults, nodes, nodes[i].Inputs()[k])
  {
    hide NodeKey.Token, FailsAt;
    var w := Wires(nodes, None);
    assert w[i] == nodes[i].Inputs();
    if j :| 0 <= j < |nodes| && Reaches(w, i, j) && FailsAt(base, faults, nodes, j) {
      if i != j {
        var k :| 0 <= k < |w[i]| && Reaches(w, w[i][k], j);
        assert DependsOnFailure(base, faults, nodes, nodes[i].Inputs()[k]);
      }
    }
    if FailsAt(base, faults, nodes, i) { assert Reaches(w, i, i); }
    if k :| 0 <= k < |nodes[i].Inputs()| && DependsOnFailure(base, faults, nodes, nodes[i].Inputs()[k]) {
      var j :| 0 <= j < |nodes| && Reaches(w, nodes[i].Inputs()[k], j) && FailsAt(base, faults, nodes, j);
      assert Reaches(w, i, j);
    }
  }

  // ---- a graph that is run -----------------------------------------------------------------------

  lemma {:induction false} RefsOfSomes<V>(refs: seq<StageRef>, ins: seq<V>, mvals: seq<V>)
    requires RefsOk(refs, |ins|, |mvals|)
    ensures RefValues(refs, Somes(ins), Somes(mvals)) == Somes(RefValues(refs, ins, mvals))
  {
    forall i | 0 <= i < |refs| ensures RefValues(refs, Somes(ins), Somes(mvals))[i] == Somes(RefValues(refs, ins, mvals))[i] {
      assert RefOk(refs[i], |ins|, |mvals|);
    }
  }

  /** As long as no member fails, the members have their plain values. */
  lemma {:induction false} MembersSucceed<V, E>(base: (string, seq<V>) -> V, faults: Faults<V, E>, members: seq<StageOp>, ins: seq<V>, k: nat)
    requires StageOk(members, |ins|) && k <= |members| && StageFault(base, faults, members, ins, k).None?
    ensures MemberValues(Partial(base, faults), members, Somes(ins), k) == Somes(MemberValues(base, members, ins, k))
  {
    hide Partial;
    if k > 0 {
      MembersSucceed(base, faults, members, ins, k - 1);
      var before := MemberValues(base, members, ins, k - 1);
      var m := members[k - 1];
      assert RefsOk(m.refs, |ins|, k - 1);
      RefsOfSomes(m.refs, ins, before);
      PartlyOfSomes(base, faults, m.token, RefValues(m.refs, ins, before));
    }
  }

  /** The first member to fail has no value. */
  lemma {:induction false} MemberFails<V, E>(base: (string, seq<V>) -> V, faults: Faults<V, E>, members: seq<StageOp>, ins: seq<V>, k: nat)
    returns (m: nat)
    requires StageOk(members, |ins|) && k <= |members| && StageFault(base, faults, members, ins, k).Some?
    ensures m < k && MemberValues(Partial(base, faults), members, Somes(ins), |members|)[m] == None
  {
    hide Partial;
    if StageFault(base, faults, members, ins, k - 1).Some? {
      m := MemberFails(base, faults, members, ins, k - 1);
    } else {
      m := k - 1;
      MembersSucceed(base, faults, members, ins, m);
      var before := MemberValues(base, members, ins, m);
      assert RefsOk(members[m].refs, |ins|, m);
      RefsOfSomes(members[m].refs, ins, before);
      PartlyOfSomes(base, faults, members[m].token, RefValues(members[m].refs, ins, before));
      MemberValuesPrefix(Partial(base, faults), members, Somes(ins), k);
      assert MemberValues(Partial(base, faults), members, Somes(ins), k)[m] == None;
    }
  }

  lemma {:induction false} NodeSucceeds<V, E>(base: (string, seq<V>) -> V, faults: Faults<V, E>, nid: nat, key: NodeKey, ins: seq<V>)
    requires (key.Stage? ==> StageOk(key.members, |ins|)) && NodeFault(base, faults, nid, key, ins).None?
    ensures NodeValue(Partial(base, faults), key, Somes(ins)) == Some(NodeValue(base, key, ins))
  {
    hide NodeKey.Token, Partial, MemberValues, StageFault;
    if key.Stage? {
      MembersSucceed(base, faults, key.members, ins, |key.members|);
    } else {
      PartlyOfSomes(base, faults, key.Token(), ins);
    }
  }

  /** While nothing has failed, every node has its plain value. */
  lemma {:induction false} NoFaultIsTotal<V(!new), E>(base: (string, seq<V>) -> V, faults: Faults<V, E>, nodes: seq<NodeKey>, m: nat)
    requires Runnable(nodes) && m <= |nodes|
    requires FirstFault(base, faults, nodes, map[], IdsBelow(|nodes|), m).None?
    ensures Values(Partial(base, faults), ToEngine(nodes))[..m] == Somes(Values(base, ToEngine(nodes))[..m])
  {
    hide NodeKey.Token, Fold, Values, Partial, NodeFault, NodeValue, FirstFault, Overridden, Runnable, Arena, StageOk;
    RunnableIsArena(nodes);
    if m > 0 {
      var ids := IdsBelow(|nodes|);
      FirstFaultStep(base, faults, nodes, map[], ids, m);
      NoFaultIsTotal(base, faults, nodes, m - 1);
      GivenTruthKeepsValues(base, nodes, map[], m - 1);
      PlainNode(base, nodes, m - 1);
      PlainNode(Partial(base, faults), nodes, m - 1);
      var vs, ps := Values(base, ToEngine(nodes)), Values(Partial(base, faults), ToEngine(nodes));
      var key := nodes[m - 1];
      var ins := Gather(vs[..m - 1], key.Inputs());
      assert Gather(ps[..m - 1], key.Inputs()) == Somes(ins);
      NodeSucceeds(base, faults, m - 1, key, ins);
      TakeMore(vs, m - 1);
      TakeMore(ps, m - 1);
      assert Somes(vs[..m]) == Somes(vs[..m - 1]) + [Some(vs[m - 1])];
    }
  }

  /** Where the first failure is, something has no value: the node, or a member of it. */
  ghost predicate NothingAt<V(!new)>(base: (string, seq<V>) -> V, nodes: seq<NodeKey>, at: Landing, none: V)
    requires Arena(nodes)
  {
    AddressValue(base, nodes, at) == Some(none)
  }

  lemma {:induction false} FaultHasNoValue<V(!new), E>(base: (string, seq<V>) -> V, faults: Faults<V, E>, nodes: seq<NodeKey>, m: nat)
    returns (r: nat, k: nat)
    requires Runnable(nodes) && m <= |nodes| && Arena(nodes)
    requires FirstFault(base, faults, nodes, map[], IdsBelow(|nodes|), m).Some?
    ensures r < m && (nodes[r].Stage? ==> k < |nodes[r].members|)
    ensures NothingAt(Partial(base, faults), nodes, (r, if nodes[r].Stage? then Some(k) else None), None)
  {
    hide NodeKey.Token, Fold, Partial, NodeFault, NodeValue, FirstFault, Overridden, Runnable, Arena, StageOk, Values, AddressValue;
    var ids := IdsBelow(|nodes|);
    FaultIsEarlier(base, faults, nodes, map[], ids, m);
    FirstFaultStep(base, faults, nodes, map[], ids, m);
    if FirstFault(base, faults, nodes, map[], ids, m - 1).Some? {
      r, k := FaultHasNoValue(base, faults, nodes, m - 1);
    } else {
      r := m - 1;
      NoFaultIsTotal(base, faults, nodes, r);
      GivenTruthKeepsValues(base, nodes, map[], r);
      var vs, ps := Values(base, ToEngine(nodes)), Values(Partial(base, faults), ToEngine(nodes));
      var key := nodes[r];
      var ins := Gather(vs[..r], key.Inputs());
      assert Gather(ps[..r], key.Inputs()) == Somes(ins);
      assert Gather(ps, key.Inputs()) == Somes(ins);
      k := NodeFails(base, faults, nodes, r, ins);
    }
  }

  lemma {:induction false} NodeFails<V(!new), E>(base: (string, seq<V>) -> V, faults: Faults<V, E>, nodes: seq<NodeKey>, r: nat, ins: seq<V>)
    returns (k: nat)
    requires Arena(nodes) && Runnable(nodes) && r < |nodes| && Below(nodes[r].Inputs(), r) && |ins| == |nodes[r].Inputs()|
    requires nodes[r].Stage? ==> StageOk(nodes[r].members, |ins|)
    requires Gather(Values(Partial(base, faults), ToEngine(nodes)), nodes[r].Inputs()) == Somes(ins)
    requires NodeFault(base, faults, r, nodes[r], ins).Some?
    ensures nodes[r].Stage? ==> k < |nodes[r].members|
    ensures NothingAt(Partial(base, faults), nodes, (r, if nodes[r].Stage? then Some(k) else None), None)
  {
    hide NodeKey.Token, Fold, Partial, StageFault, MemberValues, Values, Runnable, Arena;
    var key := nodes[r];
    if key.Stage? {
      k := MemberFails(base, faults, key.members, ins, |key.members|);
    } else {
      k := 0;
      var ps := Values(Partial(base, faults), ToEngine(nodes));
      PlainNode(Partial(base, faults), nodes, r);
      assert Gather(ps[..r], key.Inputs()) == Gather(ps, key.Inputs());
      PartlyOfSomes(base, faults, key.Token(), ins);
    }
  }

  // ---- every reduced address is some recorded node's ---------------------------------------------

  /** The cone node a node of the merged graph was copied from is sent to it. */
  lemma {:induction false} MergedFrom(keys: seq<NodeKey>, outs: seq<nat>, canon: seq<nat>, c: nat) returns (d: nat)
    requires Arena(keys) && Below(outs, |keys|) && |canon| == |keys| && c < |Canonical(keys, outs, canon).graph.nodes|
    ensures d < |keys| && Canonical(keys, outs, canon).remap[d] == c
  {
    hide NodeKey.Token, Extracted, Deduped;
    QuotientFacts(keys, canon);
    HashedFacts(keys, canon);
    var q, h := Quotient(keys, canon), Hashed(keys, canon);
    assert CopiedFrom(q.nodes, h, c) && CopiedFrom(ToEngine(keys), q, h.reps[c]);
    d := q.reps[h.reps[c]];
  }

  /** The address of member `k`, or of a boundary, is where that member landed. */
  lemma {:induction false} AddressFrom(g: seq<EngineNode>, heads: seq<nat>, templates: Templates, r: nat, k: nat) returns (c: nat)
    requires Topological(g) && |heads| == |g| && Below(heads, |g|)
    requires forall i :: 0 <= i < |heads| ==> heads[heads[i]] == heads[i]
    requires forall i :: 0 <= i < |g| && g[i].boundary ==> g[i].token in templates && !templates[g[i].token].Stage?
    requires r < |FusedNodes(g, heads, templates)|
    requires FusedNodes(g, heads, templates)[r].Stage? ==> k < |FusedNodes(g, heads, templates)[r].members|
    ensures c < |g| && heads[c] < |g|
    ensures LandingOf(g, heads, c) == (r, if FusedNodes(g, heads, templates)[r].Stage? then Some(k) else None)
  {
    hide Distinct, Ascending, Slots, RefsOf;
    HeadListFacts(heads);
    var h := HeadList(heads)[r];
    assert h in HeadList(heads);
    StageIffOp(g, heads, templates, h);
    MembersFacts(heads, h);
    IndexOfAt(HeadList(heads), r);
    if g[h].boundary {
      c := h;
    } else {
      assert |StageFor(g, heads, h).members| == |Members(heads, h)|;
      c := Members(heads, h)[k];
      assert c in Members(heads, h);
      IndexOfAt(Members(heads, h), k);
    }
  }

  lemma {:induction false} TemplatesStageFree(keys: seq<NodeKey>, g: seq<EngineNode>)
    requires StageFree(keys) && Templated(g, TemplatesOf(keys))
    ensures forall i :: 0 <= i < |g| && g[i].boundary ==> g[i].token in TemplatesOf(keys) && !TemplatesOf(keys)[g[i].token].Stage?
  {
    hide NodeKey.Token, TemplatesOf;
    TemplatesFacts(keys);
    forall i | 0 <= i < |g| && g[i].boundary ensures !TemplatesOf(keys)[g[i].token].Stage? {
      var p :| 0 <= p < |keys| && keys[p] == TemplatesOf(keys)[g[i].token];
    }
  }

  /** Every address of a stage-free arena's reduction is some recorded node's landing. */
  lemma {:induction false} AddressIsLanding(nodes: seq<NodeKey>, outputs: seq<nat>, swap: Swaps, engine: Engine, mode: FusionMode, r: nat, k: nat)
    returns (i: nat)
    requires Arena(nodes) && Below(outputs, |nodes|) && Fits(nodes, swap) && Total(engine) && StageFree(nodes)
    requires var red := ReducedGraph(nodes, outputs, swap, engine, mode).nodes;
      r < |red| && (red[r].Stage? ==> k < |red[r].members|)
    ensures var red := ReducedGraph(nodes, outputs, swap, engine, mode);
      i < |nodes| && red.nodeMap[i] == Some((r, if red.nodes[r].Stage? then Some(k) else None))
  {
    hide NodeKey.Token, Distinct, KeptNodes, Canonical, Heads, FusedNodes, LandingOf, TemplatesOf, FusionPlan, Ordered, PostOrder;
    ConeFacts(nodes, outputs, swap);
    ReducedIsFinished(nodes, outputs, swap, engine, mode);
    var w := Wires(nodes, swap);
    var order := PostOrder(w, outputs);
    var cone := ConeOf(nodes, outputs, swap);
    var canon := engine(ToEngine(cone.nodes));
    PostOrderIsCone(w, outputs);
    KeptStageFree(nodes, w, order);
    CanonicalFacts(cone.nodes, cone.outputs, canon);
    CanonicalTemplated(cone.nodes, cone.outputs, canon);
    var s := Canonical(cone.nodes, cone.outputs, canon);
    HeadsArePlan(s.graph, mode);
    PlanIsLabelled(s.graph, Heads(s.graph, mode));
    TemplatesStageFree(cone.nodes, s.graph.nodes);
    var c := AddressFrom(s.graph.nodes, Heads(s.graph, mode), TemplatesOf(cone.nodes), r, k);
    var d := MergedFrom(cone.nodes, cone.outputs, canon, c);
    OrderedBelow(w, order);
    i := order[d];
    OrderPosition(w, order, d);
    assert cone.remap[i] == Position(order, i) == Some(d);
  }

  lemma PlanIsLabelled(graph: EngineGraph, heads: seq<nat>)
    requires FusionPlan(graph, heads)
    ensures |heads| == |graph.nodes| && Below(heads, |heads|) && forall i :: 0 <= i < |heads| ==> heads[heads[i]] == heads[i]
  {
  }

  lemma OrderPosition(w: Wiring, order: seq<nat>, d: nat)
    requires Ordered(w, order) && d < |order|
    ensures Position(order, order[d]) == Some(d)
  {
    IndexOfAt(order, d);
  }

  // ---- compiled and recorded ---------------------------------------------------------------------

  lemma {:induction false} ReachesOnward(w: Wiring, a: nat, b: nat, c: nat)
    requires Downward(w) && a < |w| && b < |w| && Reaches(w, a, b) && Reaches(w, b, c)
    ensures Reaches(w, a, c)
    decreases a
  {
    if a != b {
      var k :| 0 <= k < |w[a]| && Reaches(w, w[a][k], b);
      ReachesOnward(w, w[a][k], b, c);
    }
  }

  /** Some node the outputs depend on fails. */
  ghost predicate RequestFails<V(!new), E>(base: (string, seq<V>) -> V, faults: Faults<V, E>, nodes: seq<NodeKey>, outputs: seq<nat>)
    requires Arena(nodes) && StageFree(nodes) && Below(outputs, |nodes|)
  {
    exists j :: 0 <= j < |nodes| && Needed(Wires(nodes, None), outputs, j) && FailsAt(base, faults, nodes, j)
  }

  lemma {:induction false} RequestFailsIff<V(!new), E>(base: (string, seq<V>) -> V, faults: Faults<V, E>, nodes: seq<NodeKey>, outputs: seq<nat>)
    requires Arena(nodes) && StageFree(nodes) && Below(outputs, |nodes|)
    ensures RequestFails(base, faults, nodes, outputs) <==>
      exists k :: 0 <= k < |outputs| && DependsOnFailure(base, faults, nodes, outputs[k])
  {
    hide NodeKey.Token, FailsAt;
    var w := Wires(nodes, None);
    if j :| 0 <= j < |nodes| && Needed(w, outputs, j) && FailsAt(base, faults, nodes, j) {
      var k :| 0 <= k < |outputs| && Reaches(w, outputs[k], j);
      assert DependsOnFailure(base, faults, nodes, outputs[k]);
    }
    if k :| 0 <= k < |outputs| && DependsOnFailure(base, faults, nodes, outputs[k]) {
      var j :| 0 <= j < |nodes| && Reaches(w, outputs[k], j) && FailsAt(base, faults, nodes, j);
      assert Needed(w, outputs, j);
    }
  }

  lemma {:induction false} NeededFailure<V(!new), E>(base: (string, seq<V>) -> V, faults: Faults<V, E>, nodes: seq<NodeKey>, outputs: seq<nat>, i: nat)
    requires Arena(nodes) && StageFree(nodes) && Below(outputs, |nodes|) && i < |nodes|
    requires Needed(Wires(nodes, None), outputs, i) && DependsOnFailure(base, faults, nodes, i)
    ensures RequestFails(base, faults, nodes, outputs)
  {
    hide NodeKey.Token, FailsAt;
    var w := Wires(nodes, None);
    var j :| 0 <= j < |nodes| && Reaches(w, i, j) && FailsAt(base, faults, nodes, j);
    var k :| 0 <= k < |outputs| && Reaches(w, outputs[k], i);
    ReachesOnward(w, outputs[k], i, j);
    assert Needed(w, outputs, j);
  }

  /** Running the compiled graph fails exactly when some recorded node the outputs depend on fails. */
  lemma {:induction false} CompiledFailsIff<V(!new), E>(base: (string, seq<V>) -> V, faults: Faults<V, E>, hash: Hash, nodes: seq<NodeKey>,
                                                        outputs: seq<nat>, engine: Engine, mode: FusionMode)
    requires Runnable(nodes) && Arena(nodes) && StageFree(nodes) && Below(outputs, |nodes|) && Total(engine)
    requires Commuting(base) && Eliding(base) && FaultsFollowRules(faults)
    requires Justified(OneShotCone(hash, nodes, outputs), engine(OneShotCone(hash, nodes, outputs)))
    ensures var st := Compiled(hash, nodes, outputs, engine, mode);
      Runnable(st.nodes)
      && (FirstFault(base, faults, st.nodes, map[], IdsBelow(|st.nodes|), |st.nodes|).Some?
          <==> RequestFails(base, faults, nodes, outputs))
  {
    hide NodeKey.Token, Fold, Distinct, Runnable, Commuting, Eliding, FaultsFollowRules, Justified, OneShotCone, ReducedGraph,
         FirstFault, Values, Partial, FailsAt, StageFree, DependsOnFailure, AddressValue, RequestFails, StoredOf, Needed;
    var swap := Some(SwapsOf(hash, nodes));
    var red := OneShot(hash, nodes, outputs, engine, mode);
    var bad := Partial(base, faults);
    CompiledRunnable(hash, nodes, outputs, engine, mode);
    RebuildIsIdentity(nodes, outputs, swap, engine, mode);
    PartialFollowsRules(base, faults);
    OneShotKeepsMeaning(bad, hash, nodes, outputs, engine, mode);
    RequestFailsIff(base, faults, nodes, outputs);
    var ids := IdsBelow(|red.nodes|);
    if FirstFault(base, faults, red.nodes, map[], ids, |red.nodes|).Some? {
      var r, k := FaultHasNoValue(base, faults, red.nodes, |red.nodes|);
      var i := AddressIsLanding(nodes, outputs, swap, engine, mode, r, k);
      PlacedIffNeeded(nodes, outputs, swap, engine, mode, i);
      NoneIffFails(base, faults, nodes, i);
      NeededFailure(base, faults, nodes, outputs, i);
    } else {
      NoFaultIsTotal(base, faults, red.nodes, |red.nodes|);
      forall k | 0 <= k < |outputs| ensures !DependsOnFailure(base, faults, nodes, outputs[k]) {
        NoneIffFails(base, faults, nodes, outputs[k]);
        OutputValue(bad, nodes, outputs, red, k);
      }
    }
  }

  /** An output's value, read in the reduced graph. */
  lemma OutputValue<V(!new)>(base: (string, seq<V>) -> V, nodes: seq<NodeKey>, outputs: seq<nat>, red: Reduced, k: nat)
    requires Arena(nodes) && Below(outputs, |nodes|) && Faithful(base, nodes, outputs, red) && k < |outputs|
    ensures red.outputs[k] < |red.nodes|
    ensures Values(base, ToEngine(red.nodes))[red.outputs[k]] == Values(base, ToEngine(nodes))[outputs[k]]
  {
    hide NodeKey.Token, Values;
    assert Gather(Values(base, ToEngine(red.nodes)), red.outputs)[k] == Gather(Values(base, ToEngine(nodes)), outputs)[k];
  }
}
