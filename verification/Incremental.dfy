/** The incremental reducer: canonicalization at record time, delta by delta
    (src/optimizer/incremental.rs). */
module Incremental {
  import opened Collections
  import opened Nodes
  import opened Graph
  import opened Walk
  import opened Dce
  import opened Components
  import opened Reduce
  import opened Store

  /** The canonical arena, its structural keys, and where each recorded node went. */
  datatype Canon = Canon(nodes: seq<NodeKey>, keys: seq<nat>, map_: seq<NodeId>)

  predicate Shaped(c: Canon) {
    |c.keys| == |c.nodes| && Below(c.map_, |c.nodes|)
  }

  /** An identity op at its one arity. */
  predicate IsIdentityNode(key: NodeKey) {
    key.Op? && |key.inputs| == 1 && IsIdentity(key.Token())
  }

  /** One recorded node, its inputs already canonical: dropped, oriented, and hash-consed. */
  function Canonicalize(hash: Hash, c: Canon, key: NodeKey): (r: Canon)
    requires Shaped(c) && Below(key.Inputs(), |c.nodes|)
    ensures Shaped(r) && |r.map_| == |c.map_| + 1 && c.map_ <= r.map_ && c.nodes <= r.nodes
  {
    if IsIdentityNode(key) then c.(map_ := c.map_ + [key.inputs[0]])
    else
      var ks := Gather(c.keys, key.Inputs());
      var oriented := Orient(key, ks);
      if oriented in c.nodes then c.(map_ := c.map_ + [IndexOf(c.nodes, oriented)])
      else Canon(c.nodes + [oriented], c.keys + [StructuralKey(hash, oriented.Token(), ks)], c.map_ + [|c.nodes|])
  }

  /** A recorded node over canonical inputs. */
  function OverCanonical(c: Canon, key: NodeKey): (r: NodeKey)
    requires Shaped(c) && Below(key.Inputs(), |c.map_|)
    ensures Below(r.Inputs(), |c.nodes|)
  {
    key.WithInputs(Gather(c.map_, key.Inputs()))
  }

  /** The reducer's state after the first `m` nodes of an arena. */
  ghost function Canonicalized(hash: Hash, nodes: seq<NodeKey>, m: nat): (c: Canon)
    requires Arena(nodes) && m <= |nodes|
    ensures Shaped(c) && |c.map_| == m
  {
    if m == 0 then Canon([], [], [])
    else
      var c := Canonicalized(hash, nodes, m - 1);
      assert Below(nodes[m - 1].Inputs(), m - 1);
      Canonicalize(hash, c, OverCanonical(c, nodes[m - 1]))
  }

  lemma {:induction false} CanonicalizedPrefix(hash: Hash, nodes: seq<NodeKey>, more: seq<NodeKey>, m: nat)
    requires Arena(nodes) && Arena(more) && nodes <= more && m <= |nodes|
    ensures Canonicalized(hash, nodes, m) == Canonicalized(hash, more, m)
  {
    hide NodeKey.Token, Canonicalize, OverCanonical;
    if m > 0 {
      CanonicalizedPrefix(hash, nodes, more, m - 1);
      assert Below(nodes[m - 1].Inputs(), m - 1);
    }
  }

  // ---- the reducer ------------------------------------------------------------------------------

  /** A step stopped at the first node of `delta` that names an unconsumed input, the nodes before it
      consumed. */
  ghost predicate StoppedAt(before: seq<NodeKey>, delta: seq<NodeKey>, after: seq<NodeKey>, bad: NodeId) {
    exists k :: 0 <= k < |delta| && after == before + delta[..k] && FirstBeyond(delta[k].Inputs(), |after|) == Some(bad)
  }

  class IncrementalReducer {
    const hash: Hash
    var canonNodes: seq<NodeKey>
    var canonTable: map<NodeKey, NodeId>
    var canonKeys: seq<nat>
    var map_: seq<NodeId>
    var totalWork: nat
    /** The recorded nodes consumed so far. */
    ghost var consumed: seq<NodeKey>

    ghost predicate Valid() reads this {
      && Arena(consumed)
      && Canon(canonNodes, canonKeys, map_) == Canonicalized(hash, consumed, |consumed|)
      && Indexed(canonTable, canonNodes)
    }

    constructor (hash: Hash)
      ensures Valid() && consumed == [] && totalWork == 0 && this.hash == hash
    {
      this.hash := hash;
      canonNodes, canonTable, canonKeys, map_, totalWork, consumed := [], map[], [], [], 0, [];
    }

    /** Consume the nodes recorded since the last step. The state depends on what was consumed and not
        on how it was cut into steps; an input not yet consumed stops the step where it is. */
    method Step(delta: seq<NodeKey>) returns (r: Result<nat, StoreError>)
      requires Valid()
      modifies this
      ensures Valid()
      ensures r.Ok? <==> Arena(old(consumed) + delta)
      ensures r.Ok? ==> r.value == |delta| && consumed == old(consumed) + delta && totalWork == old(totalWork) + |delta|
      ensures r.Err? ==> totalWork == old(totalWork) && StoppedAt(old(consumed), delta, consumed, r.error.id)
    {
      hide NodeKey.Token, NodeKey.WithInputs, Indexed, Canonicalized, Canonicalize, StoppedAt, Arena, Below, FirstBeyond, Gather;
      for k := 0 to |delta|
        invariant Valid() && consumed == old(consumed) + delta[..k] && totalWork == old(totalWork)
      {
        var key := delta[k];
        var inputs := CanonicalInputs(key);
        if inputs.Err? {
          Stops(old(consumed), delta, k, inputs.error.id);
          return Err(inputs.error);
        }
        ConsumedMore(hash, consumed, key);
        TakeMore(delta, k);
        var canon := CanonicalizeNode(key.WithInputs(inputs.value));
        map_ := map_ + [canon];
        consumed := consumed + [key];
      }
      assert delta[..|delta|] == delta;
      totalWork := totalWork + |delta|;
      return Ok(|delta|);
    }

    /** Where a recorded node's inputs went; the first not yet consumed is refused. */
    method CanonicalInputs(key: NodeKey) returns (r: Result<seq<NodeId>, StoreError>)
      ensures r.Ok? ==> Below(key.Inputs(), |map_|) && r.value == Gather(map_, key.Inputs())
      ensures r.Err? ==> FirstBeyond(key.Inputs(), |map_|) == Some(r.error.id)
    {
      var inputs: seq<NodeId> := [];
      for j := 0 to |key.Inputs()|
        invariant Below(key.Inputs()[..j], |map_|) && inputs == Gather(map_, key.Inputs()[..j])
      {
        if key.Inputs()[j] >= |map_| {
          FirstBeyondAt(key.Inputs(), |map_|, j);
          return Err(BadNodeId(key.Inputs()[j]));
        }
        inputs := inputs + [map_[key.Inputs()[j]]];
        TakeMore(key.Inputs(), j);
      }
      assert key.Inputs()[..|key.Inputs()|] == key.Inputs();
      return Ok(inputs);
    }

    /** `canonicalize`: one node whose inputs are canonical ids. */
    method CanonicalizeNode(key: NodeKey) returns (id: NodeId)
      requires Shaped(Canon(canonNodes, canonKeys, map_)) && Below(key.Inputs(), |canonNodes|)
      requires Indexed(canonTable, canonNodes)
      modifies this`canonNodes, this`canonTable, this`canonKeys
      ensures Canon(canonNodes, canonKeys, map_ + [id]) == Canonicalize(hash, old(Canon(canonNodes, canonKeys, map_)), key)
      ensures Indexed(canonTable, canonNodes)
    {
      hide NodeKey.Token;
      if key.Op? && |key.inputs| == 1 && IsIdentity(key.Token()) {
        return key.inputs[0];
      }
      var inputKeys := Gather(canonKeys, key.Inputs());
      var oriented := Orient(key, inputKeys);
      if oriented in canonTable {
        return canonTable[oriented];
      }
      IndexedMore(canonTable, canonNodes, oriented);
      id := |canonNodes|;
      canonKeys := canonKeys + [StructuralKey(hash, oriented.Token(), inputKeys)];
      canonNodes := canonNodes + [oriented];
      canonTable := canonTable[oriented := id];
    }

    /** Run the passes over the canonical arena, and answer in recorded ids. */
    method Finalize(outputs: seq<NodeId>, engine: Engine, mode: FusionMode) returns (r: Result<Reduced, StoreError>)
      requires Valid() && Total(engine)
      ensures r.Ok? <==> Below(outputs, |consumed|)
      ensures r.Err? ==> FirstBeyond(outputs, |consumed|) == Some(r.error.id)
      ensures r.Ok? ==> r.value == FinalForm(hash, consumed, outputs, engine, mode)
    {
      hide NodeKey.Token, Canonicalize, Canonicalized, ReducedGraph, Indexed;
      CanonIsArena(hash, consumed, |consumed|);
      var outs: seq<NodeId> := [];
      for k := 0 to |outputs|
        invariant Below(outputs[..k], |map_|) && outs == Gather(map_, outputs[..k])
      {
        if outputs[k] >= |map_| {
          FirstBeyondAt(outputs, |map_|, k);
          return Err(BadNodeId(outputs[k]));
        }
        TakeMore(outputs, k);
        outs := outs + [map_[outputs[k]]];
      }
      assert outputs[..|outputs|] == outputs;
      var red := ReduceOriented(canonNodes, outs, None, engine, mode);
      return Ok(Reduced(red.nodes, red.outputs, Gather(red.nodeMap, map_)));
    }
  }

  lemma Stops(consumed: seq<NodeKey>, delta: seq<NodeKey>, k: nat, bad: NodeId)
    requires k < |delta| && FirstBeyond(delta[k].Inputs(), |consumed| + k) == Some(bad)
    ensures !Arena(consumed + delta) && StoppedAt(consumed, delta, consumed + delta[..k], bad)
  {
    hide NodeKey.Token, FirstBeyond;
    assert (consumed + delta)[|consumed| + k] == delta[k];
    assert |consumed + delta[..k]| == |consumed| + k;
  }

  lemma {:induction false} ConsumedMore(hash: Hash, consumed: seq<NodeKey>, key: NodeKey)
    requires Arena(consumed) && Below(key.Inputs(), |consumed|)
    ensures Arena(consumed + [key])
    ensures var c := Canonicalized(hash, consumed, |consumed|);
      Canonicalized(hash, consumed + [key], |consumed| + 1) == Canonicalize(hash, c, OverCanonical(c, key))
  {
    hide NodeKey.Token, Canonicalize, OverCanonical;
    var more := consumed + [key];
    forall i | 0 <= i < |more| ensures Below(more[i].Inputs(), i) {
      if i < |consumed| { assert Below(consumed[i].Inputs(), i); }
    }
    CanonicalizedPrefix(hash, consumed, more, |consumed|);
  }

  // ---- what canonicalization keeps --------------------------------------------------------------

  /** Where recorded node `i` went: an identity op where its input went, any other node to itself over
      canonical inputs, its operands in structural-key order. */
  ghost predicate WentTo(nodes: seq<NodeKey>, w: Wiring, c: Canon, i: nat)
    requires i < |c.map_| <= |nodes| == |w| && Shaped(c)
  {
    if IsIdentityNode(nodes[i]) then nodes[i].inputs[0] < i && c.map_[i] == c.map_[nodes[i].inputs[0]]
    else Below(w[i], i) && c.nodes[c.map_[i]] == nodes[i].WithInputs(Gather(c.map_, w[i]))
  }

  /** Canonical node `j` is no identity op, is oriented, and has its own structural key. */
  ghost predicate CanonicalNode(hash: Hash, c: Canon, j: nat)
    requires Shaped(c) && j < |c.nodes|
  {
    var key := c.nodes[j];
    && Below(key.Inputs(), j)
    && !IsIdentityNode(key)
    && !Swapped(key, Gather(c.keys, key.Inputs()))
    && c.keys[j] == StructuralKey(hash, key.Token(), Gather(c.keys, key.Inputs()))
  }

  ghost predicate CanonicalArena(hash: Hash, c: Canon) {
    Shaped(c) && Distinct(c.nodes) && forall j :: 0 <= j < |c.nodes| ==> CanonicalNode(hash, c, j)
  }

  /** The state after `m` nodes: a canonical arena, every consumed node in it, under its own key. */
  ghost predicate Tracks(hash: Hash, nodes: seq<NodeKey>, c: Canon, m: nat)
    requires Arena(nodes)
  {
    && CanonicalArena(hash, c) && m <= |nodes| && |c.map_| == m
    && (forall i :: 0 <= i < m ==> WentTo(nodes, Wires(nodes, Some(SwapsOf(hash, nodes))), c, i))
    && forall i :: 0 <= i < m ==> c.keys[c.map_[i]] == Keys(hash, ToEngine(nodes))[i]
  }

  /** A symmetric op's key does not depend on its operand order. */
  lemma {:induction false} KeyOfOriented(hash: Hash, key: NodeKey, ks: seq<nat>)
    requires |ks| == |key.Inputs()|
    ensures var swapped := Swapped(key, ks);
      && (swapped ==> |ks| == 2)
      && StructuralKey(hash, key.Token(), Operands(ks, swapped)) == StructuralKey(hash, key.Token(), ks)
      && !Swapped(key, Operands(ks, swapped))
  {
    hide NodeKey.Token;
    SymmetricIsCommuting(key);
  }

  lemma OrientIsOperands(key: NodeKey, ks: seq<nat>)
    requires |ks| == |key.Inputs()|
    ensures Swapped(key, ks) ==> |key.Inputs()| == 2
    ensures Orient(key, ks) == key.WithInputs(Operands(key.Inputs(), Swapped(key, ks)))
    ensures Orient(key, ks).Token() == key.Token()
  {
    hide NodeKey.Token;
    SameOperatorSameToken(key, Operands(key.Inputs(), Swapped(key, ks)));
  }

  lemma SwapIgnoresInputs(key: NodeKey, ins: seq<nat>, ks: seq<nat>)
    requires |ins| == |key.Inputs()|
    ensures Swapped(key.WithInputs(ins), ks) <==> Swapped(key, ks)
    ensures IsIdentityNode(key.WithInputs(ins)) <==> IsIdentityNode(key)
  {
    SameOperatorSameToken(key, ins);
  }

  lemma CanonIsArena(hash: Hash, nodes: seq<NodeKey>, m: nat)
    requires Arena(nodes) && m <= |nodes|
    ensures Arena(Canonicalized(hash, nodes, m).nodes)
  {
    hide NodeKey.Token, Canonicalized, Keys, Wires, SwapsOf, Distinct, WentTo;
    CanonTracks(hash, nodes, m);
    var c := Canonicalized(hash, nodes, m);
    forall j | 0 <= j < |c.nodes| ensures Below(c.nodes[j].Inputs(), j) { assert CanonicalNode(hash, c, j); }
  }

  lemma {:induction false} CanonTracks(hash: Hash, nodes: seq<NodeKey>, m: nat)
    requires Arena(nodes) && m <= |nodes|
    ensures Tracks(hash, nodes, Canonicalized(hash, nodes, m), m)
  {
    hide NodeKey.Token, Canonicalize, OverCanonical, Tracks;
    if m > 0 {
      CanonTracks(hash, nodes, m - 1);
      assert Below(nodes[m - 1].Inputs(), m - 1);
      StepTracks(hash, nodes, Canonicalized(hash, nodes, m - 1), m - 1);
    } else {
      NothingTracks(hash, nodes);
    }
  }

  lemma NothingTracks(hash: Hash, nodes: seq<NodeKey>)
    requires Arena(nodes)
    ensures Tracks(hash, nodes, Canon([], [], []), 0)
  {
  }

  /** What a growing canonical arena leaves as it was. */
  lemma GrowingKeeps(hash: Hash, nodes: seq<NodeKey>, c: Canon, d: Canon, m: nat)
    requires Arena(nodes) && Tracks(hash, nodes, c, m) && m < |nodes|
    requires Shaped(d) && c.nodes <= d.nodes && c.keys <= d.keys && c.map_ <= d.map_ && |d.map_| == m + 1
    ensures forall j :: 0 <= j < |c.nodes| ==> CanonicalNode(hash, d, j)
    ensures forall i :: 0 <= i < m ==> WentTo(nodes, Wires(nodes, Some(SwapsOf(hash, nodes))), d, i)
    ensures forall i :: 0 <= i < m ==> d.keys[d.map_[i]] == Keys(hash, ToEngine(nodes))[i]
  {
    hide NodeKey.Token, Keys, StructuralKey, Swapped, Distinct, Wires, SwapsOf;
    var w := Wires(nodes, Some(SwapsOf(hash, nodes)));
    forall j | 0 <= j < |c.nodes| ensures CanonicalNode(hash, d, j) {
      assert CanonicalNode(hash, c, j);
      assert Gather(d.keys, d.nodes[j].Inputs()) == Gather(c.keys, c.nodes[j].Inputs());
    }
    forall i | 0 <= i < m ensures WentTo(nodes, w, d, i) {
      assert WentTo(nodes, w, c, i);
      if !IsIdentityNode(nodes[i]) { assert Gather(d.map_, w[i]) == Gather(c.map_, w[i]); }
    }
  }

  /** One more recorded node. */
  lemma {:induction false} StepTracks(hash: Hash, nodes: seq<NodeKey>, c: Canon, m: nat)
    requires Arena(nodes) && m < |nodes| && Tracks(hash, nodes, c, m)
    ensures Below(nodes[m].Inputs(), m)
    ensures Tracks(hash, nodes, Canonicalize(hash, c, OverCanonical(c, nodes[m])), m + 1)
  {
    hide NodeKey.Token, Keys, Swapped, Distinct, Wires, SwapsOf, CanonicalNode, WentTo, Orient;
    assert Below(nodes[m].Inputs(), m);
    var key := OverCanonical(c, nodes[m]);
    var d := Canonicalize(hash, c, key);
    KeysAgree(hash, nodes, c, m);
    SwapIgnoresInputs(nodes[m], key.Inputs(), []);
    if !IsIdentityNode(key) {
      NewNodeTracks(hash, nodes, c, m);
      var oriented := Orient(key, Gather(c.keys, key.Inputs()));
      if oriented !in c.nodes { DistinctMore(c.nodes, oriented); }
    } else {
      IdentityTracks(hash, nodes, c, m);
    }
    GrowingKeeps(hash, nodes, c, d, m);
  }

  lemma {:induction false} KeysAgree(hash: Hash, nodes: seq<NodeKey>, c: Canon, m: nat)
    requires Arena(nodes) && m < |nodes| && Tracks(hash, nodes, c, m)
    ensures Below(nodes[m].Inputs(), m)
    ensures Gather(c.keys, OverCanonical(c, nodes[m]).Inputs()) == InputKeys(hash, nodes, m)
    ensures Keys(hash, ToEngine(nodes))[m] == StructuralKey(hash, nodes[m].Token(), InputKeys(hash, nodes, m))
  {
    hide NodeKey.Token, Keys, StructuralKey, Distinct, Wires, SwapsOf, CanonicalNode, WentTo;
    KeyAt(hash, nodes, m, Keys(hash, ToEngine(nodes))[..m]);
  }

  lemma {:induction false} IdentityTracks(hash: Hash, nodes: seq<NodeKey>, c: Canon, m: nat)
    requires Arena(nodes) && m < |nodes| && Tracks(hash, nodes, c, m) && IsIdentityNode(nodes[m])
    ensures Below(nodes[m].Inputs(), m) && IsIdentityNode(OverCanonical(c, nodes[m]))
    ensures var d := Canonicalize(hash, c, OverCanonical(c, nodes[m]));
      && WentTo(nodes, Wires(nodes, Some(SwapsOf(hash, nodes))), d, m)
      && d.keys[d.map_[m]] == Keys(hash, ToEngine(nodes))[m]
  {
    hide NodeKey.Token, Keys, Distinct, Wires, SwapsOf, CanonicalNode;
    KeysAgree(hash, nodes, c, m);
    SwapIgnoresInputs(nodes[m], OverCanonical(c, nodes[m]).Inputs(), []);
  }

  /** A node over canonical inputs, oriented: what `Canonicalize` looks up. */
  lemma {:induction false} OrientedNode(hash: Hash, nodes: seq<NodeKey>, c: Canon, m: nat) returns (oriented: NodeKey)
    requires Arena(nodes) && m < |nodes| && Tracks(hash, nodes, c, m) && !IsIdentityNode(nodes[m])
    ensures var key := OverCanonical(c, nodes[m]); var w := Wires(nodes, Some(SwapsOf(hash, nodes)));
      && oriented == Orient(key, Gather(c.keys, key.Inputs()))
      && Below(w[m], m) && oriented == nodes[m].WithInputs(Gather(c.map_, w[m]))
      && Below(oriented.Inputs(), |c.nodes|) && !IsIdentityNode(key) && !IsIdentityNode(oriented)
      && !Swapped(oriented, Gather(c.keys, oriented.Inputs()))
      && StructuralKey(hash, oriented.Token(), Gather(c.keys, oriented.Inputs())) == Keys(hash, ToEngine(nodes))[m]
      && StructuralKey(hash, oriented.Token(), Gather(c.keys, key.Inputs())) == Keys(hash, ToEngine(nodes))[m]
  {
    hide NodeKey.Token, Keys, Distinct, WentTo, StructuralKey, Swapped, Orient, SwapsOf, CanonicalNode, Wires;
    var key := OverCanonical(c, nodes[m]);
    var ks := Gather(c.keys, key.Inputs());
    KeysAgree(hash, nodes, c, m);
    SwapIgnoresInputs(nodes[m], key.Inputs(), ks);
    OrientIsOperands(key, ks);
    KeyOfOriented(hash, key, ks);
    SameOperatorSameToken(nodes[m], key.Inputs());
    oriented := Orient(key, ks);
    OrientedWires(hash, nodes, c, m);
    OperandsGather(c.keys, key.Inputs(), Swapped(key, ks));
    SwapIgnoresInputs(key, oriented.Inputs(), Gather(c.keys, oriented.Inputs()));
  }

  lemma {:induction false} NewNodeTracks(hash: Hash, nodes: seq<NodeKey>, c: Canon, m: nat)
    requires Arena(nodes) && m < |nodes| && Tracks(hash, nodes, c, m) && !IsIdentityNode(nodes[m])
    ensures Below(nodes[m].Inputs(), m) && !IsIdentityNode(OverCanonical(c, nodes[m]))
    ensures var d := Canonicalize(hash, c, OverCanonical(c, nodes[m]));
      && WentTo(nodes, Wires(nodes, Some(SwapsOf(hash, nodes))), d, m)
      && d.keys[d.map_[m]] == Keys(hash, ToEngine(nodes))[m]
      && (|d.nodes| > |c.nodes| ==> CanonicalNode(hash, d, |c.nodes|))
  {
    hide NodeKey.Token, Keys, Distinct, WentTo, StructuralKey, Swapped, Orient, SwapsOf, Wires, IsIdentityNode, OverCanonical;
    assert Below(nodes[m].Inputs(), m);
    var oriented := OrientedNode(hash, nodes, c, m);
    var w := Wires(nodes, Some(SwapsOf(hash, nodes)));
    var d := Canonicalize(hash, c, OverCanonical(c, nodes[m]));
    if oriented in c.nodes {
      assert CanonicalNode(hash, c, IndexOf(c.nodes, oriented));
    } else {
      assert Gather(d.keys, oriented.Inputs()) == Gather(c.keys, oriented.Inputs());
    }
    assert Gather(d.map_, w[m]) == Gather(c.map_, w[m]);
    WentOriented(nodes, w, d, m);
  }

  lemma WentOriented(nodes: seq<NodeKey>, w: Wiring, d: Canon, m: nat)
    requires m < |d.map_| <= |nodes| == |w| && Shaped(d) && Below(w[m], m) && !IsIdentityNode(nodes[m])
    requires d.nodes[d.map_[m]] == nodes[m].WithInputs(Gather(d.map_, w[m]))
    ensures WentTo(nodes, w, d, m)
  {
    hide NodeKey.Token;
  }

  lemma OperandsGather<T>(vs: seq<T>, ins: seq<nat>, swapped: bool)
    requires Below(ins, |vs|) && (swapped ==> |ins| == 2)
    ensures Below(Operands(ins, swapped), |vs|)
    ensures Gather(vs, Operands(ins, swapped)) == if swapped then [Gather(vs, ins)[1], Gather(vs, ins)[0]] else Gather(vs, ins)
  {
  }

  /** The incremental path swaps the operands the one-shot path swaps. */
  lemma {:induction false} OrientedWires(hash: Hash, nodes: seq<NodeKey>, c: Canon, m: nat)
    requires Arena(nodes) && m < |nodes| && Tracks(hash, nodes, c, m)
    ensures var w := Wires(nodes, Some(SwapsOf(hash, nodes))); var key := OverCanonical(c, nodes[m]);
      && Below(nodes[m].Inputs(), m) && Below(w[m], m)
      && var ks := Gather(c.keys, key.Inputs());
         (Swapped(key, ks) ==> |nodes[m].Inputs()| == 2)
         && key.WithInputs(Operands(key.Inputs(), Swapped(key, ks))) == nodes[m].WithInputs(Gather(c.map_, w[m]))
  {
    hide NodeKey.Token, Keys, Distinct, WentTo, StructuralKey, CanonicalNode;
    KeysAgree(hash, nodes, c, m);
    var key := OverCanonical(c, nodes[m]);
    var ks := Gather(c.keys, key.Inputs());
    SwapIgnoresInputs(nodes[m], key.Inputs(), ks);
    assert SwapsOf(hash, nodes)[m] == Swapped(nodes[m], ks);
    OperandsGather(c.map_, nodes[m].Inputs(), Swapped(key, ks));
  }

  /** What `finalize` answers. */
  ghost function FinalForm(hash: Hash, nodes: seq<NodeKey>, outputs: seq<nat>, engine: Engine, mode: FusionMode): (r: Reduced)
    requires Arena(nodes) && Below(outputs, |nodes|) && Total(engine)
  {
    var c := Canonicalized(hash, nodes, |nodes|);
    CanonIsArena(hash, nodes, |nodes|);
    var red := ReducedGraph(c.nodes, Gather(c.map_, outputs), None, engine, mode);
    Reduced(red.nodes, red.outputs, Gather(red.nodeMap, c.map_))
  }
}
