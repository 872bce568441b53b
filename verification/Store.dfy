/** The interning store, and rebuilding a reduced graph in it (src/store.rs). */
module Store {
  import opened Collections
  import opened Nodes
  import opened Graph
  import opened Components
  import opened Fusion
  import opened Reduce

  datatype StoreError = BadNodeId(id: NodeId)

  /** The first of `ids` a store of `n` nodes does not hold. */
  function FirstBeyond(ids: seq<NodeId>, n: nat): (r: Option<NodeId>)
    ensures r.None? <==> Below(ids, n)
    ensures r.Some? ==> exists k :: 0 <= k < |ids| && ids[k] == r.value >= n && Below(ids[..k], n)
  {
    if ids == [] then None
    else
      var m := |ids| - 1;
      assert forall k :: 0 <= k <= m ==> ids[..m][..k] == ids[..k];
      var before := FirstBeyond(ids[..m], n);
      assert Below(ids, n) <==> Below(ids[..m], n) && ids[m] < n;
      if before.Some? then before else if ids[m] >= n then Some(ids[m]) else None
  }

  lemma {:induction false} FirstBeyondAt(ids: seq<NodeId>, n: nat, k: nat)
    requires k < |ids| && Below(ids[..k], n) && ids[k] >= n
    ensures FirstBeyond(ids, n) == Some(ids[k])
    decreases |ids|
  {
    var m := |ids| - 1;
    if k < m {
      assert ids[..m][..k] == ids[..k];
      FirstBeyondAt(ids[..m], n, k);
    }
  }

  /** The intern table: every node held, under its id. */
  ghost predicate Indexed(table: map<NodeKey, NodeId>, nodes: seq<NodeKey>) {
    forall k {:trigger k in table} :: (k in table <==> k in nodes) && (k in table ==> table[k] == IndexOf(nodes, k))
  }

  lemma IndexedMore(table: map<NodeKey, NodeId>, nodes: seq<NodeKey>, key: NodeKey)
    requires Indexed(table, nodes) && key !in table
    ensures Indexed(table[key := |nodes|], nodes + [key])
  {
    hide NodeKey.Token;
    var more := nodes + [key];
    assert more[..|nodes|] == nodes;
    forall k | k in table ensures k in more && IndexOf(more, k) == IndexOf(nodes, k) { IndexOfPrefix(more, |nodes|, k); }
  }

  /** The inner state of a store. */
  ghost predicate Consistent(nodes: seq<NodeKey>, table: map<NodeKey, NodeId>, outputs: seq<NodeId>) {
    && Interned(nodes)
    && Indexed(table, nodes)
    && Below(outputs, |nodes|) && Distinct(outputs)
  }

  /** Nodes in id order, the intern table, and the marked outputs in mark order. */
  class GraphStore {
    var nodes: seq<NodeKey>
    var table: map<NodeKey, NodeId>
    var outputs: seq<NodeId>
    var nodeMap: seq<Option<Landing>>

    ghost predicate Valid() reads this { Consistent(nodes, table, outputs) }

    constructor ()
      ensures Valid() && nodes == [] && outputs == [] && nodeMap == []
    {
      nodes, table, outputs, nodeMap := [], map[], [], [];
    }

    /** One id per key: an equal key already held keeps its id, a new one goes to the end, and a key
        naming an input not held changes nothing. */
    method Intern(key: NodeKey) returns (r: Result<NodeId, StoreError>)
      requires Valid()
      modifies this
      ensures Valid() && outputs == old(outputs) && nodeMap == old(nodeMap)
      ensures r.Ok? <==> Below(key.Inputs(), |old(nodes)|)
      ensures r.Ok? ==> nodes == Insert(old(nodes), key) && r.value == IndexOf(nodes, key)
      ensures r.Err? ==> nodes == old(nodes) && FirstBeyond(key.Inputs(), |nodes|) == Some(r.error.id)
    {
      hide NodeKey.Token;
      for k := 0 to |key.Inputs()|
        invariant nodes == old(nodes) && table == old(table) && outputs == old(outputs) && nodeMap == old(nodeMap)
        invariant Below(key.Inputs()[..k], |nodes|)
      {
        if key.Inputs()[k] >= |nodes| {
          FirstBeyondAt(key.Inputs(), |nodes|, k);
          return Err(BadNodeId(key.Inputs()[k]));
        }
        TakeMore(key.Inputs(), k);
      }
      assert key.Inputs()[..|key.Inputs()|] == key.Inputs();
      if key in table {
        return Ok(table[key]);
      }
      InternNew(nodes, table, outputs, key);
      var id := |nodes|;
      nodes := nodes + [key];
      table := table[key := id];
      return Ok(id);
    }

    method MarkOutput(id: NodeId) returns (r: Result<(), StoreError>)
      requires Valid()
      modifies this
      ensures Valid() && nodes == old(nodes) && nodeMap == old(nodeMap)
      ensures r == if id < |nodes| then Ok(()) else Err(BadNodeId(id))
      ensures outputs == if id < |nodes| then Insert(old(outputs), id) else old(outputs)
    {
      hide NodeKey.Token;
      if id >= |nodes| {
        return Err(BadNodeId(id));
      }
      if id !in outputs {
        DistinctMore(outputs, id);
        outputs := outputs + [id];
      }
      return Ok(());
    }
  }

  lemma InternNew(nodes: seq<NodeKey>, table: map<NodeKey, NodeId>, outputs: seq<NodeId>, key: NodeKey)
    requires Consistent(nodes, table, outputs) && key !in table && Below(key.Inputs(), |nodes|)
    ensures Consistent(nodes + [key], table[key := |nodes|], outputs)
    ensures IndexOf(nodes + [key], key) == |nodes|
  {
    hide NodeKey.Token, Indexed;
    NotHeld(table, nodes, key);
    DistinctMore(nodes, key);
    IndexOfAt(nodes + [key], |nodes|);
    IndexedMore(table, nodes, key);
    ArenaMore(nodes, key);
  }

  lemma NotHeld(table: map<NodeKey, NodeId>, nodes: seq<NodeKey>, key: NodeKey)
    requires Indexed(table, nodes)
    ensures key in table <==> key in nodes
  {
  }

  lemma ArenaMore(nodes: seq<NodeKey>, key: NodeKey)
    requires Arena(nodes) && Below(key.Inputs(), |nodes|)
    ensures Arena(nodes + [key])
  {
    hide NodeKey.Token;
    var more := nodes + [key];
    forall i | 0 <= i < |more| ensures Below(more[i].Inputs(), i) {
      if i < |nodes| { assert Below(nodes[i].Inputs(), i); }
    }
  }

  // ---- rebuilding a reduced graph ---------------------------------------------------------------

  datatype Rebuilt = Rebuilt(nodes: seq<NodeKey>, map_: seq<NodeId>)

  function ReinternStep(before: Rebuilt, key: NodeKey): (r: Rebuilt)
    requires Below(key.Inputs(), |before.map_|)
    ensures |r.map_| == |before.map_| + 1
    ensures Below(before.map_, |before.nodes|) ==> Below(r.map_, |r.nodes|)
  {
    var moved := key.WithInputs(Gather(before.map_, key.Inputs()));
    var held := Insert(before.nodes, moved);
    assert before.nodes <= held;
    Rebuilt(held, before.map_ + [IndexOf(held, moved)])
  }

  /** The store and the re-intern remap after the first `m` nodes. */
  ghost function Reinterned(nodes: seq<NodeKey>, m: nat): (r: Rebuilt)
    requires Arena(nodes) && m <= |nodes|
    ensures |r.map_| == m && Below(r.map_, |r.nodes|)
  {
    if m == 0 then Rebuilt([], [])
    else
      assert Below(nodes[m - 1].Inputs(), m - 1);
      ReinternStep(Reinterned(nodes, m - 1), nodes[m - 1])
  }

  /** The outputs after marking `ids` in turn. */
  function Marked(outputs: seq<NodeId>, ids: seq<NodeId>): (r: seq<NodeId>)
    ensures outputs <= r
  {
    if ids == [] then outputs else Insert(Marked(outputs, ids[..|ids| - 1]), ids[|ids| - 1])
  }

  lemma {:induction false} MarkedFacts(ids: seq<NodeId>)
    ensures Distinct(Marked([], ids))
    ensures forall o :: o in Marked([], ids) <==> o in ids
  {
    if ids != [] {
      var m := |ids| - 1;
      MarkedFacts(ids[..m]);
      assert ids == ids[..m] + [ids[m]];
      if ids[m] !in Marked([], ids[..m]) { DistinctMore(Marked([], ids[..m]), ids[m]); }
    }
  }

  lemma MarkedMore(marks: seq<NodeId>, k: nat)
    requires k < |marks|
    ensures Marked([], marks[..k + 1]) == Insert(Marked([], marks[..k]), marks[k])
  {
    assert marks[..k + 1][..k] == marks[..k];
  }

  lemma MarkedNone(marks: seq<NodeId>)
    ensures Marked([], marks[..0]) == []
  {
  }

  predicate LandsIn(nodeMap: seq<Option<Landing>>, n: nat) {
    forall i :: 0 <= i < |nodeMap| && nodeMap[i].Some? ==> nodeMap[i].value.0 < n
  }

  /** The landings, their nodes renumbered. */
  function Relanded(nodeMap: seq<Option<Landing>>, map_: seq<NodeId>): (r: seq<Option<Landing>>)
    requires LandsIn(nodeMap, |map_|)
    ensures |r| == |nodeMap|
  {
    seq(|nodeMap|, i requires 0 <= i < |nodeMap| =>
      match nodeMap[i] case None => None case Some(at) => Some((map_[at.0], at.1)))
  }

  /** `from_reduced`: re-intern the nodes, mark the outputs, and carry the map along. */
  method FromReduced(red: Reduced) returns (store: GraphStore)
    requires Arena(red.nodes) && Below(red.outputs, |red.nodes|)
    requires LandsIn(red.nodeMap, |red.nodes|)
    ensures fresh(store) && store.Valid()
    ensures var r := Reinterned(red.nodes, |red.nodes|);
      && store.nodes == r.nodes
      && store.outputs == Marked([], Gather(r.map_, red.outputs))
      && store.nodeMap == Relanded(red.nodeMap, r.map_)
  {
    hide NodeKey.Token, Consistent, ReinternStep, Marked, Distinct;
    var map_;
    store, map_ := Reintern(red.nodes);
    MarkAll(store, Gather(map_, red.outputs));
    store.nodeMap := Relanded(red.nodeMap, map_);
  }

  lemma ReinternStepIs(before: Rebuilt, key: NodeKey)
    requires Below(key.Inputs(), |before.map_|)
    ensures var held := Insert(before.nodes, key.WithInputs(Gather(before.map_, key.Inputs())));
      ReinternStep(before, key) == Rebuilt(held, before.map_ + [IndexOf(held, key.WithInputs(Gather(before.map_, key.Inputs())))])
  {
    hide NodeKey.Token, NodeKey.WithInputs, Insert, IndexOf;
  }

  /** Intern the nodes in turn, their inputs where those went. */
  method Reintern(nodes: seq<NodeKey>) returns (store: GraphStore, map_: seq<NodeId>)
    requires Arena(nodes)
    ensures fresh(store) && store.Valid() && store.outputs == []
    ensures Rebuilt(store.nodes, map_) == Reinterned(nodes, |nodes|)
  {
    hide NodeKey.Token, NodeKey.WithInputs, Consistent, Insert, IndexOf, FirstBeyond, Distinct, ReinternStep;
    store := new GraphStore();
    map_ := [];
    for i := 0 to |nodes|
      invariant store.Valid() && store.outputs == []
      invariant Rebuilt(store.nodes, map_) == Reinterned(nodes, i)
    {
      assert Below(nodes[i].Inputs(), i);
      ghost var before := Rebuilt(store.nodes, map_);
      var id := store.Intern(nodes[i].WithInputs(Gather(map_, nodes[i].Inputs())));
      map_ := map_ + [id.value];
      ReinternStepIs(before, nodes[i]);
    }
  }

  /** Mark `ids` in turn. */
  method MarkAll(store: GraphStore, ids: seq<NodeId>)
    requires store.Valid() && store.outputs == [] && Below(ids, |store.nodes|)
    modifies store
    ensures store.Valid() && store.nodes == old(store.nodes) && store.nodeMap == old(store.nodeMap)
    ensures store.outputs == Marked([], ids)
  {
    hide NodeKey.Token, Consistent, Insert, Marked, Distinct;
    MarkedNone(ids);
    for k := 0 to |ids|
      invariant store.Valid() && store.nodes == old(store.nodes) && store.nodeMap == old(store.nodeMap)
      invariant store.outputs == Marked([], ids[..k])
    {
      MarkedMore(ids, k);
      var _ := store.MarkOutput(ids[k]);
    }
    assert ids[..|ids|] == ids;
  }

  lemma SameInputsBack(key: NodeKey, m: nat)
    requires Below(key.Inputs(), m)
    ensures key.WithInputs(Gather(UpTo(m), key.Inputs())) == key
  {
    assert Gather(UpTo(m), key.Inputs()) == key.Inputs();
  }

  lemma NextIsNew(nodes: seq<NodeKey>, i: nat)
    requires Distinct(nodes) && i < |nodes|
    ensures Insert(nodes[..i], nodes[i]) == nodes[..i + 1] && IndexOf(nodes[..i + 1], nodes[i]) == i
  {
    hide NodeKey.Token, NodeKey.WithInputs;
    DistinctPrefix(nodes, i + 1);
    TakeMore(nodes, i);
    IndexOfAt(nodes[..i + 1], i);
    assert nodes[..i + 1][..i] == nodes[..i];
  }

  lemma StepKeepsId(nodes: seq<NodeKey>, i: nat)
    requires Distinct(nodes) && i < |nodes| && Below(nodes[i].Inputs(), i)
    ensures ReinternStep(Rebuilt(nodes[..i], UpTo(i)), nodes[i]) == Rebuilt(nodes[..i + 1], UpTo(i + 1))
  {
    hide NodeKey.Token, NodeKey.WithInputs, Gather, IndexOf, Distinct, Insert;
    SameInputsBack(nodes[i], i);
    NextIsNew(nodes, i);
    assert UpTo(i + 1) == UpTo(i) + [i];
  }

  /** Re-interning pairwise distinct nodes changes no id. */
  lemma {:induction false} ReinternIsIdentity(nodes: seq<NodeKey>, m: nat)
    requires Interned(nodes) && m <= |nodes|
    ensures Reinterned(nodes, m) == Rebuilt(nodes[..m], UpTo(m))
  {
    hide NodeKey.Token, NodeKey.WithInputs, ReinternStep, Distinct, Insert;
    if m > 0 {
      assert Below(nodes[m - 1].Inputs(), m - 1);
      ReinternIsIdentity(nodes, m - 1);
      StepKeepsId(nodes, m - 1);
    }
  }
}
