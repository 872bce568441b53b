/** The cone of a cone, orientation recomputed (src/optimizer/mod.rs). */
module Recone {
  import opened Collections
  import opened Nodes
  import opened Graph
  import opened Walk
  import opened Dce

  // ---- a walk of a renumbered wiring is the walk, renumbered --------------------------------------

  /** `more` is the part of `w` that `order` holds, by position. */
  ghost predicate Renumbered(w: Wiring, order: seq<nat>, more: Wiring) {
    && Downward(w) && Downward(more) && Ordered(w, order) && |more| == |order|
    && forall p :: 0 <= p < |order| ==> RenumberedAt(w, order, more, p)
  }

  ghost predicate RenumberedAt(w: Wiring, order: seq<nat>, more: Wiring, p: nat)
    requires p < |order| && |more| == |order|
  {
    order[p] < |w| && AllIn(w[order[p]], order) && more[p] == Renumber(order, w[order[p]])
  }

  lemma FinishedByPosition(order: seq<nat>, acc: seq<nat>, i: nat)
    requires i in order && AllIn(acc, order)
    ensures i in acc <==> IndexOf(order, i) in Renumber(order, acc)
  {
    if i in acc { assert Renumber(order, acc)[IndexOf(acc, i)] == IndexOf(order, i); }
    if IndexOf(order, i) in Renumber(order, acc) {
      var k := IndexOf(Renumber(order, acc), IndexOf(order, i));
      assert acc[k] == order[IndexOf(order, acc[k])] == i;
    }
  }

  lemma RenumberMore(order: seq<nat>, acc: seq<nat>, i: nat)
    requires i in order && AllIn(acc, order)
    ensures AllIn(acc + [i], order) && Renumber(order, acc + [i]) == Renumber(order, acc) + [IndexOf(order, i)]
  {
  }

  lemma {:induction false} RewalkVisit(w: Wiring, order: seq<nat>, more: Wiring, i: nat, acc: seq<nat>)
    requires Renumbered(w, order, more) && i in order && i < |w| && AllIn(acc, order)
    ensures AllIn(Visit(w, i, acc), order)
    ensures Visit(more, IndexOf(order, i), Renumber(order, acc)) == Renumber(order, Visit(w, i, acc))
    decreases i + 1, 0
  {
    hide Ordered;
    var p := IndexOf(order, i);
    FinishedByPosition(order, acc, i);
    if i !in acc {
      assert RenumberedAt(w, order, more, p);
      assert Below(w[i], i) && Below(more[p], p);
      RewalkAll(w, order, more, i, p, w[i], acc);
      RenumberMore(order, VisitAll(w, i, w[i], acc), i);
    }
  }

  lemma {:induction false} RewalkAll(w: Wiring, order: seq<nat>, more: Wiring, bound: nat, bound': nat, todo: seq<nat>, acc: seq<nat>)
    requires Renumbered(w, order, more) && bound <= |w| && bound' <= |more|
    requires Below(todo, bound) && AllIn(todo, order) && Below(Renumber(order, todo), bound') && AllIn(acc, order)
    ensures AllIn(VisitAll(w, bound, todo, acc), order)
    ensures VisitAll(more, bound', Renumber(order, todo), Renumber(order, acc)) == Renumber(order, VisitAll(w, bound, todo, acc))
    decreases bound, |todo| + 1
  {
    hide Ordered;
    if todo != [] {
      RewalkVisit(w, order, more, todo[0], acc);
      assert Renumber(order, todo)[1..] == Renumber(order, todo[1..]);
      assert forall k :: 0 <= k < |todo[1..]| ==> Renumber(order, todo[1..])[k] == Renumber(order, todo)[k + 1];
      RewalkAll(w, order, more, bound, bound', todo[1..], Visit(w, todo[0], acc));
    }
  }

  lemma RenumberSelf(order: seq<nat>)
    requires Distinct(order)
    ensures AllIn(order, order) && Renumber(order, order) == UpTo(|order|)
  {
    forall k | 0 <= k < |order| ensures order[k] in order && IndexOf(order, order[k]) == k {
      IndexOfAt(order, k);
    }
  }

  /** Walked again, a post-order finishes its nodes in the order it lists them. */
  lemma {:induction false} RewalkIsInOrder(w: Wiring, outputs: seq<nat>, more: Wiring)
    requires Downward(w) && Below(outputs, |w|) && Renumbered(w, PostOrder(w, outputs), more)
    ensures AllIn(outputs, PostOrder(w, outputs))
    ensures PostOrder(more, Renumber(PostOrder(w, outputs), outputs)) == UpTo(|more|)
  {
    hide Ordered, VisitAll;
    var order := PostOrder(w, outputs);
    VisitAllFacts(w, |w|, outputs, []);
    assert Renumber(order, []) == [];
    RewalkAll(w, order, more, |w|, |more|, outputs, []);
    OrderIsDistinct(w, order);
    RenumberSelf(order);
  }

  lemma OrderIsDistinct(w: Wiring, order: seq<nat>)
    requires Ordered(w, order)
    ensures Distinct(order)
  {
  }

  // ---- the cone of a cone ------------------------------------------------------------------------

  /** Nothing to leave out, nothing to swap: every node is kept where it is. */
  lemma {:induction false} KeptInPlace(nodes: seq<NodeKey>, w: Wiring)
    requires |w| == |nodes| && Ordered(w, UpTo(|nodes|)) && forall p :: 0 <= p < |nodes| ==> w[p] == nodes[p].Inputs()
    ensures KeptNodes(nodes, w, UpTo(|nodes|)) == nodes
  {
    hide NodeKey.Token, Ordered;
    var all := UpTo(|nodes|);
    var kept := KeptNodes(nodes, w, all);
    OrderIsDistinct(w, all);
    forall p | 0 <= p < |nodes| ensures kept[p] == nodes[p] {
      KeptAt(nodes, w, all, p);
      InPlace(all, w[p], |nodes|);
      assert all[p] == p;
      assert nodes[p].WithInputs(nodes[p].Inputs()) == nodes[p];
    }
  }

  lemma InPlace(all: seq<nat>, xs: seq<nat>, n: nat)
    requires all == UpTo(n) && Distinct(all) && AllIn(xs, all)
    ensures Renumber(all, xs) == xs
  {
    forall k | 0 <= k < |xs| ensures IndexOf(all, xs[k]) == xs[k] {
      IndexOfAt(all, xs[k]);
    }
  }

  lemma {:induction false} ConeIsRenumbered(nodes: seq<NodeKey>, outputs: seq<nat>, swap: Swaps, again: Swaps)
    requires Arena(nodes) && Below(outputs, |nodes|) && Fits(nodes, swap)
    requires var c := ConeOf(nodes, outputs, swap);
      && Arena(c.nodes) && Fits(c.nodes, again)
      && forall p :: 0 <= p < |c.nodes| ==> Wires(c.nodes, again)[p] == c.nodes[p].Inputs()
    ensures Renumbered(Wires(nodes, swap), PostOrder(Wires(nodes, swap), outputs), Wires(ConeOf(nodes, outputs, swap).nodes, again))
  {
    hide NodeKey.Token, Ordered, KeptNodes, Wires, PostOrder;
    var w := Wires(nodes, swap);
    var order := PostOrder(w, outputs);
    PostOrderIsCone(w, outputs);
    OrderedBelow(w, order);
    forall p | 0 <= p < |order| ensures RenumberedAt(w, order, Wires(ConeOf(nodes, outputs, swap).nodes, again), p) {
      KeptAt(nodes, w, order, p);
      KeptReads(nodes, swap, order[p], Renumber(order, w[order[p]]));
    }
  }

  /** A cone whose nodes are visited through the inputs they read is its own cone. */
  lemma {:induction false} ReconeIsIdentity(nodes: seq<NodeKey>, outputs: seq<nat>, swap: Swaps, again: Swaps)
    requires Arena(nodes) && Below(outputs, |nodes|) && Fits(nodes, swap)
    requires var c := ConeOf(nodes, outputs, swap);
      && Arena(c.nodes) && Fits(c.nodes, again)
      && forall p :: 0 <= p < |c.nodes| ==> Wires(c.nodes, again)[p] == c.nodes[p].Inputs()
    ensures var c := ConeOf(nodes, outputs, swap);
      && Below(c.outputs, |c.nodes|)
      && ConeOf(c.nodes, c.outputs, again) == Cone(c.nodes, c.outputs, seq(|c.nodes|, p requires 0 <= p => Some(p)))
  {
    hide NodeKey.Token, Ordered, KeptNodes, Wires, PostOrder, Renumbered, Positions;
    var w := Wires(nodes, swap);
    var c := ConeOf(nodes, outputs, swap);
    var more := Wires(c.nodes, again);
    ConeIsArena(nodes, outputs, swap);
    ConeIsRenumbered(nodes, outputs, swap, again);
    RewalkIsInOrder(w, outputs, more);
    PostOrderIsCone(more, c.outputs);
    var all := UpTo(|c.nodes|);
    KeptInPlace(c.nodes, more);
    OrderIsDistinct(more, all);
    assert forall k :: 0 <= k < |c.outputs| ==> all[c.outputs[k]] == c.outputs[k];
    InPlace(all, c.outputs, |c.nodes|);
    PositionsInPlace(|c.nodes|);
  }

  lemma PositionsInPlace(n: nat)
    requires Distinct(UpTo(n))
    ensures Positions(n, UpTo(n)) == seq(n, p requires 0 <= p => Some(p))
  {
    var all := UpTo(n);
    forall p: nat | p < n ensures Position(all, p) == Some(p) {
      IndexOfAt(all, p);
      assert all[p] == p;
    }
  }

  /** A kept node reads its visited inputs: a source has none. */
  lemma KeptReads(nodes: seq<NodeKey>, swap: Swaps, i: nat, ins: seq<nat>)
    requires Fits(nodes, swap) && i < |nodes| && |ins| == |Wires(nodes, swap)[i]|
    ensures nodes[i].WithInputs(ins).Inputs() == ins
  {
    hide NodeKey.Token;
  }

  /** A kept node reads, in the cone, what its recorded node's oriented operands became. */
  lemma KeptInputs(nodes: seq<NodeKey>, swap: Swaps, order: seq<nat>, p: nat)
    requires Arena(nodes) && Fits(nodes, swap) && Ordered(Wires(nodes, swap), order) && p < |order|
    ensures var w := Wires(nodes, swap); var ins := w[order[p]]; var key := KeptNodes(nodes, w, order)[p];
      && Below(order, |nodes|) && Below(ins, |nodes|) && Below(nodes[order[p]].Inputs(), |nodes|) && AllIn(ins, order)
      && key == nodes[order[p]].WithInputs(Renumber(order, ins)) && key.Inputs() == Renumber(order, ins)
  {
    hide NodeKey.Token, NodeKey.WithInputs, Ordered, KeptNodes, Renumber;
    var w := Wires(nodes, swap);
    OrderedBelow(w, order);
    KeptAt(nodes, w, order, p);
    KeptReads(nodes, swap, order[p], Renumber(order, w[order[p]]));
    assert Below(nodes[order[p]].Inputs(), order[p]);
  }

  lemma {:induction false} KeptKeys(hash: Hash, nodes: seq<NodeKey>, order: seq<nat>)
    requires Arena(nodes) && Ordered(Wires(nodes, Some(SwapsOf(hash, nodes))), order)
    ensures var kept := KeptNodes(nodes, Wires(nodes, Some(SwapsOf(hash, nodes))), order);
      Arena(kept) && Keys(hash, ToEngine(kept)) == Gather(Keys(hash, ToEngine(nodes)), order)
  {
    hide NodeKey.Token, Ordered, Keys, Fold, KeptNodes, SwapsOf, Wires;
    var swap := Some(SwapsOf(hash, nodes));
    SwapsOfCommute(hash, nodes);
    KeysCommute(hash);
    KeptFold(KeyOp(hash), nodes, swap, order);
    KeysAreFold(hash, nodes);
    KeysAreFold(hash, KeptNodes(nodes, Wires(nodes, swap), order));
  }

  lemma {:induction false} KeptOnce(hash: Hash, nodes: seq<NodeKey>, order: seq<nat>, p: nat)
    requires Arena(nodes) && Ordered(Wires(nodes, Some(SwapsOf(hash, nodes))), order) && p < |order|
    ensures var kept := KeptNodes(nodes, Wires(nodes, Some(SwapsOf(hash, nodes))), order);
      Arena(kept) && !Swapped(kept[p], InputKeys(hash, kept, p))
  {
    hide NodeKey.Token, NodeKey.Inputs, NodeKey.WithInputs, Ordered, Keys, Fold, KeptNodes, Renumber, Swapped;
    var swap := Some(SwapsOf(hash, nodes));
    var w := Wires(nodes, swap);
    var kept := KeptNodes(nodes, w, order);
    KeptInputs(nodes, swap, order, p);
    KeptKeys(hash, nodes, order);
    var i := order[p];
    var ks := Keys(hash, ToEngine(nodes));
    RenumberGathers(ks, order, w[i]);
    assert InputKeys(hash, kept, p) == Gather(ks, w[i]);
    var inputKeys := Gather(ks, nodes[i].Inputs());
    SwappedOnce(nodes[i], Renumber(order, w[i]), inputKeys);
    assert Gather(ks, w[i]) == Operands(inputKeys, swap.value[i]);
  }

  /** In an oriented cone no node is left to swap. */
  lemma {:induction false} OrientedOnce(hash: Hash, nodes: seq<NodeKey>, outputs: seq<nat>, p: nat)
    requires Arena(nodes) && Below(outputs, |nodes|)
    requires var c := ConeOf(nodes, outputs, Some(SwapsOf(hash, nodes))); Arena(c.nodes) && p < |c.nodes|
    ensures !SwapsOf(hash, ConeOf(nodes, outputs, Some(SwapsOf(hash, nodes))).nodes)[p]
  {
    hide NodeKey.Token, NodeKey.Inputs, NodeKey.WithInputs, Keys, Fold, Ordered, KeptNodes, Renumber, Swapped, Wires;
    var w := Wires(nodes, Some(SwapsOf(hash, nodes)));
    VisitAllFacts(w, |w|, outputs, []);
    KeptOnce(hash, nodes, PostOrder(w, outputs), p);
  }

  lemma KeysAreFold(hash: Hash, nodes: seq<NodeKey>)
    requires Arena(nodes)
    ensures Keys(hash, ToEngine(nodes)) == Fold(KeyOp(hash), ToEngine(nodes))
  {
  }

  lemma SwappedOnce(key: NodeKey, ins: seq<nat>, ks: seq<nat>)
    requires |ks| == |key.Inputs()| && |ins| == |ks|
    ensures Swapped(key, ks) ==> |ks| == 2
    ensures !Swapped(key.WithInputs(ins), Operands(ks, Swapped(key, ks)))
  {
    hide NodeKey.Token;
  }

  /** Dead-code elimination is idempotent on any arena, symmetric operands oriented by their keys each time. */
  lemma {:induction false} OrientedConeIsIdempotent(hash: Hash, nodes: seq<NodeKey>, outputs: seq<nat>)
    requires Arena(nodes) && Below(outputs, |nodes|)
    ensures var c := ConeOf(nodes, outputs, Some(SwapsOf(hash, nodes)));
      && Arena(c.nodes) && Below(c.outputs, |c.nodes|)
      && ConeOf(c.nodes, c.outputs, Some(SwapsOf(hash, c.nodes)))
         == Cone(c.nodes, c.outputs, seq(|c.nodes|, p requires 0 <= p => Some(p)))
  {
    hide NodeKey.Token, Ordered, KeptNodes, SwapsOf, ConeOf;
    var swap := Some(SwapsOf(hash, nodes));
    var c := ConeOf(nodes, outputs, swap);
    ConeIsArena(nodes, outputs, swap);
    forall p | 0 <= p < |c.nodes| ensures Wires(c.nodes, Some(SwapsOf(hash, c.nodes)))[p] == c.nodes[p].Inputs() {
      OrientedOnce(hash, nodes, outputs, p);
    }
    ReconeIsIdentity(nodes, outputs, swap, Some(SwapsOf(hash, c.nodes)));
  }

  /** And so it is without orientation. */
  lemma {:induction false} PlainConeIsIdempotent(nodes: seq<NodeKey>, outputs: seq<nat>)
    requires Arena(nodes) && Below(outputs, |nodes|)
    ensures var c := ConeOf(nodes, outputs, None);
      && Arena(c.nodes) && Below(c.outputs, |c.nodes|)
      && ConeOf(c.nodes, c.outputs, None) == Cone(c.nodes, c.outputs, seq(|c.nodes|, p requires 0 <= p => Some(p)))
  {
    hide NodeKey.Token, Ordered, KeptNodes, ConeOf;
    ConeIsArena(nodes, outputs, None);
    ReconeIsIdentity(nodes, outputs, None, None);
  }

  lemma {:induction false} ConeIsArena(nodes: seq<NodeKey>, outputs: seq<nat>, swap: Swaps)
    requires Arena(nodes) && Below(outputs, |nodes|) && Fits(nodes, swap)
    ensures var c := ConeOf(nodes, outputs, swap); Arena(c.nodes) && Below(c.outputs, |c.nodes|)
  {
    hide NodeKey.Token;
    var w := Wires(nodes, swap);
    VisitAllFacts(w, |w|, outputs, []);
    KeptIsArena(nodes, w, PostOrder(w, outputs));
  }
}
