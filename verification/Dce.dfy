/** Dead-code elimination with operand orientation (src/optimizer/mod.rs). */
module Dce {
  import opened Collections
  import opened Nodes
  import opened Graph
  import opened Walk

  /** Which nodes to visit and keep with their two operands swapped; none for an oriented arena. */
  type Swaps = Option<seq<bool>>

  predicate Fits(nodes: seq<NodeKey>, swap: Swaps) {
    swap.Some? ==>
      |swap.value| == |nodes| && forall i :: 0 <= i < |nodes| && swap.value[i] ==> |nodes[i].Inputs()| == 2
  }

  function Operands(ins: seq<nat>, swapped: bool): (r: seq<nat>)
    requires swapped ==> |ins| == 2
    ensures |r| == |ins|
    ensures forall k :: 0 <= k < |r| ==> r[k] == ins[if swapped then 1 - k else k]
  {
    if swapped then [ins[1], ins[0]] else ins
  }

  function Wires(nodes: seq<NodeKey>, swap: Swaps): (w: Wiring)
    requires Fits(nodes, swap)
    ensures |w| == |nodes|
    ensures Arena(nodes) ==> Downward(w)
  {
    seq(|nodes|, i requires 0 <= i < |nodes| => Operands(nodes[i].Inputs(), swap.Some? && swap.value[i]))
  }

  /** The `k`-th input node `i` is visited through. */
  function InputAt(nodes: seq<NodeKey>, swap: Swaps, i: nat, k: nat): (r: Option<nat>)
    requires Fits(nodes, swap) && i < |nodes|
    ensures r == if k < |Wires(nodes, swap)[i]| then Some(Wires(nodes, swap)[i][k]) else None
  {
    var ins := nodes[i].Inputs();
    var at := if k < |ins| && swap.Some? && swap.value[i] then 1 - k else k;
    if at < |ins| then Some(ins[at]) else None
  }

  // ---- what the pass computes -------------------------------------------------------------------

  datatype Cone = Cone(nodes: seq<NodeKey>, outputs: seq<nat>, remap: seq<Option<nat>>)

  function Position(order: seq<nat>, i: nat): Option<nat> {
    if i in order then Some(IndexOf(order, i)) else None
  }

  function Positions(n: nat, order: seq<nat>): (r: seq<Option<nat>>)
    ensures |r| == n
  {
    seq(n, i requires 0 <= i => Position(order, i))
  }

  function Renumber(order: seq<nat>, xs: seq<nat>): (r: seq<nat>)
    requires AllIn(xs, order)
    ensures |r| == |xs| && Below(r, |order|)
    ensures forall k :: 0 <= k < |xs| ==> r[k] == IndexOf(order, xs[k])
  {
    seq(|xs|, k requires 0 <= k < |xs| => IndexOf(order, xs[k]))
  }

  /** The nodes of `order`, each reading its inputs where they were kept. */
  function KeptNodes(nodes: seq<NodeKey>, w: Wiring, order: seq<nat>): (kept: seq<NodeKey>)
    requires |w| == |nodes| && Ordered(w, order)
    ensures |kept| == |order|
  {
    if order == [] then []
    else
      var m := |order| - 1;
      OrderedPrefix(w, order, m);
      KeptNodes(nodes, w, order[..m]) + [nodes[order[m]].WithInputs(Renumber(order[..m], w[order[m]]))]
  }

  ghost function ConeOf(nodes: seq<NodeKey>, outputs: seq<nat>, swap: Swaps): (c: Cone)
    requires Arena(nodes) && Below(outputs, |nodes|) && Fits(nodes, swap)
  {
    var w := Wires(nodes, swap);
    var order := PostOrder(w, outputs);
    VisitAllFacts(w, |w|, outputs, []);
    Cone(KeptNodes(nodes, w, order),
         Renumber(order, outputs),
         Positions(|nodes|, order))
  }

  lemma RenumberPrefix(order: seq<nat>, m: nat, xs: seq<nat>)
    requires m <= |order|
    requires AllIn(xs, order[..m])
    ensures AllIn(xs, order)
    ensures Renumber(order[..m], xs) == Renumber(order, xs)
  {
    forall k | 0 <= k < |xs| ensures xs[k] in order && IndexOf(order[..m], xs[k]) == IndexOf(order, xs[k]) {
      IndexOfPrefix(order, m, xs[k]);
    }
  }

  lemma {:induction false} KeptAtPrefix(nodes: seq<NodeKey>, w: Wiring, order: seq<nat>, p: nat)
    requires |w| == |nodes| && Ordered(w, order) && p < |order|
    ensures AllIn(w[order[p]], order[..p])
    ensures KeptNodes(nodes, w, order)[p] == nodes[order[p]].WithInputs(Renumber(order[..p], w[order[p]]))
  {
    var m := |order| - 1;
    OrderedPrefix(w, order, m);
    var before := order[..m];
    if p < m {
      KeptAtPrefix(nodes, w, before, p);
      assert before[..p] == order[..p] && before[p] == order[p];
      assert KeptNodes(nodes, w, order)[p] == KeptNodes(nodes, w, before)[p];
    }
  }

  lemma KeptAt(nodes: seq<NodeKey>, w: Wiring, order: seq<nat>, p: nat)
    requires |w| == |nodes| && Ordered(w, order) && p < |order|
    ensures AllIn(w[order[p]], order)
    ensures KeptNodes(nodes, w, order)[p] == nodes[order[p]].WithInputs(Renumber(order, w[order[p]]))
    ensures Below(Renumber(order, w[order[p]]), p)
  {
    KeptAtPrefix(nodes, w, order, p);
    RenumberPrefix(order, p, w[order[p]]);
  }

  lemma KeptIsArena(nodes: seq<NodeKey>, w: Wiring, order: seq<nat>)
    requires |w| == |nodes| && Ordered(w, order)
    ensures Arena(KeptNodes(nodes, w, order))
  {
    forall p | 0 <= p < |order| ensures Below(KeptNodes(nodes, w, order)[p].Inputs(), p) {
      KeptAt(nodes, w, order, p);
    }
  }

  // ---- the stack refines the recursion ----------------------------------------------------------

  /** The `(node, next input to visit)` stack, top first. */
  datatype Stack = Empty | Frame(node: nat, next: nat, under: Stack)

  ghost predicate Framed(w: Wiring, st: Stack) {
    st.Frame? ==> st.node < |w| && st.next <= |w[st.node]| && Framed(w, st.under)
  }

  /** What the walk will have finished when the stack empties. */
  ghost function Finish(w: Wiring, st: Stack, order: seq<nat>): seq<nat>
    requires Downward(w) && Framed(w, st)
  {
    match st
    case Empty => order
    case Frame(i, next, under) => Finish(w, under, VisitAll(w, i, w[i][next..], order) + [i])
  }

  /** Unfinished nodes, each of which advanced last onto the one above it, `child` at the top. */
  ghost predicate Awaiting(w: Wiring, st: Stack, child: nat, order: seq<nat>) {
    match st
    case Empty => true
    case Frame(i, next, under) =>
      && child < i < |w| && i !in order
      && 0 < next <= |w[i]| && w[i][next - 1] == child && AllIn(w[i][..next - 1], order)
      && Awaiting(w, under, i, order)
  }

  /** The stack is a path of unfinished nodes; all its top node advanced past is finished. */
  ghost predicate Path(w: Wiring, st: Stack, order: seq<nat>) {
    match st
    case Empty => true
    case Frame(i, next, under) =>
      && i < |w| && i !in order
      && next <= |w[i]| && AllIn(w[i][..next], order)
      && Awaiting(w, under, i, order)
  }

  lemma {:induction false} AwaitingIsFramed(w: Wiring, st: Stack, child: nat, order: seq<nat>)
    requires Awaiting(w, st, child, order)
    ensures Framed(w, st)
  {
    if st.Frame? { AwaitingIsFramed(w, st.under, st.node, order); }
  }

  lemma PathIsFramed(w: Wiring, st: Stack, order: seq<nat>)
    requires Path(w, st, order)
    ensures Framed(w, st)
  {
    if st.Frame? { AwaitingIsFramed(w, st.under, st.node, order); }
  }

  ghost predicate Recorded(nodes: seq<NodeKey>, w: Wiring, order: seq<nat>, kept: seq<NodeKey>, remap: seq<Option<nat>>)
  {
    && |w| == |nodes|
    && Ordered(w, order)
    && remap == Positions(|nodes|, order)
    && kept == KeptNodes(nodes, w, order)
  }

  lemma NothingRecorded(nodes: seq<NodeKey>, w: Wiring, remap: seq<Option<nat>>)
    requires |w| == |nodes| == |remap| && forall i :: 0 <= i < |remap| ==> remap[i] == None
    ensures Recorded(nodes, w, [], [], remap)
  {
  }

  lemma RecordFinished(nodes: seq<NodeKey>, w: Wiring, order: seq<nat>, kept: seq<NodeKey>,
                       remap: seq<Option<nat>>, i: nat, key: NodeKey)
    requires Recorded(nodes, w, order, kept, remap)
    requires i < |nodes| && i !in order
    requires AllIn(w[i], order)
    requires key == nodes[i].WithInputs(Renumber(order, w[i]))
    ensures Recorded(nodes, w, order + [i], kept + [key], remap[i := Some(|kept|)])
  {
    var more := order + [i];
    OrderedMore(w, order, i);
    assert more[..|order|] == order;
    IndexOfAt(more, |order|);
    forall j | 0 <= j < |nodes| && j in order ensures Position(more, j) == Position(order, j) {
      IndexOfPrefix(more, |order|, j);
    }
  }

  lemma {:induction false} AwaitingMore(w: Wiring, st: Stack, child: nat, order: seq<nat>, done: nat)
    requires Awaiting(w, st, child, order) && done < child
    ensures Awaiting(w, st, child, order + [done])
  {
    if st.Frame? { AwaitingMore(w, st.under, st.node, order, done); }
  }

  /** Finishing the top node leaves a path whose top has one more finished input. */
  lemma PopKeepsPath(w: Wiring, i: nat, under: Stack, order: seq<nat>)
    requires Awaiting(w, under, i, order)
    ensures Path(w, under, order + [i])
  {
    if under.Frame? {
      AwaitingMore(w, under.under, under.node, order, i);
      assert w[under.node][..under.next] == w[under.node][..under.next - 1] + [i];
    }
  }

  /** Past a finished input the walk advances; on an unfinished one it also pushes. */
  ghost function Advanced(w: Wiring, i: nat, next: nat, under: Stack, order: seq<nat>): Stack
    requires i < |w| && next < |w[i]|
  {
    var rest := Frame(i, next + 1, under);
    if w[i][next] in order then rest else Frame(w[i][next], 0, rest)
  }

  /** Neither changes what the walk will have finished. */
  lemma AdvanceKeepsFinish(w: Wiring, i: nat, next: nat, under: Stack, order: seq<nat>)
    requires Downward(w) && Framed(w, Frame(i, next, under)) && next < |w[i]|
    ensures Framed(w, Advanced(w, i, next, under, order))
    ensures Finish(w, Advanced(w, i, next, under, order), order) == Finish(w, Frame(i, next, under), order)
  {
    var inp := w[i][next];
    var todo := w[i][next..];
    assert todo[0] == inp && todo[1..] == w[i][next + 1..];
    assert w[inp][0..] == w[inp];
    assert VisitAll(w, i, todo, order) == VisitAll(w, i, todo[1..], Visit(w, inp, order));
  }

  lemma AdvanceKeepsPath(w: Wiring, i: nat, next: nat, under: Stack, order: seq<nat>)
    requires Downward(w) && Path(w, Frame(i, next, under), order) && next < |w[i]|
    ensures Path(w, Advanced(w, i, next, under, order), order)
  {
    assert w[i][..next + 1] == w[i][..next] + [w[i][next]];
  }

  /** The explicit-stack walk computes the recursive post-order's cone. */
  method DeadCodeElimination(nodes: seq<NodeKey>, outputs: seq<nat>, swap: Swaps)
    returns (kept: seq<NodeKey>, outIdx: seq<nat>, remap: seq<Option<nat>>)
    requires Arena(nodes) && Below(outputs, |nodes|) && Fits(nodes, swap)
    ensures Cone(kept, outIdx, remap) == ConeOf(nodes, outputs, swap)
  {
    hide Downward, Arena, Fits, KeptNodes, Ordered;
    ghost var w := Wires(nodes, swap);
    ghost var order: seq<nat> := [];
    remap := seq(|nodes|, _ => None);
    kept := [];
    NothingRecorded(nodes, w, remap);
    for o := 0 to |outputs|
      invariant Recorded(nodes, w, order, kept, remap)
      invariant order == VisitAll(w, |w|, outputs[..o], [])
    {
      if remap[outputs[o]].None? {
        kept, remap, order := WalkFrom(nodes, outputs[o], swap, kept, remap, order);
      }
      VisitAllSplit(w, |w|, outputs[..o], [outputs[o]], []);
      assert outputs[..o + 1] == outputs[..o] + [outputs[o]];
    }
    assert outputs[..|outputs|] == outputs;
    assert order == PostOrder(w, outputs);
    VisitAllFacts(w, |w|, outputs, []);
    outIdx := Located(outputs, remap, order);
  }

  /** Where `remap` put the finished nodes `xs`. */
  function Located(xs: seq<nat>, remap: seq<Option<nat>>, ghost order: seq<nat>): (r: seq<nat>)
    requires Below(xs, |remap|) && remap == Positions(|remap|, order) && AllIn(xs, order)
    ensures r == Renumber(order, xs)
  {
    var r := seq(|xs|, k requires 0 <= k < |xs| => remap[xs[k]].value);
    assert r == Renumber(order, xs);
    r
  }

  /** One output's walk: `(node, next input to visit)` frames, until the stack empties. */
  method WalkFrom(nodes: seq<NodeKey>, o: nat, swap: Swaps, kept0: seq<NodeKey>, remap0: seq<Option<nat>>,
                  ghost order0: seq<nat>)
    returns (kept: seq<NodeKey>, remap: seq<Option<nat>>, ghost order: seq<nat>)
    requires Arena(nodes) && Fits(nodes, swap) && o < |nodes| && o !in order0
    requires Recorded(nodes, Wires(nodes, swap), order0, kept0, remap0)
    ensures order == Visit(Wires(nodes, swap), o, order0)
    ensures Recorded(nodes, Wires(nodes, swap), order, kept, remap)
  {
    hide KeptNodes, Fits;
    ghost var w := Wires(nodes, swap);
    kept, remap, order := kept0, remap0, order0;
    var stack := Frame(o, 0, Empty);
    assert w[o][0..] == w[o];
    while stack.Frame?
      invariant Recorded(nodes, w, order, kept, remap)
      invariant Path(w, stack, order) && Framed(w, stack)
      invariant Finish(w, stack, order) == Visit(w, o, order0)
      decreases |nodes| - |order|, if stack.Frame? then stack.node + 1 else 0,
                if stack.Frame? then |w[stack.node]| - stack.next else 0
    {
      var Frame(i, next, under) := stack;
      match InputAt(nodes, swap, i, next)
      case Some(inp) =>
        AdvanceKeepsPath(w, i, next, under, order);
        AdvanceKeepsFinish(w, i, next, under, order);
        stack := Frame(i, next + 1, under);
        if remap[inp].None? {
          stack := Frame(inp, 0, stack);
        }
      case None =>
        PopKeepsPath(w, i, under, order);
        PathIsFramed(w, under, order + [i]);
        assert w[i][..next] == w[i] && w[i][next..] == [];
        var key := Relinked(nodes, swap, order, remap, i);
        RecordFinished(nodes, w, order, kept, remap, i, key);
        stack := under;
        remap := remap[i := Some(|kept|)];
        kept := kept + [key];
        order := order + [i];
        DistinctBound(order, |w|);
    }
  }

  /** Node `i` reading its inputs, in visiting order, where `remap` put them. */
  function Relinked(nodes: seq<NodeKey>, swap: Swaps, ghost order: seq<nat>, remap: seq<Option<nat>>, i: nat): (key: NodeKey)
    requires Arena(nodes) && Fits(nodes, swap) && remap == Positions(|nodes|, order) && i < |nodes|
    requires AllIn(Wires(nodes, swap)[i], order)
    ensures key == nodes[i].WithInputs(Renumber(order, Wires(nodes, swap)[i]))
  {
    var w := Wires(nodes, swap);
    assert Below(w[i], i);
    nodes[i].WithInputs(Located(w[i], remap, order))
  }

  // ---- orientation ------------------------------------------------------------------------------

  /** `orient` swaps a node's operands: a commuting binary op whose second operand has the smaller key. */
  predicate Swapped(key: NodeKey, ks: seq<nat>) {
    |ks| == 2 && ks[1] < ks[0] && IsSymmetric(key)
  }

  /** `orient`: a symmetric op's operands in structural-key order. */
  function Orient(key: NodeKey, ks: seq<nat>): NodeKey {
    if |key.Inputs()| == 2 && Swapped(key, ks) then key.WithInputs([key.Inputs()[1], key.Inputs()[0]]) else key
  }

  function InputKeys(hash: Hash, nodes: seq<NodeKey>, i: nat): (ks: seq<nat>)
    requires Arena(nodes) && i < |nodes|
    ensures |ks| == |nodes[i].Inputs()|
  {
    Gather(Keys(hash, ToEngine(nodes)), nodes[i].Inputs())
  }

  ghost function SwapsOf(hash: Hash, nodes: seq<NodeKey>): (s: seq<bool>)
    requires Arena(nodes)
    ensures |s| == |nodes| && Fits(nodes, Some(s))
  {
    seq(|nodes|, i requires 0 <= i < |nodes| => Swapped(nodes[i], InputKeys(hash, nodes, i)))
  }

  lemma {:induction false} KeyAt(hash: Hash, nodes: seq<NodeKey>, i: nat, keys: seq<nat>)
    requires Arena(nodes) && i < |nodes| && keys == Keys(hash, ToEngine(nodes))[..i]
    ensures Below(nodes[i].Inputs(), i) && Gather(keys, nodes[i].Inputs()) == InputKeys(hash, nodes, i)
    ensures Keys(hash, ToEngine(nodes))[i] == StructuralKey(hash, nodes[i].Token(), InputKeys(hash, nodes, i))
  {
    FoldIsFold(KeyOp(hash), ToEngine(nodes));
    assert ToEngine(nodes)[i] == ToEngineNode(nodes[i]);
  }

  /** One pass over the arena: each node's structural key, and whether `orient` swaps it. */
  method SymmetricSwaps(hash: Hash, nodes: seq<NodeKey>) returns (swap: seq<bool>)
    requires Arena(nodes)
    ensures swap == SwapsOf(hash, nodes)
  {
    var keys: seq<nat> := [];
    swap := [];
    for i := 0 to |nodes|
      invariant keys == Keys(hash, ToEngine(nodes))[..i]
      invariant swap == SwapsOf(hash, nodes)[..i]
    {
      KeyAt(hash, nodes, i, keys);
      TakeMore(Keys(hash, ToEngine(nodes)), i);
      TakeMore(SwapsOf(hash, nodes), i);
      var ins := Gather(keys, nodes[i].Inputs());
      keys := keys + [StructuralKey(hash, nodes[i].Token(), ins)];
      swap := swap + [Swapped(nodes[i], ins)];
    }
  }

  /** Operands are only swapped where the commute rule lets them. */
  ghost predicate SwapsCommute(nodes: seq<NodeKey>, swap: Swaps)
    requires Fits(nodes, swap)
  {
    swap.Some? ==> forall i :: 0 <= i < |nodes| && swap.value[i] ==> Commutes(nodes[i].Token())
  }

  lemma {:induction false} SwapsOfCommute(hash: Hash, nodes: seq<NodeKey>)
    requires Arena(nodes)
    ensures SwapsCommute(nodes, Some(SwapsOf(hash, nodes)))
  {
    forall i | 0 <= i < |nodes| && SwapsOf(hash, nodes)[i] ensures Commutes(nodes[i].Token()) {
      SymmetricIsCommuting(nodes[i]);
    }
  }

  lemma RenumberGathers<V>(vs: seq<V>, order: seq<nat>, xs: seq<nat>)
    requires Below(order, |vs|) && AllIn(xs, order) && Below(xs, |vs|)
    ensures Gather(Gather(vs, order), Renumber(order, xs)) == Gather(vs, xs)
  {
  }

  /** Under any interpretation that respects the commute rules, every kept node is worth what it was
      worth in the arena. */
  lemma {:induction false} KeptFold<V(!new)>(f: (string, seq<V>) -> V, nodes: seq<NodeKey>, swap: Swaps, order: seq<nat>)
    requires Arena(nodes) && Fits(nodes, swap) && SwapsCommute(nodes, swap) && (swap.Some? ==> Commuting(f))
    requires Ordered(Wires(nodes, swap), order)
    ensures Arena(KeptNodes(nodes, Wires(nodes, swap), order))
    ensures Fold(f, ToEngine(KeptNodes(nodes, Wires(nodes, swap), order))) == Gather(Fold(f, ToEngine(nodes)), order)
  {
    var w := Wires(nodes, swap);
    var kept := KeptNodes(nodes, w, order);
    var g := ToEngine(nodes);
    var vs := Fold(f, g);
    var us := Gather(vs, order);
    KeptIsArena(nodes, w, order);
    FoldIsFold(f, g);
    forall p | 0 <= p < |kept| ensures us[p] == f(ToEngine(kept)[p].token, Gather(us, ToEngine(kept)[p].inputs)) {
      KeptNodeFold(f, nodes, swap, order, vs, p);
    }
    FoldUnique(f, ToEngine(kept), us);
  }

  lemma {:induction false} OperandsFold<V(!new)>(f: (string, seq<V>) -> V, token: string, vs: seq<V>, ins: seq<nat>, swapped: bool)
    requires Below(ins, |vs|) && (swapped ==> |ins| == 2 && Commutes(token) && Commuting(f))
    ensures f(token, Gather(vs, Operands(ins, swapped))) == f(token, Gather(vs, ins))
  {
    if swapped {
      var a, b := vs[ins[0]], vs[ins[1]];
      assert Gather(vs, ins) == [a, b] && Gather(vs, Operands(ins, swapped)) == [b, a];
    }
  }

  lemma {:induction false} KeptNodeFold<V(!new)>(f: (string, seq<V>) -> V, nodes: seq<NodeKey>, swap: Swaps, order: seq<nat>,
                               vs: seq<V>, p: nat)
    requires Arena(nodes) && Fits(nodes, swap) && SwapsCommute(nodes, swap) && (swap.Some? ==> Commuting(f))
    requires Ordered(Wires(nodes, swap), order) && p < |order|
    requires IsFold(f, ToEngine(nodes), vs)
    ensures var key := KeptNodes(nodes, Wires(nodes, swap), order)[p];
      var us := Gather(vs, order);
      Below(key.Inputs(), |us|) && us[p] == f(key.Token(), Gather(us, key.Inputs()))
  {
    var w := Wires(nodes, swap);
    var i := order[p];
    var key := nodes[i];
    KeptAt(nodes, w, order, p);
    var ins := Renumber(order, w[i]);
    var kept := key.WithInputs(ins);
    SameOperatorSameToken(key, ins);
    assert w[i] == Operands(key.Inputs(), swap.Some? && swap.value[i]);
    assert ToEngine(nodes)[i] == ToEngineNode(key);
    assert vs[i] == f(key.Token(), Gather(vs, key.Inputs()));
    OperandsFold(f, key.Token(), vs, key.Inputs(), swap.Some? && swap.value[i]);
    assert kept.Inputs() == ins;
    RenumberGathers(vs, order, w[i]);
    var us := Gather(vs, order);
    assert us[p] == vs[i];
    assert Gather(us, kept.Inputs()) == Gather(vs, w[i]);
    assert us[p] == f(kept.Token(), Gather(us, kept.Inputs()));
  }
}
