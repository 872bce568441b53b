/** Which ops fuse into one stage (`uses`, `Dsu`, `single_use_components` and `maximal_components`
    of src/optimizer/mod.rs). */
module Components {
  import opened Collections
  import opened Graph

  // ---- consumers --------------------------------------------------------------------------------

  /** `reader`, once for each time `x` is among `inputs`. */
  function Readers(inputs: seq<nat>, reader: nat, x: nat): (r: seq<nat>) {
    if inputs == [] then []
    else
      var m := |inputs| - 1;
      Readers(inputs[..m], reader, x) + if inputs[m] == x then [reader] else []
  }

  /** The nodes that read `x`, ascending, once per occurrence. */
  function Consumers(g: seq<EngineNode>, x: nat): seq<nat> {
    if g == [] then []
    else
      var m := |g| - 1;
      Consumers(g[..m], x) + Readers(g[m].inputs, m, x)
  }

  lemma {:induction false} ReadersAre(inputs: seq<nat>, reader: nat, x: nat)
    ensures forall c :: c in Readers(inputs, reader, x) <==> c == reader && x in inputs
  {
    if inputs != [] {
      var m := |inputs| - 1;
      ReadersAre(inputs[..m], reader, x);
      assert inputs == inputs[..m] + [inputs[m]];
    }
  }

  lemma {:induction false} ConsumersAre(g: seq<EngineNode>, x: nat)
    ensures forall c :: c in Consumers(g, x) <==> 0 <= c < |g| && x in g[c].inputs
  {
    if g != [] {
      var m := |g| - 1;
      ConsumersAre(g[..m], x);
      ReadersAre(g[m].inputs, m, x);
    }
  }

  /** Consumers come after what they read. */
  lemma ConsumersAbove(g: seq<EngineNode>, x: nat)
    requires Topological(g)
    ensures forall k :: 0 <= k < |Consumers(g, x)| ==> x < Consumers(g, x)[k] < |g|
  {
    ConsumersAre(g, x);
    forall k | 0 <= k < |Consumers(g, x)| ensures x < Consumers(g, x)[k] < |g| {
      var c := Consumers(g, x)[k];
      assert c in Consumers(g, x);
      assert Below(g[c].inputs, c);
    }
  }

  ghost function AllConsumers(g: seq<EngineNode>, n: nat): (r: seq<seq<nat>>)
    ensures |r| == n
    ensures forall x :: 0 <= x < n ==> r[x] == Consumers(g, x)
  {
    seq(n, x requires 0 <= x => Consumers(g, x))
  }

  predicate Graphed(graph: EngineGraph) {
    Topological(graph.nodes) && Below(graph.outputs, |graph.nodes|)
  }

  /** Each node's consumers, and whether it is an output. */
  method Uses(graph: EngineGraph) returns (consumers: seq<seq<nat>>, isOutput: seq<bool>)
    requires Graphed(graph)
    ensures consumers == AllConsumers(graph.nodes, |graph.nodes|)
    ensures |isOutput| == |graph.nodes|
    ensures forall i :: 0 <= i < |graph.nodes| ==> isOutput[i] == (i in graph.outputs)
  {
    var n := |graph.nodes|;
    consumers := seq(n, _ => []);
    for i := 0 to n
      invariant consumers == AllConsumers(graph.nodes[..i], n)
    {
      var inputs := graph.nodes[i].inputs;
      assert Below(inputs, i);
      for k := 0 to |inputs|
        invariant |consumers| == n
        invariant forall x :: 0 <= x < n ==>
          consumers[x] == Consumers(graph.nodes[..i], x) + Readers(inputs[..k], i, x)
      {
        assert inputs[..k + 1][..k] == inputs[..k];
        consumers := consumers[inputs[k] := consumers[inputs[k]] + [i]];
      }
      assert inputs[..|inputs|] == inputs;
      assert graph.nodes[..i + 1][..i] == graph.nodes[..i];
    }
    assert graph.nodes[..n] == graph.nodes;
    isOutput := seq(n, _ => false);
    for k := 0 to |graph.outputs|
      invariant |isOutput| == n
      invariant forall i :: 0 <= i < n ==> isOutput[i] == (i in graph.outputs[..k])
    {
      isOutput := isOutput[graph.outputs[k] := true];
      TakeMore(graph.outputs, k);
    }
    assert graph.outputs[..|graph.outputs|] == graph.outputs;
  }

  // ---- which component a node heads or joins ----------------------------------------------------

  datatype FusionMode = SingleUse | Maximal

  /** `i` is an op whose only use is another op. */
  predicate UsedOnce(graph: EngineGraph, i: nat)
    requires Graphed(graph) && i < |graph.nodes|
  {
    ConsumersAbove(graph.nodes, i);
    var cs := Consumers(graph.nodes, i);
    !graph.nodes[i].boundary && |cs| == 1 && i !in graph.outputs && !graph.nodes[cs[0]].boundary
  }

  function SingleHead(graph: EngineGraph, i: nat): (h: nat)
    requires Graphed(graph) && i < |graph.nodes|
    ensures i <= h < |graph.nodes|
    decreases |graph.nodes| - i
  {
    ConsumersAbove(graph.nodes, i);
    if UsedOnce(graph, i) then SingleHead(graph, Consumers(graph.nodes, i)[0]) else i
  }

  /** `i` is an op, not an output, whose consumers are all ops. */
  predicate OnlyOpsRead(graph: EngineGraph, i: nat)
    requires Graphed(graph) && i < |graph.nodes|
  {
    ConsumersAbove(graph.nodes, i);
    var cs := Consumers(graph.nodes, i);
    !graph.nodes[i].boundary && i !in graph.outputs && cs != []
    && forall k :: 0 <= k < |cs| ==> !graph.nodes[cs[k]].boundary
  }

  function MaximalHead(graph: EngineGraph, i: nat): (h: nat)
    requires Graphed(graph) && i < |graph.nodes|
    ensures i <= h < |graph.nodes|
    decreases |graph.nodes| - i
  {
    ConsumersAbove(graph.nodes, i);
    var cs := Consumers(graph.nodes, i);
    if OnlyOpsRead(graph, i) && forall k :: 0 <= k < |cs| ==> MaximalHead(graph, cs[k]) == MaximalHead(graph, cs[0])
    then MaximalHead(graph, cs[0]) else i
  }

  /** The head of each node's component: the member the rest of the graph reads. */
  function Heads(graph: EngineGraph, mode: FusionMode): (heads: seq<nat>)
    requires Graphed(graph)
    ensures |heads| == |graph.nodes|
    ensures forall i :: 0 <= i < |heads| ==> i <= heads[i] < |graph.nodes|
  {
    seq(|graph.nodes|, i requires 0 <= i < |graph.nodes| =>
      if mode.SingleUse? then SingleHead(graph, i) else MaximalHead(graph, i))
  }

  /** A node that is not a head is an op, no output, and read only inside its own component. */
  ghost predicate Inner(graph: EngineGraph, heads: seq<nat>, i: nat)
    requires |heads| == |graph.nodes| && i < |heads| && Below(heads, |heads|)
  {
    && !graph.nodes[i].boundary
    && !graph.nodes[heads[i]].boundary
    && i !in graph.outputs
    && forall c :: 0 <= c < |heads| && i in graph.nodes[c].inputs ==> heads[c] == heads[i]
  }

  /** Components with one head each, their maximum; nothing else of them is visible outside. */
  ghost predicate FusionPlan(graph: EngineGraph, heads: seq<nat>) {
    && |heads| == |graph.nodes| && Below(heads, |heads|)
    && (forall i :: 0 <= i < |heads| ==> i <= heads[i] && heads[heads[i]] == heads[i])
    && (forall i :: 0 <= i < |heads| && heads[i] != i ==> Inner(graph, heads, i))
  }

  lemma {:induction false} SingleHeadFacts(graph: EngineGraph, i: nat)
    requires Graphed(graph) && i < |graph.nodes|
    ensures var h := SingleHead(graph, i);
      SingleHead(graph, h) == h && (graph.nodes[h].boundary ==> h == i)
    decreases |graph.nodes| - i
  {
    ConsumersAbove(graph.nodes, i);
    if UsedOnce(graph, i) { SingleHeadFacts(graph, Consumers(graph.nodes, i)[0]); }
  }

  lemma {:induction false} MaximalHeadFacts(graph: EngineGraph, i: nat)
    requires Graphed(graph) && i < |graph.nodes|
    ensures var h := MaximalHead(graph, i);
      MaximalHead(graph, h) == h && (graph.nodes[h].boundary ==> h == i)
    decreases |graph.nodes| - i
  {
    ConsumersAbove(graph.nodes, i);
    if MaximalHead(graph, i) != i { MaximalHeadFacts(graph, Consumers(graph.nodes, i)[0]); }
  }

  /** In either mode the components are a fusion plan. */
  lemma HeadsArePlan(graph: EngineGraph, mode: FusionMode)
    requires Graphed(graph)
    ensures FusionPlan(graph, Heads(graph, mode))
  {
    var heads := Heads(graph, mode);
    forall i | 0 <= i < |heads| ensures heads[heads[i]] == heads[i] {
      SingleHeadFacts(graph, i);
      MaximalHeadFacts(graph, i);
    }
    forall i | 0 <= i < |heads| && heads[i] != i ensures Inner(graph, heads, i) {
      SingleHeadFacts(graph, i);
      MaximalHeadFacts(graph, i);
      ConsumersAre(graph.nodes, i);
      var cs := Consumers(graph.nodes, i);
      forall c | 0 <= c < |heads| && i in graph.nodes[c].inputs ensures heads[c] == heads[i] {
        assert c in cs;
        var k := IndexOf(cs, c);
      }
    }
  }

  /** A single-use component lies inside one maximal component. */
  lemma {:induction false} SingleInsideMaximal(graph: EngineGraph, i: nat)
    requires Graphed(graph) && i < |graph.nodes|
    ensures MaximalHead(graph, SingleHead(graph, i)) == MaximalHead(graph, i)
    decreases |graph.nodes| - i
  {
    ConsumersAbove(graph.nodes, i);
    if UsedOnce(graph, i) { SingleInsideMaximal(graph, Consumers(graph.nodes, i)[0]); }
  }

  /** So `Maximal` never splits a stage `SingleUse` makes. */
  lemma MaximalIsCoarser(graph: EngineGraph, i: nat, j: nat)
    requires Graphed(graph) && i < |graph.nodes| && j < |graph.nodes|
    requires SingleHead(graph, i) == SingleHead(graph, j)
    ensures MaximalHead(graph, i) == MaximalHead(graph, j)
  {
    SingleInsideMaximal(graph, i);
    SingleInsideMaximal(graph, j);
  }

  // ---- union-find -------------------------------------------------------------------------------

  /** Parents never lie above their children, so following them ends at a root. */
  ghost predicate Forest(p: seq<nat>) {
    forall x :: 0 <= x < |p| ==> p[x] <= x
  }

  ghost function Root(p: seq<nat>, x: nat): (r: nat)
    requires Forest(p) && x < |p|
    ensures r <= x
  {
    if p[x] == x then x else Root(p, p[x])
  }

  ghost function Roots(p: seq<nat>): (r: seq<nat>)
    requires Forest(p)
    ensures |r| == |p|
  {
    seq(|p|, x requires 0 <= x < |p| => Root(p, x))
  }

  lemma {:induction false} RootIsRoot(p: seq<nat>, x: nat)
    requires Forest(p) && x < |p|
    ensures p[Root(p, x)] == Root(p, x)
  {
    if p[x] != x { RootIsRoot(p, p[x]); }
  }

  /** Pointing a node at its own root moves no root. */
  lemma {:induction false} CompressKeepsRoots(p: seq<nat>, c: nat, x: nat)
    requires Forest(p) && c < |p| && x < |p|
    ensures Forest(p[c := Root(p, c)])
    ensures Root(p[c := Root(p, c)], x) == Root(p, x)
  {
    var q := p[c := Root(p, c)];
    RootIsRoot(p, c);
    if x == c {
      if q[x] != x { assert Root(q, q[x]) == q[x]; }
    } else if p[x] != x {
      CompressKeepsRoots(p, c, p[x]);
    }
  }

  /** Pointing one root at a smaller one sends its class there and moves no other root. */
  lemma {:induction false} LinkMovesClass(p: seq<nat>, hi: nat, lo: nat, x: nat)
    requires Forest(p) && lo < hi < |p| && x < |p| && p[hi] == hi && p[lo] == lo
    ensures Forest(p[hi := lo])
    ensures Root(p[hi := lo], x) == if Root(p, x) == hi then lo else Root(p, x)
  {
    var q := p[hi := lo];
    if x == hi {
      assert Root(q, lo) == lo;
    } else if p[x] != x {
      LinkMovesClass(p, hi, lo, p[x]);
    }
  }

  /** `rs` with the classes `a` and `b` made one, under the smaller name. */
  ghost function Joined(rs: seq<nat>, a: nat, b: nat): (r: seq<nat>)
    ensures |r| == |rs|
  {
    seq(|rs|, y requires 0 <= y < |rs| => if rs[y] == a || rs[y] == b then (if a < b then a else b) else rs[y])
  }

  lemma CompressKeepsAllRoots(p: seq<nat>, c: nat)
    requires Forest(p) && c < |p|
    ensures Forest(p[c := Root(p, c)]) && Roots(p[c := Root(p, c)]) == Roots(p)
  {
    forall x | 0 <= x < |p| ensures Root(p[c := Root(p, c)], x) == Root(p, x) { CompressKeepsRoots(p, c, x); }
  }

  lemma LinkJoins(p: seq<nat>, hi: nat, lo: nat)
    requires Forest(p) && lo < hi < |p| && p[hi] == hi && p[lo] == lo
    ensures Forest(p[hi := lo])
    ensures Roots(p[hi := lo]) == Joined(Roots(p), hi, lo) == Joined(Roots(p), lo, hi)
  {
    forall x | 0 <= x < |p| ensures Root(p[hi := lo], x) == if Root(p, x) == hi then lo else Root(p, x) {
      LinkMovesClass(p, hi, lo, x);
    }
  }

  class Dsu {
    var parent: seq<nat>

    ghost predicate Valid() reads this { Forest(parent) }

    constructor (n: nat)
      ensures Valid() && |parent| == n
      ensures Roots(parent) == seq(n, i requires 0 <= i => i)
    {
      parent := seq(n, i requires 0 <= i => i);
    }

    /** The root of `x`, every node on the way re-pointed at it. */
    method Find(x: nat) returns (r: nat)
      requires Valid() && x < |parent|
      modifies this
      ensures Valid() && |parent| == old(|parent|)
      ensures r == Root(old(parent), x) && parent[r] == r
      ensures Roots(parent) == Roots(old(parent))
    {
      r := x;
      while parent[r] != r
        invariant r < |parent| && Root(parent, r) == Root(parent, x)
        decreases r
      {
        r := parent[r];
      }
      var c: nat := x;
      while parent[c] != c
        invariant Valid() && |parent| == old(|parent|) && c < |parent|
        invariant Root(parent, c) == r && parent[r] == r
        invariant Roots(parent) == Roots(old(parent))
        decreases c
      {
        var n: nat := parent[c];
        CompressKeepsRoots(parent, c, n);
        CompressKeepsAllRoots(parent, c);
        parent := parent[c := r];
        c := n;
      }
    }

    /** The two classes become one, rooted at the smaller of their roots. */
    method Union(a: nat, b: nat)
      requires Valid() && a < |parent| && b < |parent|
      modifies this
      ensures Valid() && |parent| == old(|parent|)
      ensures Roots(parent) == Joined(Roots(old(parent)), Root(old(parent), a), Root(old(parent), b))
    {
      var ra := Find(a);
      var rb := Find(b);
      assert ra == Roots(parent)[a] && rb == Roots(parent)[b];
      RootIsRoot(parent, a);
      if ra < rb {
        LinkJoins(parent, rb, ra);
        parent := parent[rb := ra];
      } else if rb < ra {
        LinkJoins(parent, ra, rb);
        parent := parent[ra := rb];
      } else {
        assert Joined(Roots(parent), ra, ra) == Roots(parent);
      }
    }
  }

  // ---- the two passes ---------------------------------------------------------------------------

  /** Component labels: a label is a member of its component, and is shared by exactly its members. */
  ghost predicate Labels(comp: seq<nat>, heads: seq<nat>) {
    && |comp| == |heads| && Below(comp, |heads|)
    && (forall i :: 0 <= i < |comp| ==> heads[comp[i]] == heads[i])
    && (forall i, j :: 0 <= i < |comp| && 0 <= j < |comp| && heads[i] == heads[j] ==> comp[i] == comp[j])
  }

  /** `SingleHead` when only the nodes below `m` have been linked to their consumer. */
  ghost function HeadSoFar(graph: EngineGraph, m: nat, i: nat): (h: nat)
    requires Graphed(graph) && i < |graph.nodes|
    ensures i <= h < |graph.nodes| && (h < m ==> !UsedOnce(graph, h))
    decreases |graph.nodes| - i
  {
    ConsumersAbove(graph.nodes, i);
    if i < m && UsedOnce(graph, i) then HeadSoFar(graph, m, Consumers(graph.nodes, i)[0]) else i
  }

  lemma {:induction false} LinkNext(graph: EngineGraph, m: nat, i: nat)
    requires Graphed(graph) && m < |graph.nodes| && i < |graph.nodes|
    ensures var h := HeadSoFar(graph, m, i);
      HeadSoFar(graph, m + 1, i) == if h == m && UsedOnce(graph, m) then Consumers(graph.nodes, m)[0] else h
    decreases |graph.nodes| - i
  {
    ConsumersAbove(graph.nodes, i);
    if i < m && UsedOnce(graph, i) { LinkNext(graph, m, Consumers(graph.nodes, i)[0]); }
  }

  lemma {:induction false} AllLinked(graph: EngineGraph, i: nat)
    requires Graphed(graph) && i < |graph.nodes|
    ensures HeadSoFar(graph, |graph.nodes|, i) == SingleHead(graph, i)
    decreases |graph.nodes| - i
  {
    ConsumersAbove(graph.nodes, i);
    if UsedOnce(graph, i) { AllLinked(graph, Consumers(graph.nodes, i)[0]); }
  }

  ghost function HeadsSoFar(graph: EngineGraph, m: nat): (hs: seq<nat>)
    requires Graphed(graph)
    ensures |hs| == |graph.nodes|
  {
    seq(|graph.nodes|, i requires 0 <= i < |graph.nodes| => HeadSoFar(graph, m, i))
  }

  /** Two namings of the same partition. */
  ghost predicate SamePartition(hs: seq<nat>, rs: seq<nat>) {
    |hs| == |rs| && forall x, y :: 0 <= x < |hs| && 0 <= y < |hs| ==> (hs[x] == hs[y] <==> rs[x] == rs[y])
  }

  lemma JoinKeepsPartition(hs: seq<nat>, rs: seq<nat>, m: nat, c: nat, hs': seq<nat>)
    requires SamePartition(hs, rs) && m < |hs| && c < |hs| && hs[m] == m && hs[c] == c
    requires |hs'| == |hs| && forall x :: 0 <= x < |hs| ==> hs'[x] == if hs[x] == m then c else hs[x]
    ensures SamePartition(hs', Joined(rs, rs[m], rs[c]))
  {
    var rs' := Joined(rs, rs[m], rs[c]);
    forall x, y | 0 <= x < |hs| && 0 <= y < |hs| ensures hs'[x] == hs'[y] <==> rs'[x] == rs'[y] {
      assert (hs[x] == hs[m] <==> rs[x] == rs[m]) && (hs[x] == hs[c] <==> rs[x] == rs[c]);
      assert (hs[y] == hs[m] <==> rs[y] == rs[m]) && (hs[y] == hs[c] <==> rs[y] == rs[c]);
    }
  }

  lemma HeadsStep(graph: EngineGraph, m: nat)
    requires Graphed(graph) && m < |graph.nodes|
    ensures forall x :: 0 <= x < |graph.nodes| ==>
      HeadsSoFar(graph, m + 1)[x] ==
      if UsedOnce(graph, m) && HeadsSoFar(graph, m)[x] == m then Consumers(graph.nodes, m)[0] else HeadsSoFar(graph, m)[x]
    ensures !UsedOnce(graph, m) ==> HeadsSoFar(graph, m + 1) == HeadsSoFar(graph, m)
  {
    forall x | 0 <= x < |graph.nodes| { LinkNext(graph, m, x); }
  }

  lemma LinkStep(graph: EngineGraph, m: nat, rs: seq<nat>)
    requires Graphed(graph) && m < |graph.nodes| && UsedOnce(graph, m) && SamePartition(HeadsSoFar(graph, m), rs)
    ensures m < Consumers(graph.nodes, m)[0] < |rs|
    ensures SamePartition(HeadsSoFar(graph, m + 1), Joined(rs, rs[m], rs[Consumers(graph.nodes, m)[0]]))
  {
    ConsumersAbove(graph.nodes, m);
    HeadsStep(graph, m);
    JoinKeepsPartition(HeadsSoFar(graph, m), rs, m, Consumers(graph.nodes, m)[0], HeadsSoFar(graph, m + 1));
  }

  method SingleUseComponents(graph: EngineGraph) returns (comp: seq<nat>)
    requires Graphed(graph)
    ensures Labels(comp, Heads(graph, SingleUse))
  {
    var n := |graph.nodes|;
    var consumers, isOutput := Uses(graph);
    var dsu := new Dsu(n);
    assert HeadsSoFar(graph, 0) == Roots(dsu.parent);
    for i := 0 to n
      invariant dsu.Valid() && |dsu.parent| == n
      invariant SamePartition(HeadsSoFar(graph, i), Roots(dsu.parent))
    {
      ConsumersAbove(graph.nodes, i);
      HeadsStep(graph, i);
      if !graph.nodes[i].boundary {
        if |consumers[i]| == 1 && !isOutput[i] {
          var c := consumers[i][0];
          if !graph.nodes[c].boundary {
            LinkStep(graph, i, Roots(dsu.parent));
            dsu.Union(i, c);
          }
        }
      }
    }
    comp := LabelRoots(graph, dsu);
    RootsAreLabels(graph, dsu.parent, comp);
  }

  /** Ops are labelled by their root, boundaries by themselves. */
  method LabelRoots(graph: EngineGraph, dsu: Dsu) returns (comp: seq<nat>)
    requires dsu.Valid() && |dsu.parent| == |graph.nodes|
    modifies dsu
    ensures dsu.Valid() && |dsu.parent| == |graph.nodes| && Roots(dsu.parent) == Roots(old(dsu.parent))
    ensures |comp| == |graph.nodes|
    ensures forall j :: 0 <= j < |comp| ==> comp[j] == if graph.nodes[j].boundary then j else Roots(dsu.parent)[j]
  {
    comp := [];
    ghost var roots := Roots(dsu.parent);
    for i := 0 to |graph.nodes|
      invariant dsu.Valid() && |dsu.parent| == |graph.nodes| && Roots(dsu.parent) == roots
      invariant |comp| == i
      invariant forall j :: 0 <= j < i ==> comp[j] == if graph.nodes[j].boundary then j else roots[j]
    {
      if graph.nodes[i].boundary {
        comp := comp + [i];
      } else {
        var r := dsu.Find(i);
        comp := comp + [r];
      }
    }
  }

  lemma RootsAreLabels(graph: EngineGraph, parent: seq<nat>, comp: seq<nat>)
    requires Graphed(graph) && Forest(parent) && SamePartition(HeadsSoFar(graph, |graph.nodes|), Roots(parent))
    requires |comp| == |graph.nodes|
    requires forall j :: 0 <= j < |comp| ==> comp[j] == if graph.nodes[j].boundary then j else Roots(parent)[j]
    ensures Labels(comp, Heads(graph, SingleUse))
  {
    var heads := Heads(graph, SingleUse);
    forall i | 0 <= i < |comp| { AllLinked(graph, i); }
    assert HeadsSoFar(graph, |graph.nodes|) == heads;
    forall i | 0 <= i < |comp| ensures comp[i] < |comp| && heads[comp[i]] == heads[i] {
      RootIsRoot(parent, i);
      assert Roots(parent)[Root(parent, i)] == Roots(parent)[i];
    }
    forall i, j | 0 <= i < |comp| && 0 <= j < |comp| && heads[i] == heads[j] ensures comp[i] == comp[j] {
      BoundaryIsAlone(graph, i, j);
      assert Roots(parent)[i] == Roots(parent)[j];
    }
  }

  lemma BoundaryIsAlone(graph: EngineGraph, i: nat, j: nat)
    requires Graphed(graph) && i < |graph.nodes| && j < |graph.nodes| && SingleHead(graph, i) == SingleHead(graph, j)
    ensures graph.nodes[i].boundary || graph.nodes[j].boundary ==> i == j
  {
    SingleHeadFacts(graph, i);
    SingleHeadFacts(graph, j);
  }

  /** A node's head, told from its consumers' heads. */
  lemma MaximalHeadNext(graph: EngineGraph, i: nat, comp: seq<nat>)
    requires Graphed(graph) && i < |graph.nodes| == |comp|
    requires forall j :: i < j < |comp| ==> comp[j] == MaximalHead(graph, j)
    ensures var cs := Consumers(graph.nodes, i);
      && (forall k :: 0 <= k < |cs| ==> i < cs[k] < |comp|)
      && MaximalHead(graph, i) ==
         if !graph.nodes[i].boundary && i !in graph.outputs && cs != []
            && (forall k :: 0 <= k < |cs| ==> !graph.nodes[cs[k]].boundary)
            && (forall k :: 0 <= k < |cs| ==> comp[cs[k]] == comp[cs[0]])
         then comp[cs[0]] else i
  {
    hide Consumers;
    ConsumersAbove(graph.nodes, i);
    var cs := Consumers(graph.nodes, i);
    assert forall k :: 0 <= k < |cs| ==> comp[cs[k]] == MaximalHead(graph, cs[k]);
  }

  lemma MaximalLabels(graph: EngineGraph, comp: seq<nat>)
    requires Graphed(graph) && |comp| == |graph.nodes|
    requires forall j :: 0 <= j < |comp| ==> comp[j] == MaximalHead(graph, j)
    ensures Labels(comp, Heads(graph, Maximal))
  {
    forall i | 0 <= i < |comp| ensures MaximalHead(graph, MaximalHead(graph, i)) == MaximalHead(graph, i) {
      MaximalHeadFacts(graph, i);
    }
    hide MaximalHead;
  }

  method MaximalComponents(graph: EngineGraph) returns (comp: seq<nat>)
    requires Graphed(graph)
    ensures Labels(comp, Heads(graph, Maximal))
  {
    hide MaximalHead, Consumers, Labels, Heads;
    var n := |graph.nodes|;
    var consumers, isOutput := Uses(graph);
    comp := seq(n, i requires 0 <= i => i);
    for i := n downto 0
      invariant |comp| == n
      invariant forall j :: 0 <= j < i ==> comp[j] == j
      invariant forall j :: i <= j < n ==> comp[j] == MaximalHead(graph, j)
    {
      MaximalHeadNext(graph, i, comp);
      var cs := consumers[i];
      if !graph.nodes[i].boundary && !isOutput[i] && cs != [] {
        if forall k :: 0 <= k < |cs| ==> !graph.nodes[cs[k]].boundary {
          var c0 := comp[cs[0]];
          if forall k :: 0 <= k < |cs| ==> comp[cs[k]] == c0 {
            comp := comp[i := c0];
          }
        }
      }
    }
    MaximalLabels(graph, comp);
  }

  // ---- which nodes fuse -------------------------------------------------------------------------

  /** Node `x` is read once in all, by node `c`. */
  ghost predicate ReadOnceBy(g: seq<EngineNode>, x: nat, c: nat) {
    c < |g| && multiset(g[c].inputs)[x] == 1 && forall d :: 0 <= d < |g| && d != c ==> x !in g[d].inputs
  }

  lemma {:induction false} ReadersCount(inputs: seq<nat>, reader: nat, x: nat)
    ensures |Readers(inputs, reader, x)| == multiset(inputs)[x]
    ensures forall k :: 0 <= k < |Readers(inputs, reader, x)| ==> Readers(inputs, reader, x)[k] == reader
  {
    if inputs != [] {
      var m := |inputs| - 1;
      ReadersCount(inputs[..m], reader, x);
      assert inputs == inputs[..m] + [inputs[m]];
    }
  }

  lemma {:induction false} NotConsumed(g: seq<EngineNode>, x: nat)
    ensures Consumers(g, x) == [] <==> forall d :: 0 <= d < |g| ==> x !in g[d].inputs
  {
    hide Consumers;
    ConsumersAre(g, x);
    var cs := Consumers(g, x);
    if cs != [] { assert cs[0] in cs; }
  }

  lemma {:induction false} OneConsumer(g: seq<EngineNode>, x: nat)
    requires |Consumers(g, x)| == 1
    ensures ReadOnceBy(g, x, Consumers(g, x)[0])
  {
    var m := |g| - 1;
    ReadersCount(g[m].inputs, m, x);
    NotConsumed(g[..m], x);
    if Consumers(g[..m], x) == [] {
      forall d | 0 <= d < m ensures x !in g[d].inputs { assert x !in g[..m][d].inputs; }
    } else {
      OneConsumer(g[..m], x);
      var c := Consumers(g, x)[0];
      assert c == Consumers(g[..m], x)[0];
      forall d | 0 <= d < |g| && d != c ensures x !in g[d].inputs {
        if d < m { assert x !in g[..m][d].inputs; }
      }
    }
  }

  lemma {:induction false} ConsumedOnce(g: seq<EngineNode>, x: nat, c: nat)
    requires ReadOnceBy(g, x, c)
    ensures Consumers(g, x) == [c]
  {
    var m := |g| - 1;
    ReadersCount(g[m].inputs, m, x);
    if c == m {
      NotConsumed(g[..m], x);
      assert Consumers(g[..m], x) == [];
    } else {
      forall d | 0 <= d < m && d != c ensures x !in g[..m][d].inputs { }
      ConsumedOnce(g[..m], x, c);
    }
  }

  /** With single-use fusion a node joins another's component exactly when it is an op, no output, read once in all,
      and by an op; then it joins its reader's. */
  lemma {:induction false} SingleUseFuses(graph: EngineGraph, i: nat)
    requires Graphed(graph) && i < |graph.nodes|
    ensures var heads := Heads(graph, SingleUse); var g := graph.nodes;
      && (heads[i] != i <==>
            (!g[i].boundary && i !in graph.outputs && exists c: nat :: ReadOnceBy(g, i, c) && !g[c].boundary))
      && (heads[i] != i ==> forall c: nat :: ReadOnceBy(g, i, c) ==> heads[i] == heads[c])
  {
    hide Consumers, ReadOnceBy;
    var g := graph.nodes;
    ConsumersAbove(g, i);
    forall c: nat | ReadOnceBy(g, i, c) ensures c < |g| && Consumers(g, i) == [c] {
      ConsumedOnce(g, i, c);
      ReaderExists(g, i, c);
    }
    if |Consumers(g, i)| == 1 { OneConsumer(g, i); }
  }

  lemma ReaderExists(g: seq<EngineNode>, x: nat, c: nat)
    requires ReadOnceBy(g, x, c)
    ensures c < |g|
  {
  }

  /** With maximal fusion a node joins another's component exactly when it is an op, no output, and read, only by ops
      and only by ops of one component; then it joins theirs. */
  lemma {:induction false} MaximalFuses(graph: EngineGraph, i: nat)
    requires Graphed(graph) && i < |graph.nodes|
    ensures var heads := Heads(graph, Maximal); var g := graph.nodes;
      && (heads[i] != i <==>
            (&& !g[i].boundary && i !in graph.outputs
             && (exists c :: 0 <= c < |g| && i in g[c].inputs)
             && (forall c :: 0 <= c < |g| && i in g[c].inputs ==> !g[c].boundary)
             && (forall c, d :: 0 <= c < |g| && 0 <= d < |g| && i in g[c].inputs && i in g[d].inputs ==> heads[c] == heads[d])))
      && (heads[i] != i ==> forall c :: 0 <= c < |g| && i in g[c].inputs ==> heads[i] == heads[c])
  {
    hide Consumers, MaximalHead;
    var g := graph.nodes;
    var cs := Consumers(g, i);
    MaximalHeadNext(graph, i, Heads(graph, Maximal));
    ConsumersAre(g, i);
    forall c | 0 <= c < |g| && i in g[c].inputs ensures c in cs && cs[IndexOf(cs, c)] == c { }
    forall k | 0 <= k < |cs| ensures i in g[cs[k]].inputs { assert cs[k] in cs; }
  }
}
