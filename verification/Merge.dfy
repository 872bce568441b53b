/** Class extraction and hash-consing (src/optimizer). */
module Merge {
  import opened Collections
  import opened Graph

  /** Merged nodes, where each original node went, and the original each merged node was copied from. */
  datatype Merged = Merged(nodes: seq<EngineNode>, remap: seq<nat>, reps: seq<nat>)

  /** Every node goes to the copy of one that is no later, and copies read what their originals read. */
  ghost predicate Merges(g: seq<EngineNode>, c: Merged) {
    && |c.remap| == |g| && |c.reps| == |c.nodes|
    && Below(c.remap, |c.nodes|) && Below(c.reps, |g|)
    && Topological(c.nodes)
    && (forall i :: 0 <= i < |g| ==> c.reps[c.remap[i]] <= i)
    && (forall k :: 0 <= k < |c.nodes| ==> CopiedFrom(g, c, k))
  }

  ghost predicate CopiedFrom(g: seq<EngineNode>, c: Merged, k: nat)
    requires |c.remap| == |g| && |c.reps| == |c.nodes| && Below(c.reps, |g|) && k < |c.nodes|
  {
    var original := g[c.reps[k]];
    && Below(original.inputs, |g|)
    && c.remap[c.reps[k]] == k
    && c.nodes[k].token == original.token
    && c.nodes[k].boundary == BoundaryFromToken(original.token)
    && c.nodes[k].inputs == Gather(c.remap, original.inputs)
  }

  /** Nodes are merged onto nodes of their value. */
  ghost predicate KeepsValues<V>(c: Merged, vs: seq<V>)
    requires |c.reps| == |c.nodes| && Below(c.remap, |c.nodes|) && Below(c.reps, |c.remap|) && |c.remap| <= |vs|
  {
    forall i :: 0 <= i < |c.remap| ==> vs[i] == vs[c.reps[c.remap[i]]]
  }

  /** Merging nodes of equal value keeps every value. */
  lemma {:induction false} MergeFold<V>(f: (string, seq<V>) -> V, g: seq<EngineNode>, c: Merged, vs: seq<V>)
    requires Topological(g) && Merges(g, c) && IsFold(f, g, vs) && KeepsValues(c, vs)
    ensures Fold(f, c.nodes) == Gather(vs, c.reps)
    ensures Gather(Fold(f, c.nodes), c.remap) == vs
  {
    var us := Gather(vs, c.reps);
    forall k | 0 <= k < |c.nodes| ensures us[k] == f(c.nodes[k].token, Gather(us, c.nodes[k].inputs)) {
      assert CopiedFrom(g, c, k);
      var ins := g[c.reps[k]].inputs;
      assert Gather(us, Gather(c.remap, ins)) == Gather(vs, ins);
    }
    FoldUnique(f, c.nodes, us);
  }

  /** `c` with one more node, sent to an existing copy. */
  function Onto(c: Merged, k: nat): Merged {
    c.(remap := c.remap + [k])
  }

  /** `c` with one more node, copied from the original `i`. */
  function Copying(c: Merged, node: EngineNode, i: nat): Merged {
    Merged(c.nodes + [node], c.remap + [|c.nodes|], c.reps + [i])
  }

  lemma OntoMerges(g: seq<EngineNode>, c: Merged, i: nat, k: nat)
    requires Topological(g) && i < |g| && Merges(g[..i], c) && k < |c.nodes|
    ensures Merges(g[..i + 1], Onto(c, k))
  {
    var d := Onto(c, k);
    var h := g[..i + 1];
    forall j | 0 <= j < |d.nodes| ensures CopiedFrom(h, d, j) {
      assert CopiedFrom(g[..i], c, j);
      CopiesStay(g, c, d, i, j);
    }
  }

  lemma CopyingMerges(g: seq<EngineNode>, c: Merged, i: nat)
    requires Topological(g) && i < |g| && Merges(g[..i], c)
    ensures Below(g[i].inputs, |c.remap|)
    ensures Merges(g[..i + 1], Copying(c, EngineNode(g[i].token, BoundaryFromToken(g[i].token), Gather(c.remap, g[i].inputs)), i))
  {
    assert Below(g[i].inputs, i);
    var ins := Gather(c.remap, g[i].inputs);
    var d := Copying(c, EngineNode(g[i].token, BoundaryFromToken(g[i].token), ins), i);
    assert Below(ins, |c.nodes|);
    var h := g[..i + 1];
    forall j | 0 <= j < |d.nodes| ensures CopiedFrom(h, d, j) {
      if j < |c.nodes| {
        assert CopiedFrom(g[..i], c, j);
        CopiesStay(g, c, d, i, j);
      } else {
        assert Gather(d.remap, g[i].inputs) == ins;
      }
    }
    forall j | 0 <= j < |h| ensures d.reps[d.remap[j]] <= j {
      if j < i { assert d.reps[d.remap[j]] == c.reps[c.remap[j]]; }
    }
  }

  lemma CopiesStay(g: seq<EngineNode>, c: Merged, d: Merged, m: nat, k: nat)
    requires m < |g| && |c.remap| == m && |c.reps| == |c.nodes| && k < |c.nodes|
    requires Below(c.reps, m) && CopiedFrom(g[..m], c, k)
    requires |d.remap| == m + 1 && d.remap[..m] == c.remap && |d.reps| == |d.nodes| && Below(d.reps, m + 1)
    requires c.nodes <= d.nodes && c.reps <= d.reps
    ensures CopiedFrom(g[..m + 1], d, k)
  {
    assert d.reps[k] == c.reps[k] && d.nodes[k] == c.nodes[k];
    var original := g[..m][c.reps[k]];
    assert g[..m + 1][d.reps[k]] == original;
    assert Gather(d.remap, original.inputs) == Gather(c.remap, original.inputs);
  }

  // ---- class extraction -------------------------------------------------------------------------

  /** The quotient of the first `m` nodes by the classes `canon`, the earliest node of each class kept. */
  function Extracted(g: seq<EngineNode>, canon: seq<nat>, m: nat): (c: Merged)
    requires Topological(g) && |canon| == |g| && m <= |g|
    ensures |c.remap| == m && Below(c.remap, |c.nodes|) && |c.reps| == |c.nodes|
  {
    if m == 0 then Merged([], [], [])
    else
      var i := m - 1;
      var c := Extracted(g, canon, i);
      if canon[i] in canon[..i] then
        Onto(c, c.remap[IndexOf(canon[..i], canon[i])])
      else
        assert Below(g[i].inputs, i);
        Copying(c, EngineNode(g[i].token, BoundaryFromToken(g[i].token), Gather(c.remap, g[i].inputs)), i)
  }

  /** Two nodes are merged exactly when their classes are equal, onto the class's earliest node. */
  lemma {:induction false} ExtractedMerges(g: seq<EngineNode>, canon: seq<nat>, m: nat)
    requires Topological(g) && |canon| == |g| && m <= |g|
    ensures Merges(g[..m], Extracted(g, canon, m))
    ensures ByClass(canon, Extracted(g, canon, m), m)
  {
    if m > 0 {
      var i := m - 1;
      ExtractedMerges(g, canon, i);
      var c := Extracted(g, canon, i);
      hide Merges;
      if canon[i] in canon[..i] {
        var j := IndexOf(canon[..i], canon[i]);
        OntoMerges(g, c, i, c.remap[j]);
        OntoByClass(canon, c, i, j);
      } else {
        assert Below(g[i].inputs, i);
        CopyingMerges(g, c, i);
        CopyingByClass(canon, c, i, EngineNode(g[i].token, BoundaryFromToken(g[i].token), Gather(c.remap, g[i].inputs)));
      }
    }
  }

  lemma OntoByClass(canon: seq<nat>, c: Merged, i: nat, j: nat)
    requires j < i < |canon| && |c.remap| == i && |c.reps| == |c.nodes| && Below(c.remap, |c.nodes|) && Below(c.reps, i)
    requires ByClass(canon, c, i) && canon[j] == canon[i]
    ensures ByClass(canon, Onto(c, c.remap[j]), i + 1)
  {
  }

  lemma CopyingByClass(canon: seq<nat>, c: Merged, i: nat, node: EngineNode)
    requires i < |canon| && |c.remap| == i && |c.reps| == |c.nodes| && Below(c.remap, |c.nodes|) && Below(c.reps, i)
    requires ByClass(canon, c, i) && canon[i] !in canon[..i]
    ensures ByClass(canon, Copying(c, node, i), i + 1)
  {
    assert forall j :: 0 <= j < i ==> canon[j] in canon[..i];
  }

  ghost predicate ByClass(canon: seq<nat>, c: Merged, m: nat)
    requires m <= |canon| && |c.remap| == m && |c.reps| == |c.nodes| && Below(c.remap, |c.nodes|) && Below(c.reps, m)
  {
    && (forall i :: 0 <= i < m ==> canon[c.reps[c.remap[i]]] == canon[i])
    && (forall i, j :: 0 <= i < m && 0 <= j < m && canon[i] == canon[j] ==> c.remap[i] == c.remap[j])
  }

  /** `rep_of_class`: the earliest node of each class. */
  method Representatives(canon: seq<nat>) returns (rep: map<nat, nat>)
    ensures forall c :: c in rep <==> c in canon
    ensures forall c :: c in rep ==> rep[c] == IndexOf(canon, c)
  {
    rep := map[];
    for i := 0 to |canon|
      invariant forall c :: c in rep <==> c in canon[..i]
      invariant forall c :: c in rep ==> rep[c] == IndexOf(canon[..i], c)
    {
      FirstOrSeen(canon, i);
      if canon[i] !in rep {
        rep := rep[canon[i] := i];
      }
    }
    assert canon[..|canon|] == canon;
  }

  lemma FirstOrSeen(canon: seq<nat>, i: nat)
    requires i < |canon|
    ensures forall c :: c in canon[..i + 1] <==> c in canon[..i] || c == canon[i]
    ensures forall c :: c in canon[..i] ==> IndexOf(canon[..i + 1], c) == IndexOf(canon[..i], c)
    ensures canon[i] !in canon[..i] ==> IndexOf(canon[..i + 1], canon[i]) == i
  {
    var more := canon[..i + 1];
    assert more == canon[..i] + [canon[i]] && more[..i] == canon[..i];
    forall c | c in canon[..i] ensures IndexOf(more, c) == IndexOf(canon[..i], c) {
      IndexOfPrefix(more, i, c);
    }
  }

  /** The classes met so far, each sent where its first node went. */
  ghost predicate ClassesSent(canon: seq<nat>, remap: seq<nat>, classToNew: map<nat, nat>)
    requires |remap| <= |canon|
  {
    forall j :: 0 <= j < |remap| ==> canon[j] in classToNew && classToNew[canon[j]] == remap[j]
  }

  function SentTo(canon: seq<nat>, xs: seq<nat>, classToNew: map<nat, nat>, ghost remap: seq<nat>): (r: seq<nat>)
    requires |remap| <= |canon| && ClassesSent(canon, remap, classToNew) && Below(xs, |remap|)
    ensures r == Gather(remap, xs)
  {
    seq(|xs|, k requires 0 <= k < |xs| => classToNew[canon[xs[k]]])
  }

  /** `canonicalize` after saturation has given each node its class: the quotient graph, and where
      every input node went. */
  method ExtractClasses(graph: EngineGraph, canon: seq<nat>) returns (out: EngineGraph, nodeMap: seq<nat>)
    requires Topological(graph.nodes) && Below(graph.outputs, |graph.nodes|) && |canon| == |graph.nodes|
    ensures var c := Extracted(graph.nodes, canon, |graph.nodes|);
      out.nodes == c.nodes && nodeMap == c.remap && out.outputs == Gather(c.remap, graph.outputs)
  {
    hide IndexOf, BoundaryFromToken;
    var g := graph.nodes;
    var repOfClass := Representatives(canon);
    var classToNew: map<nat, nat> := map[];
    var nodes: seq<EngineNode> := [];
    ghost var remap: seq<nat> := [];
    for i := 0 to |g|
      invariant nodes == Extracted(g, canon, i).nodes && remap == Extracted(g, canon, i).remap
      invariant ClassesSent(canon, remap, classToNew)
    {
      assert Below(g[i].inputs, i);
      RepresentativeIsFirst(canon, i);
      FirstIsSent(canon, remap, classToNew, i, |nodes|);
      if repOfClass[canon[i]] == i {
        var inputs := SentTo(canon, g[i].inputs, classToNew, remap);
        classToNew := classToNew[canon[i] := |nodes|];
        remap := remap + [|nodes|];
        nodes := nodes + [EngineNode(g[i].token, BoundaryFromToken(g[i].token), inputs)];
      } else {
        remap := remap + [remap[IndexOf(canon[..i], canon[i])]];
      }
    }
    nodeMap := seq(|g|, i requires 0 <= i < |g| => classToNew[canon[i]]);
    out := EngineGraph(nodes, SentTo(canon, graph.outputs, classToNew, remap));
  }

  /** What one more node does to the sent classes, whichever branch it takes. */
  lemma FirstIsSent(canon: seq<nat>, remap: seq<nat>, classToNew: map<nat, nat>, i: nat, k: nat)
    requires i < |canon| && |remap| == i && ClassesSent(canon, remap, classToNew)
    ensures canon[i] !in canon[..i] ==> ClassesSent(canon, remap + [k], classToNew[canon[i] := k])
    ensures canon[i] in canon[..i] ==> ClassesSent(canon, remap + [remap[IndexOf(canon[..i], canon[i])]], classToNew)
  {
    assert forall j :: 0 <= j < i ==> canon[j] in canon[..i];
  }

  lemma RepresentativeIsFirst(canon: seq<nat>, i: nat)
    requires i < |canon|
    ensures canon[i] in canon
    ensures IndexOf(canon, canon[i]) == i <==> canon[i] !in canon[..i]
    ensures forall j :: 0 <= j < i && canon[j] == canon[i] ==> canon[i] in canon[..i]
  {
    if canon[i] in canon[..i] {
      IndexOfPrefix(canon, i, canon[i]);
    } else {
      assert canon[..i + 1][..i] == canon[..i];
      IndexOfPrefix(canon, i + 1, canon[i]);
    }
  }

  // ---- common-subexpression elimination ---------------------------------------------------------

  type Shape = (string, seq<nat>)

  function ShapeOf(n: EngineNode): Shape { (n.token, n.inputs) }

  function Shapes(nodes: seq<EngineNode>): (r: seq<Shape>)
    ensures |r| == |nodes|
    ensures forall k :: 0 <= k < |r| ==> r[k] == ShapeOf(nodes[k])
  {
    Map(ShapeOf, nodes)
  }

  /** The first `m` nodes hash-consed by (token, merged inputs). */
  function Deduped(g: seq<EngineNode>, m: nat): (c: Merged)
    requires Topological(g) && m <= |g|
    ensures |c.remap| == m && Below(c.remap, |c.nodes|) && |c.reps| == |c.nodes|
  {
    if m == 0 then Merged([], [], [])
    else
      var i := m - 1;
      var c := Deduped(g, i);
      assert Below(g[i].inputs, i);
      var inputs := Gather(c.remap, g[i].inputs);
      var shape := (g[i].token, inputs);
      if shape in Shapes(c.nodes) then
        Onto(c, IndexOf(Shapes(c.nodes), shape))
      else
        Copying(c, EngineNode(g[i].token, g[i].boundary, inputs), i)
  }

  /** No two deduped nodes have one shape. */
  lemma {:induction false} DedupedMerges(g: seq<EngineNode>, m: nat)
    requires Topological(g) && TokensMarkBoundaries(g) && m <= |g|
    ensures Merges(g[..m], Deduped(g, m)) && Distinct(Shapes(Deduped(g, m).nodes))
  {
    if m > 0 {
      var i := m - 1;
      DedupedMerges(g, i);
      var c := Deduped(g, i);
      assert Below(g[i].inputs, i);
      var node := EngineNode(g[i].token, g[i].boundary, Gather(c.remap, g[i].inputs));
      if ShapeOf(node) in Shapes(c.nodes) {
        OntoMerges(g, c, i, IndexOf(Shapes(c.nodes), ShapeOf(node)));
      } else {
        CopyingMerges(g, c, i);
        assert Shapes(c.nodes + [node]) == Shapes(c.nodes) + [ShapeOf(node)];
        DistinctMore(Shapes(c.nodes), ShapeOf(node));
      }
    }
  }

  /** Whatever the interpretation, merged nodes are worth the same. */
  lemma {:induction false} DedupedSameValue<V>(f: (string, seq<V>) -> V, g: seq<EngineNode>, vs: seq<V>, m: nat)
    requires Topological(g) && TokensMarkBoundaries(g) && IsFold(f, g, vs) && m <= |g|
    ensures Merges(g[..m], Deduped(g, m)) && KeepsValues(Deduped(g, m), vs)
  {
    DedupedMerges(g, m);
    if m > 0 {
      var i := m - 1;
      DedupedSameValue(f, g, vs, i);
      var c := Deduped(g, i);
      assert Below(g[i].inputs, i);
      var shape := (g[i].token, Gather(c.remap, g[i].inputs));
      if shape in Shapes(c.nodes) {
        var k := IndexOf(Shapes(c.nodes), shape);
        SameShapeSameValue(f, g, vs, i, c, k);
        OntoKeeps(g, c, vs, i, k);
      } else {
        CopyingKeeps(g, c, vs, i, EngineNode(g[i].token, g[i].boundary, Gather(c.remap, g[i].inputs)));
      }
    }
  }

  lemma OntoKeeps<V>(g: seq<EngineNode>, c: Merged, vs: seq<V>, i: nat, k: nat)
    requires i < |g| == |vs| && Merges(g[..i], c) && KeepsValues(c, vs) && k < |c.nodes| && vs[i] == vs[c.reps[k]]
    ensures KeepsValues(Onto(c, k), vs)
  {
  }

  lemma CopyingKeeps<V>(g: seq<EngineNode>, c: Merged, vs: seq<V>, i: nat, node: EngineNode)
    requires i < |g| == |vs| && Merges(g[..i], c) && KeepsValues(c, vs)
    ensures KeepsValues(Copying(c, node, i), vs)
  {
  }

  lemma {:induction false} SameShapeSameValue<V>(f: (string, seq<V>) -> V, g: seq<EngineNode>, vs: seq<V>, i: nat, c: Merged, k: nat)
    requires Topological(g) && IsFold(f, g, vs) && i < |g| && Below(g[i].inputs, i)
    requires Merges(g[..i], c) && KeepsValues(c, vs) && k < |c.nodes|
    requires ShapeOf(c.nodes[k]) == (g[i].token, Gather(c.remap, g[i].inputs))
    ensures vs[i] == vs[c.reps[k]]
  {
    var r := c.reps[k];
    assert CopiedFrom(g[..i], c, k) && g[..i][r] == g[r];
    assert Below(g[r].inputs, r);
    var a, b := g[i].inputs, g[r].inputs;
    assert |a| == |b|;
    forall j | 0 <= j < |a| ensures vs[a[j]] == vs[b[j]] {
      assert Gather(c.remap, a)[j] == Gather(c.remap, b)[j];
    }
    assert Gather(vs, a) == Gather(vs, b);
  }

  /** `cse`: hash-cons identical (token, inputs) nodes. */
  method Cse(graph: EngineGraph) returns (out: EngineGraph, remap: seq<nat>)
    requires Topological(graph.nodes) && Below(graph.outputs, |graph.nodes|)
    ensures var c := Deduped(graph.nodes, |graph.nodes|);
      out.nodes == c.nodes && remap == c.remap && out.outputs == Gather(c.remap, graph.outputs)
  {
    var g := graph.nodes;
    remap := [];
    var seen: map<Shape, nat> := map[];
    var nodes: seq<EngineNode> := [];
    for i := 0 to |g|
      invariant nodes == Deduped(g, i).nodes && remap == Deduped(g, i).remap
      invariant Consed(seen, Shapes(nodes))
    {
      assert Below(g[i].inputs, i);
      var inputs := Gather(remap, g[i].inputs);
      var key := (g[i].token, inputs);
      if key !in seen {
        var node := EngineNode(g[i].token, g[i].boundary, inputs);
        ShapesGrow(nodes, node, seen);
        seen := seen[key := |nodes|];
        nodes := nodes + [node];
      }
      remap := remap + [seen[key]];
    }
    out := EngineGraph(nodes, Gather(remap, graph.outputs));
  }

  /** The hash-cons table of a list of shapes. */
  ghost predicate Consed(seen: map<Shape, nat>, shapes: seq<Shape>) {
    && (forall s :: s in seen <==> s in shapes)
    && (forall s :: s in seen ==> seen[s] == IndexOf(shapes, s))
  }

  lemma ShapesGrow(nodes: seq<EngineNode>, node: EngineNode, seen: map<Shape, nat>)
    requires Consed(seen, Shapes(nodes)) && ShapeOf(node) !in seen
    ensures Consed(seen[ShapeOf(node) := |nodes|], Shapes(nodes + [node]))
  {
    var before, more := Shapes(nodes), Shapes(nodes + [node]);
    assert more == before + [ShapeOf(node)];
    assert more[..|nodes|] == before;
    forall s | s in before ensures IndexOf(more, s) == IndexOf(before, s) {
      IndexOfPrefix(more, |nodes|, s);
    }
  }
}
