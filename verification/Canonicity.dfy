/** What canonical ids decide (src/optimizer/incremental.rs). */
module Canonicity {
  import opened Collections
  import opened Nodes
  import opened Graph
  import opened Dce
  import opened Congruence
  import opened Independence
  import opened Incremental

  /** Wherever the rules hold, every recorded node is worth what its canonical node is worth. */
  lemma {:induction false} CanonKeepsValues<V(!new)>(f: (string, seq<V>) -> V, hash: Hash, nodes: seq<NodeKey>, c: Canon)
    requires Arena(nodes) && Tracks(hash, nodes, c, |nodes|) && Arena(c.nodes) && Commuting(f) && Eliding(f)
    ensures Gather(Fold(f, ToEngine(c.nodes)), c.map_) == Fold(f, ToEngine(nodes))
  {
    hide NodeKey.Token, Fold, Keys, Distinct, Commuting, Eliding, CanonicalNode, WentTo;
    var us := Fold(f, ToEngine(c.nodes));
    FoldIsFold(f, ToEngine(c.nodes));
    var vs := Gather(us, c.map_);
    var g := ToEngine(nodes);
    forall i | 0 <= i < |g| ensures vs[i] == f(g[i].token, Gather(vs, g[i].inputs)) {
      CanonNodeValue(f, hash, nodes, c, us, i);
    }
    FoldUnique(f, g, vs);
  }

  lemma {:induction false} CanonNodeValue<V(!new)>(f: (string, seq<V>) -> V, hash: Hash, nodes: seq<NodeKey>, c: Canon,
                                                   us: seq<V>, i: nat)
    requires Arena(nodes) && Tracks(hash, nodes, c, |nodes|) && Arena(c.nodes) && Commuting(f) && Eliding(f)
    requires IsFold(f, ToEngine(c.nodes), us) && i < |nodes|
    ensures Below(nodes[i].Inputs(), i)
    ensures us[c.map_[i]] == f(nodes[i].Token(), Gather(Gather(us, c.map_), nodes[i].Inputs()))
  {
    hide NodeKey.Token, Fold, Keys, Distinct, Commuting, CanonicalNode, SwapsOf;
    var swap := Some(SwapsOf(hash, nodes));
    var w := Wires(nodes, swap);
    var vs := Gather(us, c.map_);
    assert Below(nodes[i].Inputs(), i);
    assert WentTo(nodes, w, c, i);
    if IsIdentityNode(nodes[i]) {
      assert Gather(vs, nodes[i].Inputs()) == [vs[nodes[i].inputs[0]]];
    } else {
      var key := c.nodes[c.map_[i]];
      assert ToEngine(c.nodes)[c.map_[i]] == ToEngineNode(key);
      SameOperatorSameToken(nodes[i], Gather(c.map_, w[i]));
      GatherGather(us, c.map_, w[i]);
      assert Gather(us, key.Inputs()) == Gather(vs, w[i]);
      SwapsOfCommute(hash, nodes);
      OperandsFold(f, nodes[i].Token(), vs, nodes[i].Inputs(), swap.value[i]);
    }
  }

  /** Canonical ids only ever join congruent nodes, whatever the hash. */
  lemma {:induction false} CanonicalIdsAreSound(hash: Hash, nodes: seq<NodeKey>, i: nat, j: nat)
    requires Arena(nodes) && i < |nodes| && j < |nodes|
    requires Canonicalized(hash, nodes, |nodes|).map_[i] == Canonicalized(hash, nodes, |nodes|).map_[j]
    ensures Congruent(Denotes(nodes)[i], Denotes(nodes)[j])
  {
    hide NodeKey.Token, Fold, Canonicalized, Tracks, Congruent;
    NormsTracked(hash, nodes);
    CongruentNodes(ToEngine(nodes), i, j);
  }

  lemma {:induction false} NormsTracked(hash: Hash, nodes: seq<NodeKey>)
    requires Arena(nodes)
    ensures var c := Canonicalized(hash, nodes, |nodes|);
      && Arena(c.nodes) && Tracks(hash, nodes, c, |nodes|)
      && Gather(Norms(ToEngine(c.nodes)), c.map_) == Norms(ToEngine(nodes))
  {
    hide NodeKey.Token, Fold, Canonicalized, Tracks, Commuting, Eliding;
    var c := Canonicalized(hash, nodes, |nodes|);
    CanonTracks(hash, nodes, |nodes|);
    CanonIsArena(hash, nodes, |nodes|);
    NormRules();
    CanonKeepsValues(NormOp(), hash, nodes, c);
  }

  // ---- without key collisions, they join all of them --------------------------------------------

  lemma NormAt(nodes: seq<NodeKey>, j: nat)
    requires Arena(nodes) && j < |nodes|
    ensures Below(nodes[j].Inputs(), |nodes|)
    ensures Norms(ToEngine(nodes))[j] == NormStep(nodes[j].Token(), Gather(Norms(ToEngine(nodes)), nodes[j].Inputs()))
  {
    hide NodeKey.Token, Fold;
    FoldIsFold(NormOp(), ToEngine(nodes));
    assert ToEngine(nodes)[j] == ToEngineNode(nodes[j]);
    assert Below(nodes[j].Inputs(), j);
  }

  /** The normal form of a node no rule elides. */
  ghost function KeptNorm(token: string, args: seq<Norm>): Norm {
    if |args| == 2 && Commutes(token) then Pair(token, multiset{args[0], args[1]}) else Plain(token, args)
  }

  lemma ArgsMatch(t: string, p: seq<Norm>, u: string, q: seq<Norm>)
    requires KeptNorm(t, p) == KeptNorm(u, q)
    ensures t == u && |p| == |q| && (p == q || (|p| == 2 && Commutes(t) && p[0] == q[1] && p[1] == q[0]))
  {
    hide Commutes;
    if |p| == 2 && Commutes(t) { PairsMatch(p[0], p[1], q[0], q[1]); }
  }

  /** A canonical node's normal form is its own operator's. */
  lemma CanonNorm(hash: Hash, c: Canon, j: nat)
    requires CanonicalArena(hash, c) && Arena(c.nodes) && j < |c.nodes|
    ensures var key := c.nodes[j]; var args := Gather(Norms(ToEngine(c.nodes)), key.Inputs());
      && Norms(ToEngine(c.nodes))[j] == KeptNorm(key.Token(), args)
      && (|args| == 2 && Commutes(key.Token()) ==> c.keys[key.Inputs()[0]] <= c.keys[key.Inputs()[1]])
  {
    hide NodeKey.Token, Fold, Distinct, StructuralKey;
    NormAt(c.nodes, j);
    assert CanonicalNode(hash, c, j);
    IdentityIsOp(c.nodes[j]);
    SymmetricIsCommuting(c.nodes[j]);
  }

  lemma {:induction false} SameInputsSameNode(c: Canon, a: nat, b: nat)
    requires Distinct(c.nodes) && a < |c.nodes| && b < |c.nodes|
    requires c.nodes[a].Token() == c.nodes[b].Token() && c.nodes[a].Inputs() == c.nodes[b].Inputs()
    ensures a == b
  {
    hide NodeKey.Token, Distinct;
    KeyIsTokenAndInputs(c.nodes[a], c.nodes[b]);
    if a < b { DistinctPair(c.nodes, a, b); } else if b < a { DistinctPair(c.nodes, b, a); }
  }

  lemma SameKeySameId(c: Canon, x: nat, y: nat)
    requires Distinct(c.keys) && x < |c.keys| && y < |c.keys| && c.keys[x] == c.keys[y]
    ensures x == y
  {
    hide Distinct;
    if x < y { DistinctPair(c.keys, x, y); } else if y < x { DistinctPair(c.keys, y, x); }
  }

  /** Canonical nodes with one normal form have one operator, and inputs of the same normal forms up to a swap
      of a commuting node's operands. */
  lemma CanonNormsMatch(hash: Hash, c: Canon, a: nat, b: nat)
    requires CanonicalArena(hash, c) && Arena(c.nodes) && a < |c.nodes| && b < |c.nodes|
    requires Norms(ToEngine(c.nodes))[a] == Norms(ToEngine(c.nodes))[b]
    ensures c.nodes[a].Token() == c.nodes[b].Token()
    ensures var ns := Norms(ToEngine(c.nodes)); var xs, ys := c.nodes[a].Inputs(), c.nodes[b].Inputs();
      && |xs| == |ys| && Below(xs, a) && Below(ys, b)
      && ((forall k :: 0 <= k < |xs| ==> ns[xs[k]] == ns[ys[k]])
          || (|xs| == 2 && ns[xs[0]] == ns[ys[1]] && ns[xs[1]] == ns[ys[0]]
              && c.keys[xs[0]] <= c.keys[xs[1]] && c.keys[ys[0]] <= c.keys[ys[1]]))
  {
    hide NodeKey.Token, NodeKey.Inputs, ToEngine, Distinct, CanonicalNode, Norms, Commutes;
    CanonNorm(hash, c, a);
    CanonNorm(hash, c, b);
    var ns := Norms(ToEngine(c.nodes));
    var xs, ys := c.nodes[a].Inputs(), c.nodes[b].Inputs();
    assert Below(xs, a) && Below(ys, b);
    var p, q := Gather(ns, xs), Gather(ns, ys);
    ArgsMatch(c.nodes[a].Token(), p, c.nodes[b].Token(), q);
    assert forall k :: 0 <= k < |p| ==> p[k] == ns[xs[k]] && q[k] == ns[ys[k]];
  }

  /** With distinct keys, no two canonical nodes have one normal form. */
  lemma {:induction false} CanonNormsInjective(hash: Hash, c: Canon, a: nat, b: nat)
    requires CanonicalArena(hash, c) && Arena(c.nodes) && Distinct(c.keys) && a < |c.nodes| && b < |c.nodes|
    requires Norms(ToEngine(c.nodes))[a] == Norms(ToEngine(c.nodes))[b]
    ensures a == b
    decreases a + b
  {
    hide NodeKey.Token, NodeKey.Inputs, Distinct, CanonicalNode, Norms, ToEngine;
    CanonNormsMatch(hash, c, a, b);
    var ns := Norms(ToEngine(c.nodes));
    var xs, ys := c.nodes[a].Inputs(), c.nodes[b].Inputs();
    if k :| 0 <= k < |xs| && ns[xs[k]] != ns[ys[k]] {
      CanonNormsInjective(hash, c, xs[0], ys[1]);
      CanonNormsInjective(hash, c, xs[1], ys[0]);
      SameKeySameId(c, xs[0], xs[1]);
    } else {
      forall k | 0 <= k < |xs| ensures xs[k] == ys[k] {
        CanonNormsInjective(hash, c, xs[k], ys[k]);
      }
    }
    assert xs == ys;
    SameInputsSameNode(c, a, b);
  }

  /** A hash that never collides. */
  ghost predicate Injective(hash: Hash) {
    forall t, ks, u, js :: hash(t, ks) == hash(u, js) ==> t == u && ks == js
  }

  /** An oriented node's key is the hash of its token and its inputs' keys as they stand. */
  lemma OrientedKey(hash: Hash, c: Canon, j: nat)
    requires CanonicalArena(hash, c) && Arena(c.nodes) && j < |c.nodes|
    ensures Below(c.nodes[j].Inputs(), j)
    ensures c.keys[j] == hash(c.nodes[j].Token(), Gather(c.keys, c.nodes[j].Inputs()))
  {
    hide NodeKey.Token, Distinct;
    assert CanonicalNode(hash, c, j);
    IdentityIsOp(c.nodes[j]);
    SymmetricIsCommuting(c.nodes[j]);
  }

  lemma {:induction false} SameKeySameNode(hash: Hash, c: Canon, a: nat, b: nat)
    requires CanonicalArena(hash, c) && Arena(c.nodes) && Injective(hash) && a < |c.nodes| && b < |c.nodes| && c.keys[a] == c.keys[b]
    ensures a == b
    decreases a + b
  {
    hide NodeKey.Token, NodeKey.Inputs, Distinct, CanonicalNode;
    OrientedKey(hash, c, a);
    OrientedKey(hash, c, b);
    var xs, ys := c.nodes[a].Inputs(), c.nodes[b].Inputs();
    var ks, js := Gather(c.keys, xs), Gather(c.keys, ys);
    assert ks == js;
    forall k | 0 <= k < |xs| ensures xs[k] == ys[k] {
      assert ks[k] == js[k];
      SameKeySameNode(hash, c, xs[k], ys[k]);
    }
    assert xs == ys;
    SameInputsSameNode(c, a, b);
  }

  /** Under a hash that never collides, no two canonical nodes share a key: the one hypothesis of the theorems below
      is about the hash alone. */
  lemma {:induction false} InjectiveHashKeepsKeysApart(hash: Hash, nodes: seq<NodeKey>)
    requires Arena(nodes) && Injective(hash)
    ensures Distinct(Canonicalized(hash, nodes, |nodes|).keys)
  {
    hide NodeKey.Token, Distinct, Canonicalized, CanonicalNode, Injective;
    var c := Canonicalized(hash, nodes, |nodes|);
    CanonTracks(hash, nodes, |nodes|);
    CanonIsArena(hash, nodes, |nodes|);
    forall a, b | 0 <= a < b < |c.keys| ensures c.keys[a] != c.keys[b] {
      if c.keys[a] == c.keys[b] { SameKeySameNode(hash, c, a, b); }
    }
    DistinctFromPairs<nat>(c.keys);
  }

  /** Given no key collisions, two recorded nodes get one canonical id exactly when the shared rules make
      them equal. */
  lemma {:induction false} CanonicalIdsDecideCongruence(hash: Hash, nodes: seq<NodeKey>, i: nat, j: nat)
    requires Arena(nodes) && i < |nodes| && j < |nodes|
    requires Distinct(Canonicalized(hash, nodes, |nodes|).keys)
    ensures Canonicalized(hash, nodes, |nodes|).map_[i] == Canonicalized(hash, nodes, |nodes|).map_[j]
       <==> Congruent(Denotes(nodes)[i], Denotes(nodes)[j])
  {
    hide NodeKey.Token, Fold, Canonicalized, Congruent, Distinct, CanonicalNode, WentTo, Norms, Keys;
    var c := Canonicalized(hash, nodes, |nodes|);
    NormsTracked(hash, nodes);
    CongruentNodes(ToEngine(nodes), i, j);
    var ns := Norms(ToEngine(c.nodes));
    assert Gather(ns, c.map_)[i] == ns[c.map_[i]] && Gather(ns, c.map_)[j] == ns[c.map_[j]];
    if Congruent(Denotes(nodes)[i], Denotes(nodes)[j]) {
      CanonNormsInjective(hash, c, c.map_[i], c.map_[j]);
    }
  }
}
