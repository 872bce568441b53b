/** The token graph, its folds and the shared rules (src/optimizer/engine.rs). */
module Graph {
  import opened Collections
  import opened Params
  import opened Nodes

  datatype EngineNode = EngineNode(token: string, boundary: bool, inputs: seq<nat>)

  datatype EngineGraph = EngineGraph(nodes: seq<EngineNode>, outputs: seq<nat>)

  /** Inputs come before the node that reads them. */
  predicate Topological(g: seq<EngineNode>) {
    forall i :: 0 <= i < |g| ==> Below(g[i].inputs, i)
  }

  predicate Arena(nodes: seq<NodeKey>) {
    forall i :: 0 <= i < |nodes| ==> Below(nodes[i].Inputs(), i)
  }

  /** The arena of an interning store: inputs below their node, no key twice. */
  ghost predicate Interned(nodes: seq<NodeKey>) {
    Arena(nodes) && Distinct(nodes)
  }

  predicate BoundaryFromToken(token: string) {
    !("op|" <= token)
  }

  predicate TokensMarkBoundaries(g: seq<EngineNode>) {
    forall i :: 0 <= i < |g| ==> g[i].boundary == BoundaryFromToken(g[i].token)
  }

  function ToEngineNode(key: NodeKey): EngineNode {
    EngineNode(key.Token(), key.IsBoundary(), key.Inputs())
  }

  function ToEngine(nodes: seq<NodeKey>): (g: seq<EngineNode>)
    ensures |g| == |nodes|
    ensures forall i :: 0 <= i < |g| ==> g[i] == ToEngineNode(nodes[i])
    ensures Arena(nodes) ==> Topological(g)
  {
    Map(ToEngineNode, nodes)
  }

  lemma BoundaryTokens(key: NodeKey)
    ensures BoundaryFromToken(key.Token()) == key.IsBoundary()
  {
    var t := key.Token();
    match key
    case Op(_, _, _) =>
      assert "op|" <= t;
    case External(d, _, _) =>
      assert t[0] == 'e';
    case _ =>
      assert t[0] != 'o';
  }

  // ---- folds ------------------------------------------------------------------------------------

  /** The value of every node when an operator `t` over input values `vs` is worth `f(t, vs)`. */
  function Fold<V>(f: (string, seq<V>) -> V, g: seq<EngineNode>): (vs: seq<V>)
    requires Topological(g)
    ensures |vs| == |g|
  {
    if g == [] then []
    else
      var m := |g| - 1;
      var vs := Fold(f, g[..m]);
      vs + [f(g[m].token, Gather(vs, g[m].inputs))]
  }

  ghost predicate IsFold<V>(f: (string, seq<V>) -> V, g: seq<EngineNode>, vs: seq<V>)
    requires Topological(g)
  {
    |vs| == |g| && forall i :: 0 <= i < |g| ==> vs[i] == f(g[i].token, Gather(vs, g[i].inputs))
  }

  lemma {:induction false} FoldPrefix<V>(f: (string, seq<V>) -> V, g: seq<EngineNode>, m: nat)
    requires Topological(g) && m <= |g|
    ensures Fold(f, g[..m]) == Fold(f, g)[..m]
  {
    if m < |g| {
      var h := g[..|g| - 1];
      FoldPrefix(f, h, m);
      assert h[..m] == g[..m];
    } else {
      assert g[..m] == g;
    }
  }

  lemma {:induction false} FoldIsFold<V>(f: (string, seq<V>) -> V, g: seq<EngineNode>)
    requires Topological(g)
    ensures IsFold(f, g, Fold(f, g))
  {
    var vs := Fold(f, g);
    forall i | 0 <= i < |g| ensures vs[i] == f(g[i].token, Gather(vs, g[i].inputs)) {
      FoldPrefix(f, g, i);
      FoldPrefix(f, g, i + 1);
      assert g[..i + 1][..i] == g[..i];
      assert Gather(vs[..i], g[i].inputs) == Gather(vs, g[i].inputs);
      assert vs[..i + 1][i] == vs[i];
    }
  }

  /** The node equations have one solution. */
  lemma {:induction false} FoldUnique<V>(f: (string, seq<V>) -> V, g: seq<EngineNode>, vs: seq<V>)
    requires Topological(g) && IsFold(f, g, vs)
    ensures vs == Fold(f, g)
  {
    if g != [] {
      var m := |g| - 1;
      forall i | 0 <= i < m ensures vs[..m][i] == f(g[..m][i].token, Gather(vs[..m], g[..m][i].inputs)) {
        assert Gather(vs[..m], g[i].inputs) == Gather(vs, g[i].inputs);
      }
      FoldUnique(f, g[..m], vs[..m]);
      assert Gather(vs[..m], g[m].inputs) == Gather(vs, g[m].inputs);
      assert vs == vs[..m] + [vs[m]];
    }
  }

  // ---- the shared rules -------------------------------------------------------------------------

  const SYMMETRIC_OPS := ["add", "mul", "and", "or", "eq", "ne", "maximum", "minimum"]

  const IDENTITY_TOKENS := [
    "op|add|scalar=f0000000000000000;side=sr",
    "op|add|scalar=f0000000000000000;side=sl",
    "op|mul|scalar=f3ff0000000000000;side=sr",
    "op|mul|scalar=f3ff0000000000000;side=sl"]

  /** The tokens of the commute rules `(op|<sym> ?a ?b)`. */
  predicate Commutes(token: string) {
    "op|" <= token && token[3..] in SYMMETRIC_OPS
  }

  /** The tokens of the identity rules `(<tok> ?x)`. */
  predicate IsIdentity(token: string) {
    token in IDENTITY_TOKENS
  }

  /** `is_symmetric`, on the node itself. */
  predicate IsSymmetric(key: NodeKey) {
    key.Op? && |key.inputs| == 2 && key.params == [] && key.name in SYMMETRIC_OPS
  }

  lemma {:induction false} PlainIsUncoded(cs: set<char>, s: string)
    requires cs <= SEPARATORS && forall k :: 0 <= k < |s| ==> s[k] !in cs
    ensures Coded(cs, s) == s
  {
    if s != "" { PlainIsUncoded(cs, s[1..]); }
  }

  lemma SymmetricOpsArePlain(name: string)
    requires name in SYMMETRIC_OPS
    ensures EscapeToken(name) == name
  {
    assert forall k :: 0 <= k < |name| ==> name[k] !in SEPARATORS;
    EscapeCodes(name);
    PlainIsUncoded(SEPARATORS, name);
  }

  lemma PlainToken(name: string)
    requires name in SYMMETRIC_OPS
    ensures Op(name, [], []).Token() == "op|" + name
  {
    hide EscapeToken;
    SymmetricOpsArePlain(name);
  }

  lemma SymmetricCommutes(key: NodeKey)
    requires IsSymmetric(key)
    ensures Commutes(key.Token())
  {
    hide EscapeToken, NodeKey.Token;
    PlainToken(key.name);
    SameOperatorSameToken(Op(key.name, [], []), key.inputs);
    var t := key.Token();
    assert t == "op|" + key.name && t[3..] == key.name;
  }

  lemma CommutingIsPlain(key: NodeKey)
    requires Commutes(key.Token())
    ensures key.Op? && key.params == [] && key.name in SYMMETRIC_OPS
  {
    hide EscapeToken, NodeKey.Token;
    var name := key.Token()[3..];
    PlainToken(name);
    assert key.Token() == "op|" + name;
    TokenIsOperator(key, Op(name, [], []));
  }

  /** The rule the reducer reads off the node and the one the engine reads off its token are one. */
  lemma SymmetricIsCommuting(key: NodeKey)
    ensures IsSymmetric(key) <==> |key.Inputs()| == 2 && Commutes(key.Token())
  {
    hide NodeKey.Token, Commutes;
    if IsSymmetric(key) { SymmetricCommutes(key); }
    if Commutes(key.Token()) { CommutingIsPlain(key); }
  }

  lemma IdentityTokensAreOps(token: string)
    requires IsIdentity(token)
    ensures "op|" <= token && !Commutes(token)
  {
    assert token[6] == '|';
    assert |token| > 12;
  }

  /** `structural_key` at arity one: only an op can have an identity token. */
  lemma IdentityIsOp(key: NodeKey)
    ensures IsIdentity(key.Token()) ==> key.Op?
  {
    if IsIdentity(key.Token()) {
      IdentityTokensAreOps(key.Token());
      BoundaryTokens(key);
    }
  }

  /** A hash of a token and its input keys. */
  type Hash = (string, seq<nat>) -> nat

  /** A node's structural key from its inputs' keys, over a hash of both. */
  function StructuralKey(hash: Hash, token: string, ks: seq<nat>): nat {
    if |ks| == 1 && IsIdentity(token) then ks[0]
    else if |ks| == 2 && Commutes(token) && ks[1] < ks[0] then hash(token, [ks[1], ks[0]])
    else hash(token, ks)
  }

  function KeyOp(hash: Hash): (string, seq<nat>) -> nat {
    (token, ks) => StructuralKey(hash, token, ks)
  }

  /** The structural key of every node. */
  function Keys(hash: Hash, g: seq<EngineNode>): (ks: seq<nat>)
    requires Topological(g)
    ensures |ks| == |g|
  {
    Fold(KeyOp(hash), g)
  }

  /** An interpretation under which the commute rules hold. */
  ghost predicate Commuting<V(!new)>(f: (string, seq<V>) -> V) {
    forall t, a, b :: Commutes(t) ==> f(t, [a, b]) == f(t, [b, a])
  }

  /** An interpretation under which the identity rules hold. */
  ghost predicate Eliding<V(!new)>(f: (string, seq<V>) -> V) {
    forall t, a :: IsIdentity(t) ==> f(t, [a]) == a
  }

  lemma {:induction false} KeysCommute(hash: Hash)
    ensures Commuting(KeyOp(hash)) && Eliding(KeyOp(hash))
  {
  }
}
