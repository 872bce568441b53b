/** The congruence of the shared rules (src/optimizer/engine.rs). */
module Congruence {
  import opened Collections
  import opened Graph

  /** What a recorded node denotes: its operator over what its inputs denote. */
  datatype Term = Term(token: string, args: seq<Term>)

  function MkTerm(): (string, seq<Term>) -> Term { (token, args) => Term(token, args) }

  function Terms(g: seq<EngineNode>): (ts: seq<Term>)
    requires Topological(g)
    ensures |ts| == |g|
  {
    Fold(MkTerm(), g)
  }

  // ---- derivations ------------------------------------------------------------------------------

  /** A proof that two terms are equal under the shared rules. */
  datatype Derivation =
    | Refl
    | Symm(of: Derivation)
    | Trans(mid: Term, left: Derivation, right: Derivation)
    | Under(each: seq<Derivation>)
    | Commute
    | Elide

  ghost predicate Proves(d: Derivation, s: Term, t: Term) {
    match d
    case Refl => s == t
    case Symm(of) => Proves(of, t, s)
    case Trans(mid, left, right) => Proves(left, s, mid) && Proves(right, mid, t)
    case Under(each) =>
      s.token == t.token && |s.args| == |t.args| == |each|
      && forall k :: 0 <= k < |each| ==> Proves(each[k], s.args[k], t.args[k])
    case Commute => Commutes(s.token) && t.token == s.token && |s.args| == 2 && t.args == [s.args[1], s.args[0]]
    case Elide => IsIdentity(s.token) && s.args == [t]
  }

  ghost predicate Congruent(s: Term, t: Term) {
    exists d :: Proves(d, s, t)
  }

  // ---- the normal form --------------------------------------------------------------------------

  /** A term without identity ops, a commuting op's operands unordered. */
  datatype Norm = Plain(token: string, args: seq<Norm>) | Pair(token: string, operands: multiset<Norm>)

  ghost function NormStep(token: string, args: seq<Norm>): Norm {
    if |args| == 1 && IsIdentity(token) then args[0]
    else if |args| == 2 && Commutes(token) then Pair(token, multiset{args[0], args[1]})
    else Plain(token, args)
  }

  ghost function NormOp(): (string, seq<Norm>) -> Norm { (token, args) => NormStep(token, args) }

  ghost function Norms(g: seq<EngineNode>): (ns: seq<Norm>)
    requires Topological(g)
    ensures |ns| == |g|
  {
    Fold(NormOp(), g)
  }

  ghost function NormOf(t: Term): Norm {
    NormStep(t.token, seq(|t.args|, k requires 0 <= k < |t.args| => NormOf(t.args[k])))
  }

  lemma NormRules()
    ensures Commuting(NormOp()) && Eliding(NormOp())
  {
    forall t, a, b | Commutes(t) ensures NormOp()(t, [a, b]) == NormOp()(t, [b, a]) {
      assert multiset{a, b} == multiset{b, a};
    }
  }

  /** Derivable terms have one normal form. */
  lemma {:induction false} DerivationKeepsNorm(d: Derivation, s: Term, t: Term)
    requires Proves(d, s, t)
    ensures NormOf(s) == NormOf(t)
  {
    match d
    case Refl =>
    case Symm(of) => DerivationKeepsNorm(of, t, s);
    case Trans(mid, left, right) =>
      DerivationKeepsNorm(left, s, mid);
      DerivationKeepsNorm(right, mid, t);
    case Under(each) =>
      forall k | 0 <= k < |each| ensures NormOf(s.args[k]) == NormOf(t.args[k]) {
        DerivationKeepsNorm(each[k], s.args[k], t.args[k]);
      }
      assert seq(|s.args|, k requires 0 <= k < |s.args| => NormOf(s.args[k]))
          == seq(|t.args|, k requires 0 <= k < |t.args| => NormOf(t.args[k]));
    case Commute =>
      assert multiset{NormOf(s.args[0]), NormOf(s.args[1])} == multiset{NormOf(t.args[0]), NormOf(t.args[1])};
    case Elide =>
  }

  predicate Elidable(t: Term) { |t.args| == 1 && IsIdentity(t.token) }

  lemma CongruentTrans(s: Term, m: Term, t: Term)
    requires Congruent(s, m) && Congruent(m, t)
    ensures Congruent(s, t)
  {
    var a :| Proves(a, s, m);
    var b :| Proves(b, m, t);
    assert Proves(Trans(m, a, b), s, t);
  }

  lemma CongruentUnder(s: Term, t: Term)
    requires s.token == t.token && |s.args| == |t.args|
    requires forall k :: 0 <= k < |s.args| ==> Congruent(s.args[k], t.args[k])
    ensures Congruent(s, t)
  {
    var each := seq(|s.args|, k requires 0 <= k < |s.args| => var d :| Proves(d, s.args[k], t.args[k]); d);
    assert Proves(Under(each), s, t);
  }

  lemma CongruentElided(t: Term)
    requires Elidable(t)
    ensures Congruent(t, t.args[0]) && Congruent(t.args[0], t)
    ensures NormOf(t) == NormOf(t.args[0])
  {
    assert t.args == [t.args[0]];
    assert Proves(Elide, t, t.args[0]);
    assert Proves(Symm(Elide), t.args[0], t);
  }

  /** Any two terms of one normal form are congruent. */
  lemma {:induction false} SameNormDerives(s: Term, t: Term)
    requires NormOf(s) == NormOf(t)
    ensures Congruent(s, t)
    decreases s, t
  {
    hide NormOf, Proves, Congruent;
    if Elidable(s) {
      CongruentElided(s);
      SameNormDerives(s.args[0], t);
      CongruentTrans(s, s.args[0], t);
    } else if Elidable(t) {
      CongruentElided(t);
      SameNormDerives(s, t.args[0]);
      CongruentTrans(s, t.args[0], t);
    } else if |s.args| == 2 && Commutes(s.token) {
      PairOperands(s, t);
      if NormOf(s.args[0]) == NormOf(t.args[0]) && NormOf(s.args[1]) == NormOf(t.args[1]) {
        SameNormDerives(s.args[0], t.args[0]);
        SameNormDerives(s.args[1], t.args[1]);
      } else {
        var flipped := Term(s.token, [s.args[1], s.args[0]]);
        CongruentFlipped(s);
        SameNormDerives(s.args[1], t.args[0]);
        SameNormDerives(s.args[0], t.args[1]);
        CongruentUnder(flipped, t);
        CongruentTrans(s, flipped, t);
        return;
      }
      CongruentUnder(s, t);
    } else {
      PlainArgs(s, t);
      forall k | 0 <= k < |s.args| ensures Congruent(s.args[k], t.args[k]) { SameNormDerives(s.args[k], t.args[k]); }
      CongruentUnder(s, t);
    }
  }

  lemma CongruentFlipped(s: Term)
    requires |s.args| == 2 && Commutes(s.token)
    ensures Congruent(s, Term(s.token, [s.args[1], s.args[0]]))
  {
    assert Proves(Commute, s, Term(s.token, [s.args[1], s.args[0]]));
  }

  lemma PairOperands(s: Term, t: Term)
    requires NormOf(s) == NormOf(t) && !Elidable(s) && !Elidable(t) && |s.args| == 2 && Commutes(s.token)
    ensures t.token == s.token && |t.args| == 2
    ensures (NormOf(s.args[0]) == NormOf(t.args[0]) && NormOf(s.args[1]) == NormOf(t.args[1]))
         || (NormOf(s.args[1]) == NormOf(t.args[0]) && NormOf(s.args[0]) == NormOf(t.args[1]))
  {
    var a, b := NormOf(s.args[0]), NormOf(s.args[1]);
    var c, d := NormOf(t.args[0]), NormOf(t.args[1]);
    assert multiset{a, b} == multiset{c, d};
    PairsMatch(a, b, c, d);
  }

  lemma PairsMatch(a: Norm, b: Norm, c: Norm, d: Norm)
    requires multiset{a, b} == multiset{c, d}
    ensures (a == c && b == d) || (a == d && b == c)
  {
    assert a in multiset{c, d};
    assert multiset{a, b} - multiset{a} == multiset{b} && multiset{c, d} - multiset{c} == multiset{d};
    assert multiset{c, d} - multiset{d} == multiset{c};
    assert b in multiset{b};
  }

  lemma PlainArgs(s: Term, t: Term)
    requires NormOf(s) == NormOf(t) && !Elidable(s) && !Elidable(t) && !(|s.args| == 2 && Commutes(s.token))
    ensures t.token == s.token && |t.args| == |s.args|
    ensures forall k :: 0 <= k < |s.args| ==> NormOf(s.args[k]) == NormOf(t.args[k])
  {
    var ns := seq(|s.args|, k requires 0 <= k < |s.args| => NormOf(s.args[k]));
    var nt := seq(|t.args|, k requires 0 <= k < |t.args| => NormOf(t.args[k]));
    assert NormOf(s) == Plain(s.token, ns);
    assert NormOf(t) == Plain(t.token, nt);
    forall k | 0 <= k < |s.args| ensures NormOf(s.args[k]) == NormOf(t.args[k]) { assert ns[k] == nt[k]; }
  }

  /** The normal form decides the congruence. */
  lemma CongruentIffSameNorm(s: Term, t: Term)
    ensures Congruent(s, t) <==> NormOf(s) == NormOf(t)
  {
    if Congruent(s, t) {
      var d :| Proves(d, s, t);
      DerivationKeepsNorm(d, s, t);
    }
    if NormOf(s) == NormOf(t) { SameNormDerives(s, t); }
  }

  // ---- terms and folds --------------------------------------------------------------------------

  function Eval<V>(f: (string, seq<V>) -> V, t: Term): V {
    f(t.token, seq(|t.args|, k requires 0 <= k < |t.args| => Eval(f, t.args[k])))
  }

  /** A fold evaluates what the nodes denote. */
  lemma {:induction false} FoldEvaluates<V>(f: (string, seq<V>) -> V, g: seq<EngineNode>)
    requires Topological(g)
    ensures forall i :: 0 <= i < |g| ==> Fold(f, g)[i] == Eval(f, Terms(g)[i])
  {
    hide Fold;
    var ts := Terms(g);
    FoldIsFold(MkTerm(), g);
    var vs := seq(|g|, i requires 0 <= i < |g| => Eval(f, ts[i]));
    forall i | 0 <= i < |g| ensures vs[i] == f(g[i].token, Gather(vs, g[i].inputs)) {
      assert ts[i] == Term(g[i].token, Gather(ts, g[i].inputs));
      assert Gather(vs, g[i].inputs)
          == seq(|ts[i].args|, k requires 0 <= k < |ts[i].args| => Eval(f, ts[i].args[k]));
    }
    FoldUnique(f, g, vs);
  }

  lemma {:induction false} EvalIsNorm(t: Term)
    ensures Eval(NormOp(), t) == NormOf(t)
  {
    forall k | 0 <= k < |t.args| ensures Eval(NormOp(), t.args[k]) == NormOf(t.args[k]) { EvalIsNorm(t.args[k]); }
    assert seq(|t.args|, k requires 0 <= k < |t.args| => Eval(NormOp(), t.args[k]))
        == seq(|t.args|, k requires 0 <= k < |t.args| => NormOf(t.args[k]));
  }

  lemma NormsAreNormal(g: seq<EngineNode>)
    requires Topological(g)
    ensures forall i :: 0 <= i < |g| ==> Norms(g)[i] == NormOf(Terms(g)[i])
  {
    hide Fold;
    FoldEvaluates(NormOp(), g);
    forall i | 0 <= i < |g| ensures Norms(g)[i] == NormOf(Terms(g)[i]) { EvalIsNorm(Terms(g)[i]); }
  }

  /** Nodes denote congruent terms exactly when their normal forms agree. */
  lemma CongruentNodes(g: seq<EngineNode>, i: nat, j: nat)
    requires Topological(g) && i < |g| && j < |g|
    ensures Congruent(Terms(g)[i], Terms(g)[j]) <==> Norms(g)[i] == Norms(g)[j]
  {
    NormsAreNormal(g);
    CongruentIffSameNorm(Terms(g)[i], Terms(g)[j]);
  }

  /** Congruent terms are worth the same wherever the rules hold. */
  lemma {:induction false} DerivationKeepsValue<V(!new)>(f: (string, seq<V>) -> V, d: Derivation, s: Term, t: Term)
    requires Commuting(f) && Eliding(f) && Proves(d, s, t)
    ensures Eval(f, s) == Eval(f, t)
  {
    match d
    case Refl =>
    case Symm(of) => DerivationKeepsValue(f, of, t, s);
    case Trans(mid, left, right) =>
      DerivationKeepsValue(f, left, s, mid);
      DerivationKeepsValue(f, right, mid, t);
    case Under(each) =>
      forall k | 0 <= k < |each| ensures Eval(f, s.args[k]) == Eval(f, t.args[k]) {
        DerivationKeepsValue(f, each[k], s.args[k], t.args[k]);
      }
      assert seq(|s.args|, k requires 0 <= k < |s.args| => Eval(f, s.args[k]))
          == seq(|t.args|, k requires 0 <= k < |t.args| => Eval(f, t.args[k]));
    case Commute =>
      var a, b := Eval(f, s.args[0]), Eval(f, s.args[1]);
      assert seq(|s.args|, k requires 0 <= k < |s.args| => Eval(f, s.args[k])) == [a, b];
      assert seq(|t.args|, k requires 0 <= k < |t.args| => Eval(f, t.args[k])) == [b, a];
    case Elide =>
      assert seq(|s.args|, k requires 0 <= k < |s.args| => Eval(f, s.args[k])) == [Eval(f, t)];
  }

  // ---- what is asked of an engine ---------------------------------------------------------------

  /** The engine only merges what the rules make equal, however soon it stopped. */
  ghost predicate Justified(g: seq<EngineNode>, canon: seq<nat>)
    requires Topological(g)
  {
    |canon| == |g| && forall i, j :: 0 <= i < |g| && 0 <= j < |g| && canon[i] == canon[j] ==>
      Congruent(Terms(g)[i], Terms(g)[j])
  }

  /** The engine's classes are exactly the congruence of the rules. */
  ghost predicate Saturated(g: seq<EngineNode>, canon: seq<nat>)
    requires Topological(g)
  {
    |canon| == |g| && forall i, j :: 0 <= i < |g| && 0 <= j < |g| ==>
      (canon[i] == canon[j] <==> Congruent(Terms(g)[i], Terms(g)[j]))
  }

  /** Whatever the engine merged on the rules' account is worth the same wherever the rules hold. */
  lemma {:induction false} JustifiedValues<V(!new)>(f: (string, seq<V>) -> V, g: seq<EngineNode>, canon: seq<nat>, i: nat, j: nat)
    requires Topological(g) && Justified(g, canon) && Commuting(f) && Eliding(f)
    requires i < |g| && j < |g| && canon[i] == canon[j]
    ensures Fold(f, g)[i] == Fold(f, g)[j]
  {
    hide Fold, Eval, Proves, Commuting, Eliding;
    var d :| Proves(d, Terms(g)[i], Terms(g)[j]);
    DerivationKeepsValue(f, d, Terms(g)[i], Terms(g)[j]);
    FoldEvaluates(f, g);
  }
}
