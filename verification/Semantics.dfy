/** What a node is worth over a backend (python/graphed/execute.py). */
module Semantics {
  import opened Collections
  import opened Text
  import opened Nodes
  import opened Graph

  /** A reference a stage with `slots` inputs can follow from its member `k`. */
  predicate RefOk(r: StageRef, slots: nat, k: nat) {
    match r case Input(s) => s < slots case Member(j) => j < k
  }

  predicate RefsOk(refs: seq<StageRef>, slots: nat, k: nat) {
    forall i :: 0 <= i < |refs| ==> RefOk(refs[i], slots, k)
  }

  /** A stage that can be evaluated over `slots` inputs. */
  predicate StageOk(members: seq<StageOp>, slots: nat) {
    members != [] && forall k :: 0 <= k < |members| ==> RefsOk(members[k].refs, slots, k)
  }

  function RefValues<V>(refs: seq<StageRef>, ins: seq<V>, mvals: seq<V>): (r: seq<V>)
    requires RefsOk(refs, |ins|, |mvals|)
    ensures |r| == |refs|
    ensures forall i :: 0 <= i < |r| ==> r[i] == match refs[i] case Input(s) => ins[s] case Member(j) => mvals[j]
  {
    seq(|refs|, i requires 0 <= i < |refs| =>
      assert RefOk(refs[i], |ins|, |mvals|);
      match refs[i] case Input(s) => ins[s] case Member(j) => mvals[j])
  }

  /** The values of the first `k` members. */
  function MemberValues<V>(base: (string, seq<V>) -> V, members: seq<StageOp>, ins: seq<V>, k: nat): (r: seq<V>)
    requires StageOk(members, |ins|) && k <= |members|
    ensures |r| == k
  {
    if k == 0 then []
    else
      var before := MemberValues(base, members, ins, k - 1);
      before + [base(members[k - 1].token, RefValues(members[k - 1].refs, ins, before))]
  }

  function StageValue<V>(base: (string, seq<V>) -> V, members: seq<StageOp>, ins: seq<V>): V
    requires StageOk(members, |ins|)
  {
    MemberValues(base, members, ins, |members|)[|members| - 1]
  }

  ghost predicate RunsStage(token: string, slots: nat, members: seq<StageOp>) {
    token == StageToken(members) && StageOk(members, slots)
  }

  /** An operator's value: a stage token runs its members, any other token is the backend's. */
  ghost function Run<V>(base: (string, seq<V>) -> V, token: string, ins: seq<V>): V {
    if exists ms :: RunsStage(token, |ins|, ms)
    then var ms :| RunsStage(token, |ins|, ms); StageValue(base, ms, ins)
    else base(token, ins)
  }

  ghost function Meaning<V(!new)>(base: (string, seq<V>) -> V): (string, seq<V>) -> V {
    (token, ins) => Run(base, token, ins)
  }

  /** The value of every node of a graph over the backend `base`. */
  ghost function Values<V(!new)>(base: (string, seq<V>) -> V, g: seq<EngineNode>): (vs: seq<V>)
    requires Topological(g)
    ensures |vs| == |g|
  {
    Fold(Meaning(base), g)
  }

  lemma StageTokenInjective(ms: seq<StageOp>, ns: seq<StageOp>)
    requires StageToken(ms) == StageToken(ns)
    ensures ms == ns
  {
    assert StageToken(ms)[6..] == Text.Join(Map(MemberToken, ms), ';');
    assert StageToken(ns)[6..] == Text.Join(Map(MemberToken, ns), ';');
    MembersTokenInjective(ms, ns);
  }

  lemma {:induction false} RunOfStage<V>(base: (string, seq<V>) -> V, members: seq<StageOp>, ins: seq<V>)
    requires StageOk(members, |ins|)
    ensures Run(base, StageToken(members), ins) == StageValue(base, members, ins)
  {
    assert RunsStage(StageToken(members), |ins|, members);
    forall ms | RunsStage(StageToken(members), |ins|, ms) ensures ms == members {
      StageTokenInjective(ms, members);
    }
  }

  lemma {:induction false} RunOfOp<V>(base: (string, seq<V>) -> V, token: string, ins: seq<V>)
    requires "op|" <= token
    ensures Run(base, token, ins) == base(token, ins)
  {
    forall ms ensures !RunsStage(token, |ins|, ms) {
      assert StageToken(ms)[0] == 's' && token[0] == 'o';
    }
  }

  /** The rules only speak of ops, so they hold of a backend's meaning as they hold of it. */
  lemma {:induction false} MeaningFollowsRules<V(!new)>(base: (string, seq<V>) -> V)
    ensures Commuting(base) ==> Commuting(Meaning(base))
    ensures Eliding(base) ==> Eliding(Meaning(base))
  {
    if Commuting(base) {
      forall t, a, b | Commutes(t) ensures Meaning(base)(t, [a, b]) == Meaning(base)(t, [b, a]) {
        RunOfOp(base, t, [a, b]);
        RunOfOp(base, t, [b, a]);
      }
    }
    if Eliding(base) {
      forall t, a | IsIdentity(t) ensures Meaning(base)(t, [a]) == a {
        IdentityTokensAreOps(t);
        RunOfOp(base, t, [a]);
      }
    }
  }

  /** Member values that satisfy every member's equation are the ones the stage computes. */
  lemma {:induction false} MemberValuesUnique<V>(base: (string, seq<V>) -> V, members: seq<StageOp>, ins: seq<V>,
                                                 mvals: seq<V>, k: nat)
    requires StageOk(members, |ins|) && |mvals| == |members| && k <= |members|
    requires forall j :: 0 <= j < |members| ==>
      RefsOk(members[j].refs, |ins|, j) && mvals[j] == base(members[j].token, RefValues(members[j].refs, ins, mvals[..j]))
    ensures MemberValues(base, members, ins, k) == mvals[..k]
  {
    if k > 0 {
      MemberValuesUnique(base, members, ins, mvals, k - 1);
      TakeMore(mvals, k - 1);
    }
  }
}
