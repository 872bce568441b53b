/** Running a reduced graph: the releasing, cut evaluator (python/graphed/execute.py). */
module Evaluate {
  import opened Collections
  import opened Nodes
  import opened Graph
  import opened Walk
  import opened Semantics
  import Paths

  /** Where a dispatch failed, and with what: a node, and the member inside it when it is a stage. */
  datatype Failure<E> = Failure(node: nat, member: Option<nat>, cause: E)

  /** What running an operator over input values fails with, if it fails. */
  type Faults<!V, E> = (string, seq<V>) -> Option<E>

  // ---- which values a consumer is the last to read ----------------------------------------------

  /** `c` reads `i`, nobody after `c` does, and `i` is not kept. */
  ghost predicate ReleasedAt(inputs: seq<seq<nat>>, keep: set<nat>, i: nat, c: nat) {
    c < |inputs| && i in inputs[c] && i !in keep && forall d :: c < d < |inputs| ==> i !in inputs[d]
  }

  function Released(out: map<nat, seq<nat>>, c: nat): seq<nat> {
    if c in out then out[c] else []
  }

  /** `last`, with its keys in insertion order: the last consumer of every value the first `m` read. */
  ghost predicate LastSoFar(inputs: seq<seq<nat>>, m: nat, last: map<nat, nat>, met: seq<nat>)
    requires m <= |inputs|
  {
    && Distinct(met)
    && (forall i: nat {:trigger i in met} :: i in met <==> i in last)
    && (forall i: nat {:trigger i in last} :: i in last ==> last[i] < m && i in inputs[last[i]] && forall d :: last[i] < d < m ==> i !in inputs[d])
    && (forall c :: 0 <= c < m ==> AllIn(inputs[c], met))
  }

  /** `_last_consumers`. */
  method LastConsumers(inputs: seq<seq<nat>>, keep: set<nat>) returns (out: map<nat, seq<nat>>)
    ensures forall c: nat, i: nat :: i in Released(out, c) <==> ReleasedAt(inputs, keep, i, c)
  {
    hide Distinct;
    var last: map<nat, nat> := map[];
    var met: seq<nat> := [];
    assert Distinct(met) by { DistinctFromPairs(met); }
    for consumer := 0 to |inputs|
      invariant LastSoFar(inputs, consumer, last, met)
    {
      last, met := NoteReads(inputs, consumer, last, met);
    }
    out := ByConsumer(last, met, keep);
    forall c: nat, i: nat ensures i in Released(out, c) <==> ReleasedAt(inputs, keep, i, c) {
      ReleasedIffLast(inputs, keep, last, met, i, c);
    }
  }

  lemma ReleasedIffLast(inputs: seq<seq<nat>>, keep: set<nat>, last: map<nat, nat>, met: seq<nat>, i: nat, c: nat)
    requires LastSoFar(inputs, |inputs|, last, met)
    ensures ReleasedAt(inputs, keep, i, c) <==> i in met && i in last && i !in keep && last[i] == c
  {
    hide Distinct;
    if c < |inputs| && i in inputs[c] {
      assert AllIn(inputs[c], met) && inputs[c][IndexOf(inputs[c], i)] == i;
    }
  }

  /** The values not kept, grouped by their last consumer. */
  method ByConsumer(last: map<nat, nat>, met: seq<nat>, keep: set<nat>) returns (out: map<nat, seq<nat>>)
    requires forall i: nat :: i in met ==> i in last
    ensures forall c: nat, i: nat :: i in Released(out, c) <==> i in met && i in last && i !in keep && last[i] == c
  {
    out := map[];
    for k := 0 to |met|
      invariant forall c: nat, i: nat :: i in Released(out, c) <==> i in met[..k] && i in last && i !in keep && last[i] == c
    {
      var i := met[k];
      TakeMore(met, k);
      if i !in keep {
        ghost var before := out;
        out := out[last[i] := Released(out, last[i]) + [i]];
        assert forall c: nat :: Released(out, c) == if c == last[i] then Released(before, c) + [i] else Released(before, c);
      }
    }
    assert met[..|met|] == met;
  }

  /** The reads of one consumer. */
  method NoteReads(inputs: seq<seq<nat>>, consumer: nat, last0: map<nat, nat>, met0: seq<nat>)
    returns (last: map<nat, nat>, met: seq<nat>)
    requires consumer < |inputs| && LastSoFar(inputs, consumer, last0, met0)
    ensures LastSoFar(inputs, consumer + 1, last, met)
  {
    hide Distinct;
    last, met := last0, met0;
    var used := inputs[consumer];
    for k := 0 to |used|
      invariant Distinct(met) && met0 <= met
      invariant forall i: nat {:trigger i in met} :: i in met <==> i in last
      invariant forall i: nat {:trigger i in last} :: i in last <==> i in last0 || i in used[..k]
      invariant forall i: nat {:trigger i in last} :: i in last ==> last[i] == if i in used[..k] then consumer else last0[i]
    {
      TakeMore(used, k);
      if used[k] !in last {
        DistinctMore(met, used[k]);
        met := met + [used[k]];
      }
      last := last[used[k] := consumer];
    }
    assert used[..|used|] == used;
    forall c | 0 <= c < consumer ensures AllIn(inputs[c], met) {
      assert AllIn(inputs[c], met0);
    }
  }

  // ---- the cone of the outputs, cut at the given nodes ------------------------------------------

  function InputsOf(nodes: seq<NodeKey>): (w: Wiring)
    ensures |w| == |nodes|
    ensures forall i :: 0 <= i < |nodes| ==> w[i] == nodes[i].Inputs()
    ensures Arena(nodes) ==> Downward(w)
  {
    seq(|nodes|, i requires 0 <= i < |nodes| => nodes[i].Inputs())
  }

  /** The nodes met so far and those still on the list. */
  ghost predicate Exploring(w: Wiring, roots: seq<nat>, stop: set<nat>, seen: set<nat>, todo: seq<nat>)
    requires Downward(w) && Below(roots, |w|)
  {
    && Below(todo, |w|) && (forall i: nat :: i in seen ==> i < |w| && InCut(w, roots, stop, i))
    && (forall k :: 0 <= k < |todo| ==> InCut(w, roots, stop, todo[k]))
    && (forall r :: 0 <= r < |roots| ==> roots[r] in seen || roots[r] in todo)
    && (forall i: nat :: i in seen && i !in stop ==> forall k :: 0 <= k < |w[i]| ==> w[i][k] in seen || w[i][k] in todo)
  }

  lemma DropSeen(w: Wiring, roots: seq<nat>, stop: set<nat>, seen: set<nat>, todo: seq<nat>)
    requires Downward(w) && Below(roots, |w|) && Exploring(w, roots, stop, seen, todo)
    requires todo != [] && todo[|todo| - 1] in seen
    ensures Exploring(w, roots, stop, seen, todo[..|todo| - 1])
  {
    hide Sees, InCut;
    var n := |todo| - 1;
    assert forall x :: x in todo ==> x in todo[..n] || x == todo[n];
  }

  lemma Expand(w: Wiring, roots: seq<nat>, stop: set<nat>, seen: set<nat>, todo: seq<nat>)
    requires Downward(w) && Below(roots, |w|) && Exploring(w, roots, stop, seen, todo)
    requires todo != []
    ensures var nid := todo[|todo| - 1];
      Exploring(w, roots, stop, seen + {nid}, todo[..|todo| - 1] + (if nid in stop then [] else w[nid]))
  {
    hide InCut;
    var n := |todo| - 1;
    var nid := todo[n];
    var next := if nid in stop then [] else w[nid];
    var more := todo[..n] + next;
    assert Below(w[nid], nid);
    assert forall x :: x in todo ==> x in todo[..n] || x == nid;
    if nid !in stop { NextInCut(w, roots, stop, nid); }
    forall k | 0 <= k < |more| ensures more[k] < |w| && InCut(w, roots, stop, more[k]) {
      if k >= n { assert more[k] == next[k - n]; } else { assert more[k] == todo[k]; }
    }
    forall k | 0 <= k < |next| ensures next[k] in more { assert more[n + k] == next[k]; }
    forall x | x in todo && x != nid ensures x in more { assert more[IndexOf(todo[..n], x)] == x; }
  }

  lemma NextInCut(w: Wiring, roots: seq<nat>, stop: set<nat>, nid: nat)
    requires Downward(w) && Below(roots, |w|) && nid < |w| && InCut(w, roots, stop, nid) && nid !in stop
    ensures forall k :: 0 <= k < |w[nid]| ==> InCut(w, roots, stop, w[nid][k])
  {
    var r :| 0 <= r < |roots| && Sees(w, stop, roots[r], nid);
    forall k | 0 <= k < |w[nid]| ensures InCut(w, roots, stop, w[nid][k]) { SeesOnward(w, stop, roots[r], nid, k); }
  }

  /** `ir_cone`: the worklist finds exactly the nodes the roots depend on without passing a stop. */
  method IrCone(nodes: seq<NodeKey>, roots: seq<nat>, stop: set<nat>) returns (seen: set<nat>)
    requires Arena(nodes) && Below(roots, |nodes|)
    ensures forall i: nat :: i in seen <==> i < |nodes| && InCut(InputsOf(nodes), roots, stop, i)
  {
    hide NodeKey.Token, Exploring;
    ghost var w := InputsOf(nodes);
    seen := {};
    var todo := roots;
    StartExploring(w, roots, stop);
    while todo != []
      invariant Exploring(w, roots, stop, seen, todo)
      decreases |nodes| - |seen|, |todo|
    {
      ExploringBelow(w, roots, stop, seen, todo);
      var nid := todo[|todo| - 1];
      if nid in seen {
        DropSeen(w, roots, stop, seen, todo);
        todo := todo[..|todo| - 1];
      } else {
        Expand(w, roots, stop, seen, todo);
        ExploringBelow(w, roots, stop, seen + {nid}, todo[..|todo| - 1] + (if nid in stop then [] else w[nid]));
        seen := seen + {nid};
        todo := todo[..|todo| - 1];
        assert todo + [] == todo;
        if nid !in stop {
          todo := todo + nodes[nid].Inputs();
        }
      }
    }
    Explored(w, roots, stop, seen);
  }

  lemma StartExploring(w: Wiring, roots: seq<nat>, stop: set<nat>)
    requires Downward(w) && Below(roots, |w|)
    ensures Exploring(w, roots, stop, {}, roots)
  {
    assert forall r :: 0 <= r < |roots| ==> Sees(w, stop, roots[r], roots[r]);
  }

  lemma ExploringBelow(w: Wiring, roots: seq<nat>, stop: set<nat>, seen: set<nat>, todo: seq<nat>)
    requires Downward(w) && Below(roots, |w|) && Exploring(w, roots, stop, seen, todo)
    ensures |seen| <= |w| && Below(todo, |w|)
  {
    SetBelow(seen, |w|);
  }

  lemma Explored(w: Wiring, roots: seq<nat>, stop: set<nat>, seen: set<nat>)
    requires Downward(w) && Below(roots, |w|) && Exploring(w, roots, stop, seen, [])
    ensures forall i: nat :: i in seen <==> i < |w| && InCut(w, roots, stop, i)
  {
    forall i: nat | i < |w| && InCut(w, roots, stop, i) ensures i in seen {
      var r :| 0 <= r < |roots| && Sees(w, stop, roots[r], i);
      SeesStaysInside(w, stop, seen, roots[r], i);
    }
  }

  // ---- one stage --------------------------------------------------------------------------------

  function MembersRead(m: StageOp): (r: seq<nat>)
    ensures forall i: nat :: i in r <==> Member(i) in m.refs
  {
    MemberIndices(m.refs)
  }

  function MemberIndices(refs: seq<StageRef>): (r: seq<nat>)
    ensures forall i: nat :: i in r <==> Member(i) in refs
  {
    if refs == [] then []
    else
      var n := |refs| - 1;
      MemberIndices(refs[..n]) + match refs[n] case Member(i) => [i] case Input(_) => []
  }

  /** The first of the first `k` members whose dispatch fails. */
  function StageFault<V, E>(base: (string, seq<V>) -> V, faults: Faults<V, E>, members: seq<StageOp>, ins: seq<V>, k: nat): Option<(nat, E)>
    requires StageOk(members, |ins|) && k <= |members|
  {
    if k == 0 then None
    else
      var before := StageFault(base, faults, members, ins, k - 1);
      if before.Some? then before
      else
        var e := faults(members[k - 1].token, RefValues(members[k - 1].refs, ins, MemberValues(base, members, ins, k - 1)));
        if e.Some? then Some((k - 1, e.value)) else None
  }

  /** Slots that are still to be read hold their value. */
  ghost predicate Holds<V>(vals: seq<Option<V>>, full: seq<V>, live: set<nat>) {
    |vals| <= |full| && forall i: nat :: i in live && i < |vals| ==> vals[i] == Some(full[i])
  }

  /** What consumers `from..` read, and what is kept. */
  ghost function Live(inputs: seq<seq<nat>>, keep: set<nat>, from: nat): (live: set<nat>)
    ensures forall i: nat :: i in live <==> i in keep || exists c :: from <= c < |inputs| && i in inputs[c]
  {
    keep + (set c, i | from <= c < |inputs| && i in inputs[c] :: i)
  }

  /** Dropping what consumer `c` was the last to read drops nothing that is still to be read. */
  method Drop<V>(vals0: seq<Option<V>>, release: seq<nat>, ghost full: seq<V>, ghost inputs: seq<seq<nat>>, ghost keep: set<nat>, ghost c: nat)
    returns (vals: seq<Option<V>>)
    requires c < |inputs| && Holds(vals0, full, Live(inputs, keep, c + 1))
    requires forall i: nat :: i in release ==> i < |vals0| && ReleasedAt(inputs, keep, i, c)
    ensures Dropped(vals0, release, vals) && Holds(vals, full, Live(inputs, keep, c + 1))
  {
    vals := vals0;
    for k := 0 to |release|
      invariant Dropped(vals0, release[..k], vals) && Holds(vals, full, Live(inputs, keep, c + 1))
    {
      assert release[k] in release && release[..k + 1] == release[..k] + [release[k]];
      vals := vals[release[k] := None];
    }
    assert release[..|release|] == release;
  }

  ghost predicate Dropped<V>(vals0: seq<Option<V>>, release: seq<nat>, vals: seq<Option<V>>) {
    |vals| == |vals0| && forall i: nat :: i < |vals| ==> vals[i] == if i in release then None else vals0[i]
  }

  /** Everything one of the first `n` consumers was the last to read is dropped. */
  ghost predicate Spent<V>(inputs: seq<seq<nat>>, keep: set<nat>, vals: seq<Option<V>>, n: nat) {
    forall c: nat, i: nat :: c < n && i < |vals| && ReleasedAt(inputs, keep, i, c) ==> vals[i].None?
  }

  /** After each step, only what is wanted or still to be read is held, of all that was ever read. */
  ghost predicate HoldsOnlyLive<V>(inputs: seq<seq<nat>>, keep: set<nat>, held: seq<seq<Option<V>>>) {
    forall k :: 0 <= k < |held| ==> |held[k]| == k + 1 && Spent(inputs, keep, held[k], k + 1)
  }

  lemma HeldMore<V>(inputs: seq<seq<nat>>, keep: set<nat>, held: seq<seq<Option<V>>>, vals: seq<Option<V>>)
    requires HoldsOnlyLive(inputs, keep, held) && |vals| == |held| + 1 && Spent(inputs, keep, vals, |vals|)
    ensures HoldsOnlyLive(inputs, keep, held + [vals])
  {
    hide Spent;
  }

  /** One more step: a value is added, and what its consumer was the last to read is dropped. */
  lemma SpentMore<V>(inputs: seq<seq<nat>>, keep: set<nat>, vals: seq<Option<V>>, v: Option<V>, release: seq<nat>, more: seq<Option<V>>)
    requires |vals| < |inputs| && Spent(inputs, keep, vals, |vals|) && Dropped(vals + [v], release, more)
    requires forall i: nat :: i in release <==> ReleasedAt(inputs, keep, i, |vals|)
    requires forall c: nat, i: nat :: ReleasedAt(inputs, keep, i, c) ==> i < c
    ensures Spent(inputs, keep, more, |vals| + 1)
  {
    hide ReleasedAt;
  }

  function MemberInputs(members: seq<StageOp>): (r: seq<seq<nat>>)
    ensures |r| == |members|
    ensures forall k :: 0 <= k < |members| ==> r[k] == MembersRead(members[k])
  {
    seq(|members|, k requires 0 <= k < |members| => MembersRead(members[k]))
  }

  /** The values a member reads, none of them dropped. */
  function ReadRefs<V>(refs: seq<StageRef>, ins: seq<V>, mvals: seq<Option<V>>, ghost full: seq<V>): (r: seq<V>)
    requires RefsOk(refs, |ins|, |mvals|) && |mvals| <= |full|
    requires forall j: nat :: j < |mvals| && Member(j) in refs ==> mvals[j] == Some(full[j])
    ensures r == RefValues(refs, ins, full[..|mvals|])
  {
    var r := seq(|refs|, i requires 0 <= i < |refs| =>
      assert RefOk(refs[i], |ins|, |mvals|);
      match refs[i] case Input(s) => ins[s] case Member(j) => assert Member(j) in refs; mvals[j].value);
    assert r == RefValues(refs, ins, full[..|mvals|]);
    r
  }

  /** `_evaluate_stage`: the members in turn, each value dropped after its last reader in the stage. */
  method EvaluateStage<V, E>(base: (string, seq<V>) -> V, faults: Faults<V, E>, nid: nat, members: seq<StageOp>, ins: seq<V>)
    returns (r: Result<V, Failure<E>>, ghost held: seq<seq<Option<V>>>)
    requires StageOk(members, |ins|)
    ensures r == match StageFault(base, faults, members, ins, |members|)
                 case Some(at) => Err(Failure(nid, Some(at.0), at.1))
                 case None => Ok(StageValue(base, members, ins))
    ensures r.Ok? ==> |held| == |members| && HoldsOnlyLive(MemberInputs(members), {|members| - 1}, held)
  {
    hide MemberValues, StageFault, Spent, Dropped, ReleasedAt, HoldsOnlyLive;
    var inputs := MemberInputs(members);
    ghost var keep := {|members| - 1};
    held := [];
    var release := LastConsumers(inputs, {|members| - 1});
    var mvals: seq<Option<V>> := [];
    ghost var full := MemberValues(base, members, ins, |members|);
    NoFaultYet(base, faults, members, ins);
    NothingSpent<V>(inputs, keep);
    for index := 0 to |members|
      invariant |mvals| == index && Holds(mvals, full, Live(inputs, keep, index))
      invariant |held| == index && HoldsOnlyLive(inputs, keep, held) && Spent(inputs, keep, mvals, index)
      invariant StageFault(base, faults, members, ins, index).None?
    {
      var m := members[index];
      MemberStep(base, faults, members, ins, index);
      var mins := ReadMember(members, index, ins, mvals, full);
      var e := faults(m.token, mins);
      if e.Some? {
        StageFaultStays(base, faults, members, ins, index + 1);
        return Err(Failure(nid, Some(index), e.value)), held;
      }
      var more := mvals + [Some(base(m.token, mins))];
      MemberHeld(mvals, base(m.token, mins), full, inputs, keep, index);
      MembersReadEarlier(members, |ins|, keep);
      ghost var before := mvals;
      mvals := Drop(more, Released(release, index), full, inputs, keep, index);
      SpentMore(inputs, keep, before, Some(base(m.token, mins)), Released(release, index), mvals);
      HeldMore(inputs, keep, held, mvals);
      held := held + [mvals];
    }
    return Ok(mvals[|members| - 1].value), held;
  }

  lemma {:induction false} NoFaultYet<V, E>(base: (string, seq<V>) -> V, faults: Faults<V, E>, members: seq<StageOp>, ins: seq<V>)
    requires StageOk(members, |ins|)
    ensures StageFault(base, faults, members, ins, 0).None?
  {
  }

  /** What member `index` contributes, when none before it failed. */
  lemma {:induction false} MemberStep<V, E>(base: (string, seq<V>) -> V, faults: Faults<V, E>, members: seq<StageOp>, ins: seq<V>, index: nat)
    requires StageOk(members, |ins|) && index < |members| && StageFault(base, faults, members, ins, index).None?
    ensures var full := MemberValues(base, members, ins, |members|); var m := members[index];
      && RefsOk(m.refs, |ins|, index)
      && var mins := RefValues(m.refs, ins, full[..index]);
         full[index] == base(m.token, mins)
         && StageFault(base, faults, members, ins, index + 1)
            == match faults(m.token, mins) case None => None case Some(e) => Some((index, e))
  {
    var full := MemberValues(base, members, ins, |members|);
    MemberValuesPrefix(base, members, ins, index);
    MemberValuesPrefix(base, members, ins, index + 1);
    assert full[..index + 1][index] == full[index];
  }

  lemma MembersReadEarlier(members: seq<StageOp>, slots: nat, keep: set<nat>)
    requires StageOk(members, slots)
    ensures forall c: nat, i: nat :: ReleasedAt(MemberInputs(members), keep, i, c) ==> i < c
  {
    forall c: nat, i: nat | ReleasedAt(MemberInputs(members), keep, i, c) ensures i < c {
      assert RefsOk(members[c].refs, slots, c);
      assert Member(i) in members[c].refs;
    }
  }

  lemma MemberHeld<V>(mvals: seq<Option<V>>, v: V, full: seq<V>, inputs: seq<seq<nat>>, keep: set<nat>, index: nat)
    requires |mvals| == index < |full| && index < |inputs| && Holds(mvals, full, Live(inputs, keep, index)) && v == full[index]
    ensures Holds(mvals + [Some(v)], full, Live(inputs, keep, index + 1))
  {
  }

  function ReadMember<V>(members: seq<StageOp>, index: nat, ins: seq<V>, mvals: seq<Option<V>>, ghost full: seq<V>): (r: seq<V>)
    requires index < |members| == |full| && |mvals| == index && RefsOk(members[index].refs, |ins|, index)
    requires Holds(mvals, full, Live(MemberInputs(members), {|members| - 1}, index))
    ensures r == RefValues(members[index].refs, ins, full[..index])
  {
    assert forall j: nat :: Member(j) in members[index].refs ==> j in MemberInputs(members)[index];
    ReadRefs(members[index].refs, ins, mvals, full)
  }

  lemma {:induction false} MemberValuesPrefix<V>(base: (string, seq<V>) -> V, members: seq<StageOp>, ins: seq<V>, k: nat)
    requires StageOk(members, |ins|) && k <= |members|
    ensures MemberValues(base, members, ins, k) == MemberValues(base, members, ins, |members|)[..k]
    decreases |members| - k
  {
    var all := MemberValues(base, members, ins, |members|);
    if k < |members| {
      MemberValuesPrefix(base, members, ins, k + 1);
      assert all[..k + 1][..k] == all[..k];
    } else {
      assert all[..k] == all;
    }
  }

  lemma {:induction false} StageFaultStays<V, E>(base: (string, seq<V>) -> V, faults: Faults<V, E>, members: seq<StageOp>, ins: seq<V>, k: nat)
    requires StageOk(members, |ins|) && k <= |members| && StageFault(base, faults, members, ins, k).Some?
    ensures StageFault(base, faults, members, ins, |members|) == StageFault(base, faults, members, ins, k)
    decreases |members| - k
  {
    if k < |members| { StageFaultStays(base, faults, members, ins, k + 1); }
  }

  // ---- the whole graph --------------------------------------------------------------------------

  /** The node's inputs are earlier nodes, and a stage's references name its slots and earlier members. */
  predicate Runnable(nodes: seq<NodeKey>) {
    Arena(nodes) && forall i :: 0 <= i < |nodes| ==> (nodes[i].Stage? ==> StageOk(nodes[i].members, |nodes[i].inputs|))
  }

  /** A node's value over its inputs' values. */
  function NodeValue<V>(base: (string, seq<V>) -> V, key: NodeKey, ins: seq<V>): V
    requires key.Stage? ==> StageOk(key.members, |ins|)
  {
    if key.Stage? then StageValue(base, key.members, ins) else base(key.Token(), ins)
  }

  /** Every node's value, the given ones overriding what their operators would compute. */
  function Overridden<V>(base: (string, seq<V>) -> V, nodes: seq<NodeKey>, given: map<nat, V>, m: nat): (vs: seq<V>)
    requires Runnable(nodes) && m <= |nodes|
    ensures |vs| == m
  {
    if m == 0 then []
    else
      var vs := Overridden(base, nodes, given, m - 1);
      var key := nodes[m - 1];
      assert Below(key.Inputs(), m - 1);
      vs + [if m - 1 in given then given[m - 1] else NodeValue(base, key, Gather(vs, key.Inputs()))]
  }

  /** A node's own failure over its inputs' values: its dispatch's, or its first failing member's. */
  function NodeFault<V, E>(base: (string, seq<V>) -> V, faults: Faults<V, E>, nid: nat, key: NodeKey, ins: seq<V>): Option<Failure<E>>
    requires key.Stage? ==> StageOk(key.members, |ins|)
  {
    if key.Stage? then
      match StageFault(base, faults, key.members, ins, |key.members|)
      case None => None
      case Some(at) => Some(Failure(nid, Some(at.0), at.1))
    else
      match faults(key.Token(), ins) case None => None case Some(e) => Some(Failure(nid, None, e))
  }

  /** The failure of the first of the first `m` nodes that runs and fails. */
  function FirstFault<V, E>(base: (string, seq<V>) -> V, faults: Faults<V, E>, nodes: seq<NodeKey>, given: map<nat, V>, run: set<nat>, m: nat): Option<Failure<E>>
    requires Runnable(nodes) && m <= |nodes|
  {
    if m == 0 then None
    else
      var before := FirstFault(base, faults, nodes, given, run, m - 1);
      assert Below(nodes[m - 1].Inputs(), m - 1);
      if before.Some? || m - 1 !in run then before
      else NodeFault(base, faults, m - 1, nodes[m - 1], Gather(Overridden(base, nodes, given, m - 1), nodes[m - 1].Inputs()))
  }

  /** What evaluating the nodes `run` returns when nothing is dropped: the wanted values, or the first failure
      among those nodes. */
  function Outcome<V, E>(base: (string, seq<V>) -> V, faults: Faults<V, E>, nodes: seq<NodeKey>, wanted: seq<nat>,
                         given: map<nat, V>, run: set<nat>): Result<seq<V>, Failure<E>>
    requires Runnable(nodes) && Below(wanted, |nodes|)
  {
    match FirstFault(base, faults, nodes, given, run, |nodes|)
    case Some(e) => Err(e)
    case None => Ok(Gather(Overridden(base, nodes, given, |nodes|), wanted))
  }

  lemma RunnableIsArena(nodes: seq<NodeKey>)
    requires Runnable(nodes)
    ensures Arena(nodes)
  {
  }

  lemma {:induction false} OverriddenStep<V>(base: (string, seq<V>) -> V, nodes: seq<NodeKey>, given: map<nat, V>, m: nat)
    requires Runnable(nodes) && 0 < m <= |nodes|
    ensures var vs := Overridden(base, nodes, given, m - 1); var key := nodes[m - 1];
      && Below(key.Inputs(), m - 1) && (key.Stage? ==> StageOk(key.members, |key.Inputs()|))
      && Overridden(base, nodes, given, m)
         == vs + [if m - 1 in given then given[m - 1] else NodeValue(base, key, Gather(vs, key.Inputs()))]
  {
    hide NodeKey.Token, NodeValue, StageOk;
    assert Below(nodes[m - 1].Inputs(), m - 1);
  }

  lemma {:induction false} OverriddenNext<V>(base: (string, seq<V>) -> V, nodes: seq<NodeKey>, given: map<nat, V>, m: nat)
    requires Runnable(nodes) && m < |nodes|
    ensures Below(nodes[m].Inputs(), m) && (nodes[m].Stage? ==> StageOk(nodes[m].members, |nodes[m].Inputs()|))
    ensures var before, after := Overridden(base, nodes, given, m), Overridden(base, nodes, given, m + 1);
      && before == after[..m]
      && after[m] == if m in given then given[m] else NodeValue(base, nodes[m], Gather(before, nodes[m].Inputs()))
  {
    hide NodeKey.Token, NodeValue, StageOk;
    assert Below(nodes[m].Inputs(), m);
  }

  lemma {:induction false} OverriddenPrefix<V>(base: (string, seq<V>) -> V, nodes: seq<NodeKey>, given: map<nat, V>, m: nat)
    requires Runnable(nodes) && m <= |nodes|
    ensures Overridden(base, nodes, given, m) == Overridden(base, nodes, given, |nodes|)[..m]
    decreases |nodes| - m
  {
    hide NodeKey.Token, NodeValue, Overridden, Runnable;
    var all := Overridden(base, nodes, given, |nodes|);
    if m < |nodes| {
      OverriddenPrefix(base, nodes, given, m + 1);
      OverriddenNext(base, nodes, given, m);
      assert all[..m + 1][..m] == all[..m];
    } else {
      assert all[..m] == all;
    }
  }

  lemma {:induction false} FirstFaultStays<V, E>(base: (string, seq<V>) -> V, faults: Faults<V, E>, nodes: seq<NodeKey>,
                                                 given: map<nat, V>, run: set<nat>, m: nat)
    requires Runnable(nodes) && m <= |nodes| && FirstFault(base, faults, nodes, given, run, m).Some?
    ensures FirstFault(base, faults, nodes, given, run, |nodes|) == FirstFault(base, faults, nodes, given, run, m)
    decreases |nodes| - m
  {
    hide NodeKey.Token, FirstFault, Runnable;
    if m < |nodes| {
      FirstFaultNext(base, faults, nodes, given, run, m);
      FirstFaultStays(base, faults, nodes, given, run, m + 1);
    }
  }

  lemma {:induction false} FirstFaultNext<V, E>(base: (string, seq<V>) -> V, faults: Faults<V, E>, nodes: seq<NodeKey>,
                                                given: map<nat, V>, run: set<nat>, m: nat)
    requires Runnable(nodes) && m < |nodes| && FirstFault(base, faults, nodes, given, run, m).Some?
    ensures FirstFault(base, faults, nodes, given, run, m + 1) == FirstFault(base, faults, nodes, given, run, m)
  {
    hide NodeKey.Token, NodeFault, Overridden, Runnable;
  }

  // ---- what a failure says ----------------------------------------------------------------------

  /** Member `k` does not fail over the values it reads. */
  ghost predicate MemberSucceeds<V, E>(base: (string, seq<V>) -> V, faults: Faults<V, E>, members: seq<StageOp>, ins: seq<V>, k: nat)
    requires StageOk(members, |ins|) && k < |members|
  {
    assert RefsOk(members[k].refs, |ins|, k);
    faults(members[k].token, RefValues(members[k].refs, ins, MemberValues(base, members, ins, k))).None?
  }

  /** Neither the node's dispatch fails nor any of its members. */
  ghost predicate Succeeds<V, E>(base: (string, seq<V>) -> V, faults: Faults<V, E>, key: NodeKey, ins: seq<V>)
    requires key.Stage? ==> StageOk(key.members, |ins|)
  {
    if key.Stage? then forall k :: 0 <= k < |key.members| ==> MemberSucceeds(base, faults, key.members, ins, k)
    else faults(key.Token(), ins).None?
  }

  /** The node fails with `cause`: in its own dispatch, or in `member`, the members before it not failing. */
  ghost predicate FailsSo<V, E>(base: (string, seq<V>) -> V, faults: Faults<V, E>, key: NodeKey, ins: seq<V>, member: Option<nat>, cause: E)
    requires key.Stage? ==> StageOk(key.members, |ins|)
  {
    match member
    case None => !key.Stage? && faults(key.Token(), ins) == Some(cause)
    case Some(k) =>
      && key.Stage? && k < |key.members| && RefsOk(key.members[k].refs, |ins|, k)
      && (forall j :: 0 <= j < k ==> MemberSucceeds(base, faults, key.members, ins, j))
      && faults(key.members[k].token, RefValues(key.members[k].refs, ins, MemberValues(base, key.members, ins, k))) == Some(cause)
  }

  /** The values node `i` reads, none of them dropped. */
  ghost function Reads<V>(base: (string, seq<V>) -> V, nodes: seq<NodeKey>, given: map<nat, V>, i: nat): (ins: seq<V>)
    requires Runnable(nodes) && i < |nodes|
    ensures nodes[i].Stage? ==> StageOk(nodes[i].members, |ins|)
  {
    assert Below(nodes[i].Inputs(), i);
    Gather(Overridden(base, nodes, given, |nodes|), nodes[i].Inputs())
  }

  ghost predicate SucceedsAt<V, E>(base: (string, seq<V>) -> V, faults: Faults<V, E>, nodes: seq<NodeKey>, given: map<nat, V>, i: nat)
    requires Runnable(nodes)
  {
    i < |nodes| ==> Succeeds(base, faults, nodes[i], Reads(base, nodes, given, i))
  }

  /** `f` is the address and the cause of the first failure among the nodes `run`. */
  ghost predicate FirstFailing<V, E>(base: (string, seq<V>) -> V, faults: Faults<V, E>, nodes: seq<NodeKey>, given: map<nat, V>,
                                     run: set<nat>, f: Failure<E>)
    requires Runnable(nodes)
  {
    && f.node in run && f.node < |nodes|
    && (forall i: nat :: i in run && i < f.node ==> SucceedsAt(base, faults, nodes, given, i))
    && FailsSo(base, faults, nodes[f.node], Reads(base, nodes, given, f.node), f.member, f.cause)
  }

  lemma {:induction false} StageFaultIs<V, E>(base: (string, seq<V>) -> V, faults: Faults<V, E>, members: seq<StageOp>, ins: seq<V>, m: nat)
    requires StageOk(members, |ins|) && m <= |members|
    ensures match StageFault(base, faults, members, ins, m)
      case None => forall k :: 0 <= k < m ==> MemberSucceeds(base, faults, members, ins, k)
      case Some(at) =>
        && at.0 < m && RefsOk(members[at.0].refs, |ins|, at.0)
        && (forall j :: 0 <= j < at.0 ==> MemberSucceeds(base, faults, members, ins, j))
        && faults(members[at.0].token, RefValues(members[at.0].refs, ins, MemberValues(base, members, ins, at.0))) == Some(at.1)
  {
    if m > 0 {
      StageFaultIs(base, faults, members, ins, m - 1);
      assert RefsOk(members[m - 1].refs, |ins|, m - 1);
    }
  }

  /** A node's failure is its own, or its first failing member's. */
  lemma {:induction false} NodeFaultIs<V, E>(base: (string, seq<V>) -> V, faults: Faults<V, E>, nid: nat, key: NodeKey, ins: seq<V>)
    requires key.Stage? ==> StageOk(key.members, |ins|)
    ensures match NodeFault(base, faults, nid, key, ins)
      case None => Succeeds(base, faults, key, ins)
      case Some(f) => f.node == nid && FailsSo(base, faults, key, ins, f.member, f.cause)
  {
    hide NodeKey.Token, StageFault, MemberSucceeds;
    if key.Stage? { StageFaultIs(base, faults, key.members, ins, |key.members|); }
  }

  /** The first failure of a run is at the first running node that fails; without one, no running node fails. */
  lemma {:induction false} FirstFaultIs<V, E>(base: (string, seq<V>) -> V, faults: Faults<V, E>, nodes: seq<NodeKey>,
                                              given: map<nat, V>, run: set<nat>, m: nat)
    requires Runnable(nodes) && m <= |nodes|
    ensures match FirstFault(base, faults, nodes, given, run, m)
      case None => forall i: nat :: i in run && i < m ==> SucceedsAt(base, faults, nodes, given, i)
      case Some(f) => f.node < m && FirstFailing(base, faults, nodes, given, run, f)
  {
    hide NodeKey.Token, NodeFault, Overridden, Succeeds, FailsSo, StageOk, Reads, FirstFault;
    FirstFaultSteps(base, faults, nodes, given, run, m);
    if m > 0 {
      FirstFaultIs(base, faults, nodes, given, run, m - 1);
      if FirstFault(base, faults, nodes, given, run, m - 1).None? && m - 1 in run {
        NodeFaultIs(base, faults, m - 1, nodes[m - 1], Reads(base, nodes, given, m - 1));
      }
    }
  }

  lemma FirstFaultSteps<V, E>(base: (string, seq<V>) -> V, faults: Faults<V, E>, nodes: seq<NodeKey>, given: map<nat, V>,
                              run: set<nat>, m: nat)
    requires Runnable(nodes) && m <= |nodes|
    ensures m == 0 ==> FirstFault(base, faults, nodes, given, run, m).None?
    ensures m > 0 ==>
      FirstFault(base, faults, nodes, given, run, m)
        == if FirstFault(base, faults, nodes, given, run, m - 1).Some? || m - 1 !in run
           then FirstFault(base, faults, nodes, given, run, m - 1)
           else NodeFault(base, faults, m - 1, nodes[m - 1], Reads(base, nodes, given, m - 1))
  {
    hide NodeKey.Token, NodeFault, Overridden, Reads, StageOk;
    if m > 0 { ReadsEarlier(base, nodes, given, m - 1); }
  }

  lemma {:induction false} ReadsEarlier<V>(base: (string, seq<V>) -> V, nodes: seq<NodeKey>, given: map<nat, V>, i: nat)
    requires Runnable(nodes) && i < |nodes|
    ensures Below(nodes[i].Inputs(), i)
    ensures Reads(base, nodes, given, i) == Gather(Overridden(base, nodes, given, i), nodes[i].Inputs())
  {
    hide NodeKey.Token, Overridden, StageOk;
    OverriddenPrefix(base, nodes, given, i);
    assert Below(nodes[i].Inputs(), i);
  }

  /** That determines the failure. */
  lemma {:induction false} FirstFailingUnique<V, E>(base: (string, seq<V>) -> V, faults: Faults<V, E>, nodes: seq<NodeKey>,
                                                    given: map<nat, V>, run: set<nat>, f: Failure<E>, g: Failure<E>)
    requires Runnable(nodes) && FirstFailing(base, faults, nodes, given, run, f) && FirstFailing(base, faults, nodes, given, run, g)
    ensures f == g
  {
    hide NodeKey.Token, Overridden, StageOk, Reads, Succeeds, MemberSucceeds;
    FailingNode(base, faults, nodes[f.node], Reads(base, nodes, given, f.node), f.member, f.cause);
    FailingNode(base, faults, nodes[g.node], Reads(base, nodes, given, g.node), g.member, g.cause);
    assert f.node == g.node;
  }

  lemma FailingMember<V, E>(base: (string, seq<V>) -> V, faults: Faults<V, E>, members: seq<StageOp>, ins: seq<V>, k: nat)
    requires StageOk(members, |ins|) && k < |members| && RefsOk(members[k].refs, |ins|, k)
    requires faults(members[k].token, RefValues(members[k].refs, ins, MemberValues(base, members, ins, k))).Some?
    ensures !MemberSucceeds(base, faults, members, ins, k)
  {
    hide MemberValues, RefValues, StageOk;
  }

  /** A failing node does not succeed, nor does its failing member. */
  lemma FailingNode<V, E>(base: (string, seq<V>) -> V, faults: Faults<V, E>, key: NodeKey, ins: seq<V>, member: Option<nat>, cause: E)
    requires key.Stage? ==> StageOk(key.members, |ins|)
    requires FailsSo(base, faults, key, ins, member, cause)
    ensures !Succeeds(base, faults, key, ins)
    ensures key.Stage? ==> member.Some? && member.value < |key.members| && !MemberSucceeds(base, faults, key.members, ins, member.value)
  {
    hide NodeKey.Token, MemberValues, RefValues, MemberSucceeds, StageOk;
    if member.Some? { FailingMember(base, faults, key.members, ins, member.value); }
  }

  // ---- running a graph --------------------------------------------------------------------------

  /** The nodes that run: those the wanted ones depend on without passing a given one, and with neither
      outputs nor values given, all of them. */
  ghost predicate Runs(nodes: seq<NodeKey>, wanted: seq<nat>, cut: bool, given: set<nat>, i: nat)
    requires Arena(nodes) && Below(wanted, |nodes|)
  {
    i < |nodes| && i !in given && (cut ==> InCut(InputsOf(nodes), wanted, given, i))
  }

  ghost predicate RunSet(nodes: seq<NodeKey>, wanted: seq<nat>, cut: bool, given: set<nat>, run: set<nat>)
    requires Arena(nodes) && Below(wanted, |nodes|)
  {
    forall i: nat :: i in run <==> Runs(nodes, wanted, cut, given, i)
  }

  /** What the nodes that run read. */
  function ReadBy(nodes: seq<NodeKey>, run: set<nat>): (r: seq<seq<nat>>)
    ensures |r| == |nodes|
    ensures forall i :: 0 <= i < |nodes| ==> r[i] == if i in run then nodes[i].Inputs() else []
  {
    seq(|nodes|, i requires 0 <= i < |nodes| => if i in run then nodes[i].Inputs() else [])
  }

  /** Everything a running node reads, and everything wanted, runs or is given. */
  lemma ReadRunsOrGiven(nodes: seq<NodeKey>, wanted: seq<nat>, cut: bool, given: set<nat>, run: set<nat>, from: nat, i: nat)
    requires Arena(nodes) && Below(wanted, |nodes|) && RunSet(nodes, wanted, cut, given, run)
    requires i in Live(ReadBy(nodes, run), SetOf(wanted), from)
    ensures i < |nodes| && (i in run || i in given)
  {
    hide NodeKey.Token;
    var w := InputsOf(nodes);
    if i in wanted {
      var r := IndexOf(wanted, i);
      assert Sees(w, given, wanted[r], i);
    } else {
      var c :| from <= c < |nodes| && i in ReadBy(nodes, run)[c];
      assert Runs(nodes, wanted, cut, given, c);
      assert Below(nodes[c].Inputs(), c);
      var k := IndexOf(nodes[c].Inputs(), i);
      if cut {
        NextInCut(w, wanted, given, c);
        assert InCut(w, wanted, given, w[c][k]);
      }
    }
  }

  /** What a node reads is still held when it runs. */
  function ReadInputs<V>(ins: seq<nat>, vals: seq<Option<V>>, ghost full: seq<V>): (r: seq<V>)
    requires Below(ins, |vals|) && |vals| <= |full|
    requires forall k :: 0 <= k < |ins| ==> vals[ins[k]] == Some(full[ins[k]])
    ensures r == Gather(full[..|vals|], ins)
  {
    var r := seq(|ins|, k requires 0 <= k < |ins| => vals[ins[k]].value);
    assert r == Gather(full[..|vals|], ins);
    r
  }

  /** One dispatch per node, a stage's members inline. */
  method EvaluateNode<V, E>(base: (string, seq<V>) -> V, faults: Faults<V, E>, nid: nat, key: NodeKey, ins: seq<V>)
    returns (r: Result<V, Failure<E>>)
    requires key.Stage? ==> StageOk(key.members, |ins|)
    ensures r == match NodeFault(base, faults, nid, key, ins) case Some(e) => Err(e) case None => Ok(NodeValue(base, key, ins))
    ensures r.Err? ==> r.error.node == nid && FailsSo(base, faults, key, ins, r.error.member, r.error.cause)
    ensures r.Ok? ==> Succeeds(base, faults, key, ins)
  {
    hide NodeKey.Token, FailsSo, Succeeds;
    NodeFaultIs(base, faults, nid, key, ins);
    if key.Stage? {
      ghost var held;
      r, held := EvaluateStage(base, faults, nid, key.members, ins);
    } else {
      var e := faults(key.Token(), ins);
      r := if e.Some? then Err(Failure(nid, None, e.value)) else Ok(base(key.Token(), ins));
    }
  }

  lemma {:induction false} NoFaultAtAll<V, E>(base: (string, seq<V>) -> V, faults: Faults<V, E>, nodes: seq<NodeKey>,
                                              given: map<nat, V>, run: set<nat>)
    requires Runnable(nodes)
    ensures FirstFault(base, faults, nodes, given, run, 0).None?
  {
  }

  /** What node `nid` contributes, when none before it failed. */
  lemma {:induction false} NodeStep<V, E>(base: (string, seq<V>) -> V, faults: Faults<V, E>, nodes: seq<NodeKey>,
                                          given: map<nat, V>, run: set<nat>, nid: nat)
    requires Runnable(nodes) && nid < |nodes| && FirstFault(base, faults, nodes, given, run, nid).None?
    ensures var full := Overridden(base, nodes, given, |nodes|); var key := nodes[nid];
      && Below(key.Inputs(), nid) && (key.Stage? ==> StageOk(key.members, |key.Inputs()|))
      && var ins := Gather(full[..nid], key.Inputs());
         full[nid] == (if nid in given then given[nid] else NodeValue(base, key, ins))
         && FirstFault(base, faults, nodes, given, run, nid + 1) == if nid in run then NodeFault(base, faults, nid, key, ins) else None
  {
    hide NodeKey.Token, NodeValue, NodeFault, StageOk, Overridden;
    var full := Overridden(base, nodes, given, |nodes|);
    assert Below(nodes[nid].Inputs(), nid);
    OverriddenPrefix(base, nodes, given, nid);
    OverriddenNext(base, nodes, given, nid);
    OverriddenPrefix(base, nodes, given, nid + 1);
    assert full[..nid + 1][nid] == full[nid];
  }

  lemma NothingHeld<V>(full: seq<V>, live: set<nat>)
    ensures Holds([], full, live)
  {
  }

  lemma ReadsAreEarlier(nodes: seq<NodeKey>, run: set<nat>, keep: set<nat>)
    requires Arena(nodes)
    ensures forall c: nat, i: nat :: ReleasedAt(ReadBy(nodes, run), keep, i, c) ==> i < c
  {
    hide NodeKey.Token;
    forall c: nat, i: nat | ReleasedAt(ReadBy(nodes, run), keep, i, c) ensures i < c {
      assert Below(nodes[c].Inputs(), c);
      assert nodes[c].Inputs()[IndexOf(nodes[c].Inputs(), i)] == i;
    }
  }

  lemma SkippedReadsNothing(nodes: seq<NodeKey>, run: set<nat>, keep: set<nat>, nid: nat)
    requires nid < |nodes| && nid !in run
    ensures forall i: nat :: !ReleasedAt(ReadBy(nodes, run), keep, i, nid)
  {
  }

  lemma NothingSpent<V>(inputs: seq<seq<nat>>, keep: set<nat>)
    ensures Spent<V>(inputs, keep, [], 0) && HoldsOnlyLive<V>(inputs, keep, [])
  {
  }

  lemma DropsNothing<V>(vals: seq<Option<V>>)
    ensures Dropped(vals, [], vals)
  {
  }

  lemma WantedHeld<V>(inputs: seq<seq<nat>>, wanted: seq<nat>, vals: seq<Option<V>>, full: seq<V>)
    requires Holds(vals, full, Live(inputs, SetOf(wanted), |inputs|)) && Below(wanted, |vals|)
    ensures forall k :: 0 <= k < |wanted| ==> vals[wanted[k]] == Some(full[wanted[k]])
  {
    forall k | 0 <= k < |wanted| ensures vals[wanted[k]] == Some(full[wanted[k]]) {
      assert wanted[k] in SetOf(wanted);
    }
  }

  /** What a running node reads is live when it runs, so held. */
  lemma InputsHeld<V>(inputs: seq<seq<nat>>, keep: set<nat>, vals: seq<Option<V>>, full: seq<V>, nodes: seq<NodeKey>, run: set<nat>, nid: nat)
    requires inputs == ReadBy(nodes, run) && nid in run && nid < |nodes| && |vals| == nid && Below(nodes[nid].Inputs(), nid)
    requires Holds(vals, full, Live(inputs, keep, nid))
    ensures forall k :: 0 <= k < |nodes[nid].Inputs()| ==> vals[nodes[nid].Inputs()[k]] == Some(full[nodes[nid].Inputs()[k]])
  {
    hide NodeKey.Token;
    var ins := nodes[nid].Inputs();
    forall k | 0 <= k < |ins| ensures vals[ins[k]] == Some(full[ins[k]]) {
      assert ins[k] in inputs[nid];
    }
  }

  lemma LiveShrinks(inputs: seq<seq<nat>>, keep: set<nat>, from: nat, i: nat)
    requires i in Live(inputs, keep, from + 1)
    ensures i in Live(inputs, keep, from)
  {
    hide Live;
  }

  /** A skipped node that anyone still reads is a given one. */
  lemma SkippedHeld<V>(nodes: seq<NodeKey>, wanted: seq<nat>, cut: bool, given: map<nat, V>, run: set<nat>, vals: seq<Option<V>>, full: seq<V>, nid: nat)
    requires Arena(nodes) && Below(wanted, |nodes|) && RunSet(nodes, wanted, cut, given.Keys, run)
    requires nid < |nodes| == |full| && nid !in run && |vals| == nid + 1
    requires Holds(vals[..nid], full, Live(ReadBy(nodes, run), SetOf(wanted), nid))
    requires vals[nid] == (if nid in given then Some(given[nid]) else None) && (nid in given ==> full[nid] == given[nid])
    ensures Holds(vals, full, Live(ReadBy(nodes, run), SetOf(wanted), nid + 1))
  {
    hide NodeKey.Token, RunSet, Live, ReadBy, SetOf, InCut;
    var inputs, keep := ReadBy(nodes, run), SetOf(wanted);
    forall i: nat | i in Live(inputs, keep, nid + 1) && i < |vals| ensures vals[i] == Some(full[i]) {
      if i < nid {
        LiveShrinks(inputs, keep, nid, i);
        assert vals[..nid][i] == vals[i];
      } else {
        ReadRunsOrGiven(nodes, wanted, cut, given.Keys, run, nid + 1, i);
      }
    }
  }

  /** Which nodes run. */
  method RunningNodes(nodes: seq<NodeKey>, wanted: seq<nat>, cut: bool, given: set<nat>) returns (run: set<nat>)
    requires Arena(nodes) && Below(wanted, |nodes|)
    ensures RunSet(nodes, wanted, cut, given, run)
    ensures run !! given
  {
    hide InCut;
    var cone := {};
    if cut {
      cone := IrCone(nodes, wanted, given);
    }
    run := {};
    for nid := 0 to |nodes|
      invariant forall i: nat :: i in run <==> i < nid && Runs(nodes, wanted, cut, given, i)
    {
      if nid !in given && (cut ==> nid in cone) {
        run := run + {nid};
      }
    }
  }

  lemma RunIsBelow(nodes: seq<NodeKey>, wanted: seq<nat>, cut: bool, given: set<nat>, run: set<nat>)
    requires Arena(nodes) && Below(wanted, |nodes|) && RunSet(nodes, wanted, cut, given, run)
    ensures forall i: nat :: i in run ==> i < |nodes|
  {
  }

  /** `evaluate_ir`: the nodes that run, in id order, each value dropped after its last reader. It never
      reads a dropped value; what it returns is what evaluating with everything kept gives, or the first
      failure among the nodes that run; and what it holds after each node is only what is still needed. */
  method EvaluateIr<V, E>(base: (string, seq<V>) -> V, faults: Faults<V, E>, nodes: seq<NodeKey>, wanted: seq<nat>,
                          cut: bool, given: map<nat, V>)
    returns (r: Result<seq<V>, Failure<E>>, ghost run: set<nat>, ghost held: seq<seq<Option<V>>>)
    requires Runnable(nodes) && Below(wanted, |nodes|) && (given != map[] ==> cut)
    ensures RunSet(nodes, wanted, cut, given.Keys, run)
    ensures r == Outcome(base, faults, nodes, wanted, given, run)
    ensures r.Err? ==> FirstFailing(base, faults, nodes, given, run, r.error)
    ensures r.Ok? ==> forall i: nat :: i in run ==> SucceedsAt(base, faults, nodes, given, i)
    ensures r.Ok? ==> |held| == |nodes| && HoldsOnlyLive(ReadBy(nodes, run), SetOf(wanted), held)
  {
    hide NodeKey.Token, Overridden, FirstFault, NodeValue, NodeFault, Live, Runs, RunSet, Holds, ReleasedAt, SetOf, ReadBy,
         Spent, Dropped, HoldsOnlyLive, FirstFailing, SucceedsAt;
    var running := RunningNodes(nodes, wanted, cut, given.Keys);
    run := running;
    var inputs := ReadBy(nodes, running);
    ghost var keep := SetOf(wanted);
    var release := LastConsumers(inputs, SetOf(wanted));
    ghost var full := Overridden(base, nodes, given, |nodes|);
    var vals: seq<Option<V>> := [];
    held := [];
    NoFaultAtAll(base, faults, nodes, given, run);
    ReadsAreEarlier(nodes, run, keep);
    NothingSpent<V>(inputs, keep);
    NothingHeld(full, Live(inputs, keep, 0));
    for nid := 0 to |nodes|
      invariant |vals| == nid && Holds(vals, full, Live(inputs, keep, nid))
      invariant |held| == nid && HoldsOnlyLive(inputs, keep, held) && Spent(inputs, keep, vals, nid)
      invariant FirstFault(base, faults, nodes, given, run, nid).None?
    {
      NodeStep(base, faults, nodes, given, run, nid);
      ghost var before := vals;
      if nid !in running {
        SkippedReadsNothing(nodes, run, keep, nid);
        vals := vals + [if nid in given then Some(given[nid]) else None];
        DropsNothing(vals);
        SpentMore(inputs, keep, before, vals[nid], [], vals);
        SkippedHeld(nodes, wanted, cut, given, run, vals, full, nid);
      } else {
        InputsHeld(inputs, keep, vals, full, nodes, run, nid);
        var ins := ReadInputs(nodes[nid].Inputs(), vals, full);
        var v := EvaluateNode(base, faults, nid, nodes[nid], ins);
        if v.Err? {
          FirstFaultStays(base, faults, nodes, given, run, nid + 1);
          FirstFaultIs(base, faults, nodes, given, run, |nodes|);
          return Err(v.error), run, held;
        }
        MemberHeld(vals, v.value, full, inputs, keep, nid);
        vals := vals + [Some(v.value)];
        vals := Drop(vals, Released(release, nid), full, inputs, keep, nid);
        SpentMore(inputs, keep, before, Some(v.value), Released(release, nid), vals);
      }
      HeldMore(inputs, keep, held, vals);
      held := held + [vals];
    }
    FirstFaultIs(base, faults, nodes, given, run, |nodes|);
    RunIsBelow(nodes, wanted, cut, given.Keys, run);
    WantedHeld(inputs, wanted, vals, full);
    var outs := ReadInputs(wanted, vals, full);
    assert full[..|nodes|] == full;
    return Ok(outs), run, held;
  }

  // ---- what runs, and what is held --------------------------------------------------------------

  /** A node runs exactly when it is not given and, under a cut, some wanted node depends on it along a path
      through no given node. */
  lemma {:induction false} RunsByPath(nodes: seq<NodeKey>, wanted: seq<nat>, cut: bool, given: set<nat>, i: nat)
    requires Arena(nodes) && Below(wanted, |nodes|)
    ensures Runs(nodes, wanted, cut, given, i) <==>
      (i < |nodes| && i !in given
       && (cut ==> exists p :: Paths.Path(InputsOf(nodes), given, p) && p[0] in wanted && p[|p| - 1] == i))
  {
    hide NodeKey.Token, Paths.Hop, Sees;
    var w := InputsOf(nodes);
    if r :| 0 <= r < |wanted| && Sees(w, given, wanted[r], i) {
      var p := Paths.SeenPath(w, given, wanted[r], i);
    }
    if p :| Paths.Path(w, given, p) && p[0] in wanted && p[|p| - 1] == i {
      Paths.PathSees(w, given, p);
      assert Sees(w, given, wanted[IndexOf(wanted, p[0])], i);
    }
  }

  /** A value read at all is read last by some consumer. */
  lemma {:induction false} LastReader(inputs: seq<seq<nat>>, i: nat, c: nat, m: nat) returns (last: nat)
    requires c < m <= |inputs| && i in inputs[c]
    ensures c <= last < m && i in inputs[last] && forall d :: last < d < m ==> i !in inputs[d]
    decreases m
  {
    if i in inputs[m - 1] { last := m - 1; } else { last := LastReader(inputs, i, c, m - 1); }
  }

  /** After consumer `k`, a value still held is kept, is read again later, or was never read. */
  lemma {:induction false} HeldIsLive<V>(inputs: seq<seq<nat>>, keep: set<nat>, held: seq<seq<Option<V>>>, k: nat, i: nat)
    requires HoldsOnlyLive(inputs, keep, held) && k < |held| <= |inputs| && i <= k && |held[k]| == k + 1 && held[k][i].Some?
    ensures i in keep || (exists c :: k < c < |inputs| && i in inputs[c]) || (forall c :: 0 <= c <= k ==> i !in inputs[c])
  {
    if c :| 0 <= c <= k && i in inputs[c] {
      var last := LastReader(inputs, i, c, |inputs|);
      assert Spent(inputs, keep, held[k], k + 1);
      assert last <= k && i !in keep ==> ReleasedAt(inputs, keep, i, last);
    }
  }

  /** The values a run works with: the given ones, and what each other node's operator makes of its inputs. */
  lemma {:induction false} ValuesOfRun<V>(base: (string, seq<V>) -> V, nodes: seq<NodeKey>, given: map<nat, V>, i: nat)
    requires Runnable(nodes) && i < |nodes|
    ensures var vs := Overridden(base, nodes, given, |nodes|); var key := nodes[i]; var ins := Reads(base, nodes, given, i);
      vs[i] ==
        if i in given then given[i]
        else if key.Stage? then MemberValues(base, key.members, ins, |key.members|)[|key.members| - 1]
        else base(key.Token(), ins)
  {
    hide NodeKey.Token, Overridden;
    OverriddenNext(base, nodes, given, i);
    OverriddenPrefix(base, nodes, given, i + 1);
    ReadsEarlier(base, nodes, given, i);
    var vs := Overridden(base, nodes, given, |nodes|);
    assert vs[..i + 1][i] == vs[i];
  }

  // ---- what it returns --------------------------------------------------------------------------

  /** A node that is no stage is worth what its backend says. */
  lemma {:induction false} RunOfNode<V>(base: (string, seq<V>) -> V, key: NodeKey, ins: seq<V>)
    requires key.Stage? ==> StageOk(key.members, |ins|)
    ensures Run(base, key.Token(), ins) == NodeValue(base, key, ins)
  {
    hide NodeKey.Token;
    if key.Stage? {
      TokenOfStage(key);
      RunOfStage(base, key.members, ins);
    } else {
      forall ms ensures !RunsStage(key.Token(), |ins|, ms) {
        var stage := Stage([], ms);
        TokenOfStage(stage);
        TokenIsOperator(key, stage);
      }
    }
  }

  /** Given values that are true, cutting at them changes no value. */
  lemma {:induction false} GivenTruthKeepsValues<V(!new)>(base: (string, seq<V>) -> V, nodes: seq<NodeKey>, given: map<nat, V>, m: nat)
    requires Runnable(nodes) && m <= |nodes|
    requires forall i: nat :: i in given && i < |nodes| ==> given[i] == Values(base, ToEngine(nodes))[i]
    ensures Overridden(base, nodes, given, m) == Values(base, ToEngine(nodes))[..m]
  {
    hide NodeKey.Token, Fold, NodeValue, Values, Runnable, Overridden, Arena;
    if m > 0 {
      GivenTruthKeepsValues(base, nodes, given, m - 1);
      GivenTruthNext(base, nodes, given, m);
    }
  }

  lemma {:induction false} GivenTruthNext<V(!new)>(base: (string, seq<V>) -> V, nodes: seq<NodeKey>, given: map<nat, V>, m: nat)
    requires Runnable(nodes) && 0 < m <= |nodes|
    requires m - 1 in given ==> given[m - 1] == Values(base, ToEngine(nodes))[m - 1]
    requires Overridden(base, nodes, given, m - 1) == Values(base, ToEngine(nodes))[..m - 1]
    ensures Overridden(base, nodes, given, m) == Values(base, ToEngine(nodes))[..m]
  {
    hide NodeKey.Token, Fold, NodeValue, Values, Runnable, Overridden, Arena, StageOk;
    RunnableIsArena(nodes);
    PlainNode(base, nodes, m - 1);
    OverriddenStep(base, nodes, given, m);
    TakeMore(Values(base, ToEngine(nodes)), m - 1);
  }

  /** Evaluating everything gives each node its operator over its inputs' values. */
  lemma {:induction false} PlainNode<V(!new)>(base: (string, seq<V>) -> V, nodes: seq<NodeKey>, i: nat)
    requires Runnable(nodes) && i < |nodes|
    ensures var vs := Values(base, ToEngine(nodes)); var key := nodes[i];
      && Below(key.Inputs(), i) && (key.Stage? ==> StageOk(key.members, |key.Inputs()|))
      && vs[i] == NodeValue(base, key, Gather(vs[..i], key.Inputs()))
  {
    hide NodeKey.Token, Fold, NodeValue, Run;
    var g := ToEngine(nodes);
    var vs := Values(base, g);
    var key := nodes[i];
    assert Below(key.Inputs(), i);
    FoldIsFold(Meaning(base), g);
    assert g[i] == ToEngineNode(key);
    assert Gather(vs[..i], key.Inputs()) == Gather(vs, key.Inputs());
    RunOfNode(base, key, Gather(vs, key.Inputs()));
  }

  /** The cut computes the wanted values that evaluating everything and keeping it would. */
  lemma {:induction false} CutKeepsValues<V(!new)>(base: (string, seq<V>) -> V, nodes: seq<NodeKey>, wanted: seq<nat>, given: map<nat, V>)
    requires Runnable(nodes) && Below(wanted, |nodes|)
    requires forall i: nat :: i in given && i < |nodes| ==> given[i] == Values(base, ToEngine(nodes))[i]
    ensures Gather(Overridden(base, nodes, given, |nodes|), wanted) == Gather(Values(base, ToEngine(nodes)), wanted)
  {
    hide NodeKey.Token, Fold, Overridden;
    GivenTruthKeepsValues(base, nodes, given, |nodes|);
    assert Values(base, ToEngine(nodes))[..|nodes|] == Values(base, ToEngine(nodes));
  }

  lemma {:induction false} FirstFaultStep<V, E>(base: (string, seq<V>) -> V, faults: Faults<V, E>, nodes: seq<NodeKey>,
                                                given: map<nat, V>, run: set<nat>, m: nat)
    requires Runnable(nodes) && 0 < m <= |nodes|
    ensures var vs := Overridden(base, nodes, given, m - 1); var key := nodes[m - 1];
      && Below(key.Inputs(), m - 1) && (key.Stage? ==> StageOk(key.members, |key.Inputs()|))
      && var before := FirstFault(base, faults, nodes, given, run, m - 1);
         FirstFault(base, faults, nodes, given, run, m)
         == if before.Some? || m - 1 !in run then before else NodeFault(base, faults, m - 1, key, Gather(vs, key.Inputs()))
  {
    hide NodeKey.Token, Overridden, NodeFault, StageOk;
    assert Below(nodes[m - 1].Inputs(), m - 1);
  }

  lemma NoneFailedYet<V, E>(base: (string, seq<V>) -> V, faults: Faults<V, E>, nodes: seq<NodeKey>, given: map<nat, V>, run: set<nat>)
    requires Runnable(nodes)
    ensures FirstFault(base, faults, nodes, given, run, 0).None?
  {
  }

  lemma FaultNames<V, E>(base: (string, seq<V>) -> V, faults: Faults<V, E>, nid: nat, key: NodeKey, ins: seq<V>)
    requires (key.Stage? ==> StageOk(key.members, |ins|)) && NodeFault(base, faults, nid, key, ins).Some?
    ensures NodeFault(base, faults, nid, key, ins).value.node == nid
  {
    hide NodeKey.Token, StageFault;
  }

  lemma {:induction false} FaultIsEarlier<V, E>(base: (string, seq<V>) -> V, faults: Faults<V, E>, nodes: seq<NodeKey>,
                                                given: map<nat, V>, run: set<nat>, m: nat)
    requires Runnable(nodes) && m <= |nodes| && FirstFault(base, faults, nodes, given, run, m).Some?
    ensures 0 < m && FirstFault(base, faults, nodes, given, run, m).value.node < m
  {
    hide NodeKey.Token, NodeKey.Inputs, Overridden, NodeFault, Runnable, StageOk, FirstFault;
    if m == 0 {
      NoneFailedYet(base, faults, nodes, given, run);
    } else {
      FirstFaultStep(base, faults, nodes, given, run, m);
      if FirstFault(base, faults, nodes, given, run, m - 1).Some? {
        FaultIsEarlier(base, faults, nodes, given, run, m - 1);
      } else {
        var key := nodes[m - 1];
        FaultNames(base, faults, m - 1, key, Gather(Overridden(base, nodes, given, m - 1), key.Inputs()));
      }
    }
  }

  /** With true given values the cut fails only where evaluating everything fails, or after. */
  lemma {:induction false} CutFailsLess<V(!new), E>(base: (string, seq<V>) -> V, faults: Faults<V, E>, nodes: seq<NodeKey>,
                                                    given: map<nat, V>, run: set<nat>, m: nat)
    requires Runnable(nodes) && m <= |nodes|
    requires forall i: nat :: i in given && i < |nodes| ==> given[i] == Values(base, ToEngine(nodes))[i]
    requires FirstFault(base, faults, nodes, given, run, m).Some?
    ensures var plain := FirstFault(base, faults, nodes, map[], IdsBelow(|nodes|), m);
      plain.Some? && plain.value.node <= FirstFault(base, faults, nodes, given, run, m).value.node
  {
    hide NodeKey.Token, Fold, Overridden, Values, NodeFault, Runnable, FirstFault, Arena, StageOk;
    RunnableIsArena(nodes);
    FaultIsEarlier(base, faults, nodes, given, run, m);
    var ids := IdsBelow(|nodes|);
    FirstFaultStep(base, faults, nodes, given, run, m);
    FirstFaultStep(base, faults, nodes, map[], ids, m);
    if FirstFault(base, faults, nodes, given, run, m - 1).Some? {
      CutFailsLess(base, faults, nodes, given, run, m - 1);
    } else {
      GivenTruthKeepsValues(base, nodes, given, m - 1);
      GivenTruthKeepsValues(base, nodes, map[], m - 1);
      FaultNames(base, faults, m - 1, nodes[m - 1], Gather(Overridden(base, nodes, given, m - 1), nodes[m - 1].Inputs()));
      if FirstFault(base, faults, nodes, map[], ids, m - 1).Some? {
        FaultIsEarlier(base, faults, nodes, map[], ids, m - 1);
      }
    }
  }

  /** So where evaluating everything and keeping it succeeds, the cut, releasing evaluator returns the same. */
  lemma {:induction false} CutEqualsPlain<V(!new), E>(base: (string, seq<V>) -> V, faults: Faults<V, E>, nodes: seq<NodeKey>,
                                                      wanted: seq<nat>, given: map<nat, V>, run: set<nat>)
    requires Runnable(nodes) && Below(wanted, |nodes|)
    requires forall i: nat :: i in given && i < |nodes| ==> given[i] == Values(base, ToEngine(nodes))[i]
    ensures var plain := Outcome(base, faults, nodes, wanted, map[], IdsBelow(|nodes|));
      && (plain.Ok? ==> Outcome(base, faults, nodes, wanted, given, run) == plain)
      && (Outcome(base, faults, nodes, wanted, given, run).Err? ==>
            plain.Err? && plain.error.node <= Outcome(base, faults, nodes, wanted, given, run).error.node)
    ensures Outcome(base, faults, nodes, wanted, given, run).Ok? ==>
      Outcome(base, faults, nodes, wanted, given, run).value == Gather(Values(base, ToEngine(nodes)), wanted)
  {
    hide NodeKey.Token, Fold, Overridden, Values, FirstFault, Runnable;
    RunnableIsArena(nodes);
    CutKeepsValues(base, nodes, wanted, given);
    CutKeepsValues(base, nodes, wanted, map[]);
    if FirstFault(base, faults, nodes, given, run, |nodes|).Some? {
      CutFailsLess(base, faults, nodes, given, run, |nodes|);
    }
  }
}
