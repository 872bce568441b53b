/** The loops of stage fusion, against the fused graph they build (`fuse_stage` and `stage_fusion`
    of src/optimizer/mod.rs). */
module FusionPass {
  import opened Collections
  import opened Nodes
  import opened Graph
  import opened Components
  import opened Fusion

  /** `at` holds each element's position. */
  ghost predicate IsIndex(at: map<nat, nat>, xs: seq<nat>) {
    forall x: nat {:trigger x in at} :: (x in at <==> x in xs) && (x in at ==> at[x] == IndexOf(xs, x))
  }

  method IndexMap(xs: seq<nat>) returns (at: map<nat, nat>)
    requires Distinct(xs)
    ensures IsIndex(at, xs)
  {
    at := map[];
    for k := 0 to |xs|
      invariant IsIndex(at, xs[..k])
    {
      var more := xs[..k + 1];
      assert more == xs[..k] + [xs[k]] && more[..k] == xs[..k];
      DistinctPrefix(xs, k + 1);
      IndexOfAt(more, k);
      forall x: nat | x in at ensures x in more && IndexOf(more, x) == at[x] { IndexOfPrefix(more, k, x); }
      at := at[xs[k] := k];
    }
    assert xs[..|xs|] == xs;
  }

  // ---- one stage --------------------------------------------------------------------------------

  /** The slots, held by component label, and each label's slot. */
  ghost predicate SlotTable(comp: seq<nat>, heads: seq<nat>, slots: seq<nat>, held: seq<nat>, slotOf: map<nat, nat>) {
    && Labels(comp, heads) && Below(slots, |heads|)
    && (forall k :: 0 <= k < |slots| ==> heads[slots[k]] == slots[k])
    && held == Gather(comp, slots)
    && IsIndex(slotOf, held)
  }

  lemma {:induction false} LabelAt(comp: seq<nat>, heads: seq<nat>, slots: seq<nat>, i: nat)
    requires Labels(comp, heads) && Below(heads, |heads|) && Below(slots, |heads|) && i < |heads|
    requires forall j :: 0 <= j < |heads| ==> heads[heads[j]] == heads[j]
    requires forall k :: 0 <= k < |slots| ==> heads[slots[k]] == slots[k]
    ensures comp[i] == comp[heads[i]]
    ensures comp[i] in Gather(comp, slots) <==> heads[i] in slots
    ensures heads[i] in slots ==> IndexOf(Gather(comp, slots), comp[i]) == IndexOf(slots, heads[i])
  {
    if slots != [] {
      var m := |slots| - 1;
      assert Gather(comp, slots)[..m] == Gather(comp, slots[..m]);
      assert comp[slots[m]] == comp[i] <==> slots[m] == heads[i];
      LabelAt(comp, heads, slots[..m], i);
      assert slots == slots[..m] + [slots[m]];
      assert Gather(comp, slots) == Gather(comp, slots[..m]) + [comp[slots[m]]];
    }
  }

  lemma SlotTableGrows(comp: seq<nat>, heads: seq<nat>, slots: seq<nat>, held: seq<nat>, slotOf: map<nat, nat>, i: nat)
    requires SlotTable(comp, heads, slots, held, slotOf) && Below(heads, |heads|) && i < |heads|
    requires forall j :: 0 <= j < |heads| ==> heads[heads[j]] == heads[j]
    requires comp[i] !in slotOf
    ensures heads[i] !in slots
    ensures SlotTable(comp, heads, slots + [heads[i]], held + [comp[i]], slotOf[comp[i] := |held|])
  {
    LabelAt(comp, heads, slots, i);
    var more := held + [comp[i]];
    assert more[..|held|] == held;
    assert IndexOf(more, comp[i]) == |held|;
    forall c | c in held ensures IndexOf(more, c) == IndexOf(held, c) { IndexOfPrefix(more, |held|, c); }
    assert more == Gather(comp, slots + [heads[i]]);
  }

  /** What the loops of one stage are about: its members, and where earlier components went. */
  ghost predicate StageReady(graph: EngineGraph, heads: seq<nat>, h: nat, ops: seq<nat>, comp: seq<nat>)  {
    && Graphed(graph) && FusionPlan(graph, heads) && Labels(comp, heads)
    && h < |heads| && heads[h] == h && ops == Members(heads, h)
  }

  /** One input's reference: an earlier member, or its component's slot, opened if it has none. */
  method ResolveRef(ghost heads: seq<nat>, ghost h: nat, ghost ops: seq<nat>, comp: seq<nat>, local: map<nat, nat>,
                    inp: nat, ghost slots: seq<nat>, held0: seq<nat>, slotOf0: map<nat, nat>)
    returns (r: StageRef, held: seq<nat>, slotOf: map<nat, nat>, ghost more: seq<nat>)
    requires SlotTable(comp, heads, slots, held0, slotOf0) && Below(heads, |heads|) && inp < |heads|
    requires forall j :: 0 <= j < |heads| ==> heads[heads[j]] == heads[j]
    requires IsIndex(local, ops)
    requires heads[inp] == h <==> inp in ops
    ensures more == if heads[inp] == h then slots else Insert(slots, heads[inp])
    ensures SlotTable(comp, heads, more, held, slotOf)
    ensures r == RefTo(heads, h, ops, more, inp)
  {
    held, slotOf, more := held0, slotOf0, slots;
    if inp in local {
      r := Member(local[inp]);
    } else {
      LabelAt(comp, heads, slots, inp);
      if comp[inp] !in slotOf {
        SlotTableGrows(comp, heads, slots, held, slotOf, inp);
        slotOf := slotOf[comp[inp] := |held|];
        held := held + [comp[inp]];
        more := slots + [heads[inp]];
        LabelAt(comp, heads, more, inp);
      }
      r := Input(slotOf[comp[inp]]);
    }
  }

  /** The slots once `j` members are resolved and `k` inputs of the next. */
  ghost function SlotsUpTo(graph: EngineGraph, heads: seq<nat>, h: nat, ops: seq<nat>, comp: seq<nat>, j: nat, k: nat)
      : (slots: seq<nat>)
    requires StageReady(graph, heads, h, ops, comp) && j < |ops| && k <= |graph.nodes[ops[j]].inputs|
  {
    MembersFacts(heads, h);
    OpServed(graph.nodes, heads, h, j);
    InputSlots(heads, h, graph.nodes[ops[j]].inputs[..k], Slots(graph.nodes, heads, h, ops[..j]))
  }

  /** The references a member has in the finished stage. */
  ghost function FinalRefs(graph: EngineGraph, heads: seq<nat>, h: nat, ops: seq<nat>, comp: seq<nat>, j: nat)
      : (refs: seq<StageRef>)
    requires StageReady(graph, heads, h, ops, comp) && j < |ops|
    ensures |refs| == |graph.nodes[ops[j]].inputs|
    ensures j < |StageFor(graph.nodes, heads, h).members| && refs == StageFor(graph.nodes, heads, h).members[j].refs
  {
    MembersFacts(heads, h);
    OpServed(graph.nodes, heads, h, j);
    StageFor(graph.nodes, heads, h).members[j].refs
  }

  /** A member's inputs start from the slots of the members before it, and end at its own. */
  lemma SlotsOfMember(graph: EngineGraph, heads: seq<nat>, h: nat, ops: seq<nat>, comp: seq<nat>, j: nat)
    requires StageReady(graph, heads, h, ops, comp) && j < |ops|
    ensures Below(ops, |graph.nodes|)
    ensures SlotsUpTo(graph, heads, h, ops, comp, j, 0) == Slots(graph.nodes, heads, h, ops[..j])
    ensures SlotsUpTo(graph, heads, h, ops, comp, j, |graph.nodes[ops[j]].inputs|) == Slots(graph.nodes, heads, h, ops[..j + 1])
  {
    hide StageFor, Served;
    MembersFacts(heads, h);
    var inputs := graph.nodes[ops[j]].inputs;
    assert inputs[..|inputs|] == inputs;
    assert ops[..j + 1][..j] == ops[..j];
  }

  /** The next input opens at most its own component's slot. */
  lemma SlotsOfInput(graph: EngineGraph, heads: seq<nat>, h: nat, ops: seq<nat>, comp: seq<nat>, j: nat, k: nat)
    requires StageReady(graph, heads, h, ops, comp) && j < |ops| && k < |graph.nodes[ops[j]].inputs|
    ensures graph.nodes[ops[j]].inputs[k] < |heads|
    ensures var slots := SlotsUpTo(graph, heads, h, ops, comp, j, k); var inp := graph.nodes[ops[j]].inputs[k];
      SlotsUpTo(graph, heads, h, ops, comp, j, k + 1)
        == if heads[inp] == h then slots else Insert<nat>(slots, heads[inp])
  {
    hide StageFor, Served, Slots;
    OpServed(graph.nodes, heads, h, j);
    var inputs := graph.nodes[ops[j]].inputs;
    assert inputs[..k + 1][..k] == inputs[..k];
  }

  lemma {:induction false} SlotsPrefix(g: seq<EngineNode>, heads: seq<nat>, h: nat, ops: seq<nat>, j: nat)
    requires Topological(g) && |heads| == |g| && Below(ops, |g|) && j <= |ops|
    ensures Slots(g, heads, h, ops[..j]) <= Slots(g, heads, h, ops)
  {
    if j < |ops| {
      var m := |ops| - 1;
      SlotsPrefix(g, heads, h, ops[..m], j);
      assert ops[..m][..j] == ops[..j];
    } else {
      assert ops[..j] == ops;
    }
  }

  lemma {:induction false} InputSlotsPrefix(heads: seq<nat>, h: nat, inputs: seq<nat>, slots: seq<nat>, k: nat)
    requires Below(inputs, |heads|) && k <= |inputs|
    ensures InputSlots(heads, h, inputs[..k], slots) <= InputSlots(heads, h, inputs, slots)
  {
    if k < |inputs| {
      var m := |inputs| - 1;
      InputSlotsPrefix(heads, h, inputs[..m], slots, k);
      assert inputs[..m][..k] == inputs[..k];
    } else {
      assert inputs[..k] == inputs;
    }
  }

  lemma {:induction false} SlotsUpToPrefix(graph: EngineGraph, heads: seq<nat>, h: nat, ops: seq<nat>, comp: seq<nat>, j: nat, k: nat)
    requires StageReady(graph, heads, h, ops, comp) && j < |ops| && k <= |graph.nodes[ops[j]].inputs|
    ensures Below(ops, |graph.nodes|)
    ensures SlotsUpTo(graph, heads, h, ops, comp, j, k) <= Slots(graph.nodes, heads, h, ops)
  {
    hide StageFor, Served, Slots, InputSlots;
    MembersFacts(heads, h);
    OpServed(graph.nodes, heads, h, j);
    var inputs := graph.nodes[ops[j]].inputs;
    SlotsOfMember(graph, heads, h, ops, comp, j);
    InputSlotsPrefix(heads, h, inputs, Slots(graph.nodes, heads, h, ops[..j]), k);
    assert inputs[..|inputs|] == inputs;
    SlotsPrefix(graph.nodes, heads, h, ops, j + 1);
  }

  /** A member's reference in the finished stage, read in the finished slots. */
  lemma FinalRefAt(graph: EngineGraph, heads: seq<nat>, h: nat, ops: seq<nat>, comp: seq<nat>, j: nat, k: nat)
    requires StageReady(graph, heads, h, ops, comp) && j < |ops| && k < |graph.nodes[ops[j]].inputs|
    ensures Below(ops, |graph.nodes|)
    ensures var slots := Slots(graph.nodes, heads, h, ops); var inp := graph.nodes[ops[j]].inputs[k];
      && inp < |heads| && (if heads[inp] == h then inp in ops else heads[inp] in slots)
      && FinalRefs(graph, heads, h, ops, comp, j)[k] == RefTo(heads, h, ops, slots, inp)
  {
    hide Slots, InputSlots;
    MembersFacts(heads, h);
    OpServed(graph.nodes, heads, h, j);
    assert FinalRefs(graph, heads, h, ops, comp, j)
        == RefsOf(graph.nodes, heads, h, ops, Slots(graph.nodes, heads, h, ops), ops[j]);
  }

  /** A slot keeps its number from the moment it opens. */
  lemma RefIsFinal(graph: EngineGraph, heads: seq<nat>, h: nat, ops: seq<nat>, comp: seq<nat>, j: nat, k: nat)
    requires StageReady(graph, heads, h, ops, comp) && j < |ops| && k < |graph.nodes[ops[j]].inputs|
    ensures var now := SlotsUpTo(graph, heads, h, ops, comp, j, k + 1); var inp := graph.nodes[ops[j]].inputs[k];
      && inp < |heads| && (heads[inp] == h <==> inp in ops) && (heads[inp] != h ==> heads[inp] in now)
      && FinalRefs(graph, heads, h, ops, comp, j)[k] == RefTo(heads, h, ops, now, inp)
  {
    hide StageFor, Served, Slots, FinalRefs, SlotsUpTo;
    MembersFacts(heads, h);
    FinalRefAt(graph, heads, h, ops, comp, j, k);
    SlotsOfInput(graph, heads, h, ops, comp, j, k);
    SlotsUpToPrefix(graph, heads, h, ops, comp, j, k + 1);
    var inp := graph.nodes[ops[j]].inputs[k];
    var final := Slots(graph.nodes, heads, h, ops);
    var now := SlotsUpTo(graph, heads, h, ops, comp, j, k + 1);
    if heads[inp] != h {
      assert final[..|now|] == now;
      IndexOfPrefix(final, |now|, heads[inp]);
    }
  }

  /** The references of one member, opening a slot for each component first read here. */
  method MemberRefs(graph: EngineGraph, ghost heads: seq<nat>, ghost h: nat, ops: seq<nat>, comp: seq<nat>,
                    local: map<nat, nat>, j: nat, held0: seq<nat>, slotOf0: map<nat, nat>)
    returns (refs: seq<StageRef>, held: seq<nat>, slotOf: map<nat, nat>)
    requires StageReady(graph, heads, h, ops, comp) && j < |ops|
    requires IsIndex(local, ops)
    requires SlotTable(comp, heads, Slots(graph.nodes, heads, h, ops[..j]), held0, slotOf0)
    ensures SlotTable(comp, heads, Slots(graph.nodes, heads, h, ops[..j + 1]), held, slotOf)
    ensures j < |StageFor(graph.nodes, heads, h).members| && refs == StageFor(graph.nodes, heads, h).members[j].refs
  {
    hide StageFor, Served, Slots, InputSlots, FinalRefs, SlotsUpTo, SlotTable, IsIndex, RefTo;
    SlotsOfMember(graph, heads, h, ops, comp, j);
    var inputs := graph.nodes[ops[j]].inputs;
    ghost var final := FinalRefs(graph, heads, h, ops, comp, j);
    ghost var slots := SlotsUpTo(graph, heads, h, ops, comp, j, 0);
    held, slotOf, refs := held0, slotOf0, [];
    for k := 0 to |inputs|
      invariant SlotTable(comp, heads, slots, held, slotOf)
      invariant slots == SlotsUpTo(graph, heads, h, ops, comp, j, k)
      invariant refs == final[..k]
    {
      RefIsFinal(graph, heads, h, ops, comp, j, k);
      SlotsOfInput(graph, heads, h, ops, comp, j, k);
      TakeMore(final, k);
      var r;
      r, held, slotOf, slots := ResolveRef(heads, h, ops, comp, local, inputs[k], slots, held, slotOf);
      refs := refs + [r];
    }
    assert final[..|inputs|] == final;
  }

  /** The components headed below `h` can be looked up. */
  ghost predicate EarlierFound(comp: seq<nat>, heads: seq<nat>, h: nat, at: map<nat, nat>)
    requires Labels(comp, heads) && h < |heads|
  {
    forall s :: 0 <= s < h && heads[s] == s ==> comp[s] in at && at[comp[s]] == Rank(heads, s)
  }

  /** A finished stage, piece by piece. */
  lemma StagePieces(graph: EngineGraph, heads: seq<nat>, h: nat, ops: seq<nat>, comp: seq<nat>)
    requires StageReady(graph, heads, h, ops, comp)
    ensures Below(ops, |graph.nodes|) && Below(Slots(graph.nodes, heads, h, ops), |heads|)
    ensures var stage := StageFor(graph.nodes, heads, h);
      && stage.Stage? && stage.inputs == Ranks(heads, Slots(graph.nodes, heads, h, ops)) && |stage.members| == |ops|
      && forall j :: 0 <= j < |ops| ==> stage.members[j].token == graph.nodes[ops[j]].token
  {
    hide Slots, Ranks, RefsOf, Served;
    MembersFacts(heads, h);
    SlotsAreHeads(graph.nodes, heads, h, ops);
  }

  /** A stage's inputs, looked up by label. */
  lemma HeldSlotsFound(graph: EngineGraph, heads: seq<nat>, h: nat, ops: seq<nat>, comp: seq<nat>, at: map<nat, nat>,
                       held: seq<nat>, slotOf: map<nat, nat>)
    requires StageReady(graph, heads, h, ops, comp) && EarlierFound(comp, heads, h, at)
    requires Below(ops, |graph.nodes|) && SlotTable(comp, heads, Slots(graph.nodes, heads, h, ops), held, slotOf)
    ensures var stage := StageFor(graph.nodes, heads, h);
      && stage.Stage? && |held| == |stage.inputs|
      && forall k :: 0 <= k < |held| ==> held[k] in at && at[held[k]] == stage.inputs[k]
  {
    hide StageFor, Slots, IsIndex;
    StagePieces(graph, heads, h, ops, comp);
    var slots := Slots(graph.nodes, heads, h, ops);
    forall k | 0 <= k < |slots| ensures slots[k] < h && heads[slots[k]] == slots[k] {
      assert slots[k] in slots;
      SlotIsBelow(graph, heads, h, slots[k]);
    }
  }

  lemma NoSlots(graph: EngineGraph, heads: seq<nat>, h: nat, ops: seq<nat>, comp: seq<nat>)
    requires StageReady(graph, heads, h, ops, comp)
    ensures Below(ops, |graph.nodes|) && SlotTable(comp, heads, Slots(graph.nodes, heads, h, ops[..0]), [], map[])
  {
    MembersFacts(heads, h);
  }

  /** The `Stage` of one op component. */
  method FuseStage(graph: EngineGraph, ghost heads: seq<nat>, ghost h: nat, ops: seq<nat>, comp: seq<nat>,
                   compToReduced: map<nat, nat>)
    returns (key: NodeKey)
    requires StageReady(graph, heads, h, ops, comp)
    requires EarlierFound(comp, heads, h, compToReduced)
    ensures key == StageFor(graph.nodes, heads, h)
  {
    MembersFacts(heads, h);
    hide StageFor, Slots, SlotTable, EarlierFound, IsIndex, Distinct, Members, Ascending;
    ghost var stage := StageFor(graph.nodes, heads, h);
    StagePieces(graph, heads, h, ops, comp);
    var local := IndexMap(ops);
    var inputSlots: seq<nat> := [];
    var slotOf: map<nat, nat> := map[];
    var members: seq<StageOp> := [];
    NoSlots(graph, heads, h, ops, comp);
    for j := 0 to |ops|
      invariant SlotTable(comp, heads, Slots(graph.nodes, heads, h, ops[..j]), inputSlots, slotOf)
      invariant members == stage.members[..j]
    {
      var refs;
      refs, inputSlots, slotOf := MemberRefs(graph, heads, h, ops, comp, local, j, inputSlots, slotOf);
      members := members + [StageOp(graph.nodes[ops[j]].token, refs)];
      TakeMore(stage.members, j);
    }
    assert ops[..|ops|] == ops && stage.members[..|ops|] == stage.members;
    HeldSlotsFound(graph, heads, h, ops, comp, compToReduced, inputSlots, slotOf);
    var inputs := seq(|inputSlots|, k requires 0 <= k < |inputSlots| => compToReduced[inputSlots[k]]);
    assert inputs == stage.inputs;
    key := Stage(inputs, members);
  }

  // ---- the whole pass ---------------------------------------------------------------------------

  /** Each label met among the first `m` nodes, with its members so far, ascending. */
  ghost predicate Grouped(comp: seq<nat>, heads: seq<nat>, m: nat, members: map<nat, seq<nat>>)
    requires Labels(comp, heads) && m <= |comp|
  {
    && (forall j :: 0 <= j < m ==> comp[j] in members)
    && (forall c {:trigger members[c]} :: c in members ==>
          c < |heads| && comp[c] == c && members[c] == Picked(InComponent(heads, heads[c]), m))
  }

  lemma {:induction false} PickedNone(heads: seq<nat>, h: nat, m: nat)
    requires m <= |heads| && forall j :: 0 <= j < m ==> heads[j] != h
    ensures Picked(InComponent(heads, h), m) == []
  {
    if m > 0 { PickedNone(heads, h, m - 1); }
  }

  lemma PickedNext(comp: seq<nat>, heads: seq<nat>, i: nat, members: map<nat, seq<nat>>, d: nat)
    requires Labels(comp, heads) && i < |comp| && Grouped(comp, heads, i, members)
    requires d < |heads| && comp[d] == d
    ensures Picked(InComponent(heads, heads[d]), i + 1)
         == (if d in members then members[d] else []) + (if d == comp[i] then [i] else [])
  {
    var mine := if d in members then members[d] else [];
    assert mine == Picked(InComponent(heads, heads[d]), i) by {
      if d !in members {
        forall j | 0 <= j < i ensures heads[j] != heads[d] { assert comp[j] in members; }
        PickedNone(heads, heads[d], i);
      }
    }
    assert d == comp[i] <==> heads[i] == heads[d];
    assert mine + [] == mine;
  }

  lemma GroupNext(comp: seq<nat>, heads: seq<nat>, i: nat, members: map<nat, seq<nat>>)
    requires Labels(comp, heads) && i < |comp| && Grouped(comp, heads, i, members)
    ensures Grouped(comp, heads, i + 1,
                    members[comp[i] := (if comp[i] in members then members[comp[i]] else []) + [i]])
  {
    hide Picked, InComponent;
    var c := comp[i];
    var mine := if c in members then members[c] else [];
    var more := members[c := mine + [i]];
    forall d | d in more
      ensures d < |heads| && comp[d] == d && more[d] == Picked(InComponent(heads, heads[d]), i + 1)
    {
      assert d < |heads| && comp[d] == d;
      PickedNext(comp, heads, i, members, d);
      if d != c { assert members[d] + [] == members[d]; }
    }
  }

  method GroupMembers(comp: seq<nat>, ghost heads: seq<nat>) returns (members: map<nat, seq<nat>>)
    requires Labels(comp, heads)
    ensures Grouped(comp, heads, |comp|, members)
  {
    hide Labels, Picked;
    members := map[];
    for i := 0 to |comp|
      invariant Grouped(comp, heads, i, members)
    {
      GroupNext(comp, heads, i, members);
      members := members[comp[i] := (if comp[i] in members then members[comp[i]] else []) + [i]];
    }
  }

  /** The keys ordered by their ranks, least first. */
  method SortByKey(keys: set<nat>, rank: map<nat, nat>, ghost sorted: seq<nat>) returns (out: seq<nat>)
    requires keys <= rank.Keys && forall c :: c in keys <==> c in sorted
    requires forall i, j :: 0 <= i < j < |sorted| ==> rank[sorted[i]] < rank[sorted[j]]
    ensures out == sorted
  {
    out := [];
    var left := keys;
    assert sorted[0..] == sorted;
    while left != {}
      invariant left <= keys && |out| <= |sorted| && out == sorted[..|out|]
      invariant forall c :: c in left <==> c in sorted[|out|..]
      invariant |out| < |sorted| ==> sorted[|out|] in left
      decreases |sorted| - |out|
    {
      LeastIsNext(left, rank, sorted, |out|);
      var c :| c in left && forall d :: d in left ==> rank[c] <= rank[d];
      assert c == sorted[|out|];
      TakeMore(sorted, |out|);
      out := out + [c];
      left := left - {c};
    }
  }

  /** What follows position `k` of a list ascending in rank ranks above it. */
  lemma TailRanksAbove(sorted: seq<nat>, rank: map<nat, nat>, k: nat)
    requires k < |sorted| && forall c :: c in sorted ==> c in rank
    requires forall i, j :: 0 <= i < j < |sorted| ==> rank[sorted[i]] < rank[sorted[j]]
    ensures forall d :: d in sorted[k + 1..] ==> d in rank && rank[sorted[k]] < rank[d]
    ensures sorted[k..] == [sorted[k]] + sorted[k + 1..]
  {
    var rest := sorted[k + 1..];
    forall d | d in rest ensures d in rank && rank[sorted[k]] < rank[d] {
      assert d == sorted[k + 1 + IndexOf(rest, d)];
    }
  }

  lemma LeastIsNext(left: set<nat>, rank: map<nat, nat>, sorted: seq<nat>, k: nat)
    requires left != {} && k <= |sorted| && left <= rank.Keys && forall c :: c in sorted ==> c in rank
    requires forall i, j :: 0 <= i < j < |sorted| ==> rank[sorted[i]] < rank[sorted[j]]
    requires forall c :: c in left <==> c in sorted[k..]
    ensures k < |sorted| && sorted[k] in left
    ensures forall d :: d in left ==> rank[sorted[k]] <= rank[d] && (rank[sorted[k]] == rank[d] ==> d == sorted[k])
    ensures forall c :: c in left - {sorted[k]} <==> c in sorted[k + 1..]
    ensures k + 1 < |sorted| ==> sorted[k + 1] in left - {sorted[k]}
  {
    var some :| some in left;
    assert some in sorted[k..];
    TailRanksAbove(sorted, rank, k);
    var first, rest := sorted[k], sorted[k + 1..];
    assert forall c :: c in left <==> c == first || c in rest;
    assert first !in rest;
    if k + 1 < |sorted| { assert rest[0] == sorted[k + 1]; }
  }

  /** The components in the order of their heads. */
  method OrderComponents(comp: seq<nat>, members: map<nat, seq<nat>>, ghost heads: seq<nat>) returns (comps: seq<nat>)
    requires Labels(comp, heads) && Grouped(comp, heads, |comp|, members) && Below(heads, |heads|)
    requires forall i :: 0 <= i < |heads| ==> i <= heads[i] && heads[heads[i]] == heads[i]
    ensures comps == Gather(comp, HeadList(heads))
  {
    forall c | c in members
      ensures c in Gather(comp, HeadList(heads)) && members[c] != [] && members[c][|members[c]| - 1] == heads[c]
    {
      LastMemberIsHead(comp, heads, members, c);
    }
    forall c | c in Gather(comp, HeadList(heads)) ensures c in members {
      var k := IndexOf(Gather(comp, HeadList(heads)), c);
      assert c == comp[HeadList(heads)[k]];
    }
    var rank := map c | c in members :: members[c][|members[c]| - 1];
    LabelsAscend(comp, heads, rank);
    comps := SortByKey(members.Keys, rank, Gather(comp, HeadList(heads)));
  }

  lemma LabelsAscend(comp: seq<nat>, heads: seq<nat>, rank: map<nat, nat>)
    requires Labels(comp, heads) && Below(heads, |heads|)
    requires forall c :: c in rank ==> c < |heads| && rank[c] == heads[c]
    requires forall c :: c in Gather(comp, HeadList(heads)) ==> c in rank
    ensures var sorted := Gather(comp, HeadList(heads));
      forall i, j :: 0 <= i < j < |sorted| ==> rank[sorted[i]] < rank[sorted[j]]
  {
    var all := HeadList(heads);
    var sorted := Gather(comp, all);
    HeadListFacts(heads);
    forall i | 0 <= i < |sorted| ensures sorted[i] in rank && rank[sorted[i]] == all[i] {
      assert sorted[i] in sorted && all[i] in all;
    }
  }

  lemma LastMemberIsHead(comp: seq<nat>, heads: seq<nat>, members: map<nat, seq<nat>>, c: nat)
    requires Labels(comp, heads) && Grouped(comp, heads, |comp|, members) && Below(heads, |heads|) && c in members
    requires forall i :: 0 <= i < |heads| ==> i <= heads[i] && heads[heads[i]] == heads[i]
    ensures c in Gather(comp, HeadList(heads))
    ensures members[c] == Members(heads, heads[c]) != [] && members[c][|members[c]| - 1] == heads[c]
  {
    HeadIsLastMember(heads, heads[c]);
    HeadListFacts(heads);
    assert comp[heads[c]] == comp[c] == c;
    assert Gather(comp, HeadList(heads))[Rank(heads, heads[c])] == c;
  }

  lemma MembersOfLabel(comp: seq<nat>, heads: seq<nat>, members: map<nat, seq<nat>>, h: nat)
    requires Labels(comp, heads) && Grouped(comp, heads, |comp|, members) && h < |heads| && heads[h] == h
    ensures comp[h] in members && members[comp[h]] == Members(heads, h)
  {
    assert heads[comp[h]] == h;
  }

  /** The components reduced so far, by label. */
  ghost predicate Reduced(comp: seq<nat>, heads: seq<nat>, k: nat, at: map<nat, nat>)
    requires Labels(comp, heads) && k <= |HeadList(heads)|
  {
    forall i :: 0 <= i < |heads| && heads[i] == i && Rank(heads, i) < k ==> comp[i] in at && at[comp[i]] == Rank(heads, i)
  }

  lemma ReducedMore(comp: seq<nat>, heads: seq<nat>, k: nat, at: map<nat, nat>)
    requires Labels(comp, heads) && k < |HeadList(heads)| && Reduced(comp, heads, k, at)
    ensures Reduced(comp, heads, k + 1, at[comp[HeadList(heads)[k]] := k])
  {
    var all := HeadList(heads);
    var h := all[k];
    HeadListFacts(heads);
    IndexOfAt(all, k);
    assert h in all && heads[h] == h && Rank(heads, h) == k;
    hide HeadList, Distinct;
    var more := at[comp[h] := k];
    forall i | 0 <= i < |heads| && heads[i] == i && Rank(heads, i) < k + 1
      ensures comp[i] in more && more[comp[i]] == Rank(heads, i)
    {
      assert heads[comp[i]] == i && heads[comp[h]] == h;
      if i != h {
        assert HeadList(heads)[Rank(heads, i)] == i;
        assert Rank(heads, i) < k;
      }
    }
  }

  /** The landings of the members of one component. */
  function Landed(landing: seq<Landing>, members: seq<nat>, rid: nat, m: nat): (r: seq<Landing>)
    requires Below(members, |landing|) && m <= |members|
    ensures |r| == |landing|
  {
    if m == 0 then landing else Landed(landing, members, rid, m - 1)[members[m - 1] := (rid, Some(m - 1))]
  }

  lemma {:induction false} LandedAt(landing: seq<Landing>, members: seq<nat>, rid: nat, m: nat, i: nat)
    requires Below(members, |landing|) && m <= |members| && Distinct(members) && i < |landing|
    ensures Landed(landing, members, rid, m)[i]
         == if i in members[..m] then (rid, Some(IndexOf(members, i))) else landing[i]
  {
    if m > 0 {
      LandedAt(landing, members, rid, m - 1, i);
      TakeMore(members, m - 1);
      IndexOfAt(members, m - 1);
    }
  }

  /** `stage_fusion`: the components in head order, each reduced to one node. */
  method StageFusion(graph: EngineGraph, templates: Templates, mode: FusionMode)
    returns (reduced: seq<NodeKey>, outputs: seq<nat>, landing: seq<Landing>)
    requires Graphed(graph) && Templated(graph.nodes, templates)
    ensures var heads := Heads(graph, mode);
      && FusionPlan(graph, heads)
      && reduced == FusedNodes(graph.nodes, heads, templates)
      && outputs == Ranks(heads, graph.outputs)
      && |landing| == |graph.nodes|
      && forall i: nat :: i < |landing| ==> landing[i] == LandingOf(graph.nodes, heads, i)
  {
    ghost var heads := Heads(graph, mode);
    HeadsArePlan(graph, mode);
    var comp;
    match mode {
      case SingleUse => comp := SingleUseComponents(graph);
      case Maximal => comp := MaximalComponents(graph);
    }
    var members := GroupMembers(comp, heads);
    var comps := OrderComponents(comp, members, heads);
    var at: map<nat, nat>;
    reduced, at, landing := ReduceComponents(graph, templates, heads, comp, members, comps);
    outputs := RanksFound(heads, comp, at, graph.outputs);
  }

  /** The reduced ids of `xs`, looked up by label once every component is reduced. */
  function RanksFound(ghost heads: seq<nat>, comp: seq<nat>, at: map<nat, nat>, xs: seq<nat>): (r: seq<nat>)
    requires Labels(comp, heads) && Below(heads, |heads|) && Below(xs, |comp|) && Reduced(comp, heads, |HeadList(heads)|, at)
    requires forall i :: 0 <= i < |heads| ==> heads[heads[i]] == heads[i]
    ensures r == Ranks(heads, xs)
  {
    assert forall k :: 0 <= k < |xs| ==> comp[xs[k]] == comp[heads[xs[k]]];
    seq(|xs|, k requires 0 <= k < |xs| => at[comp[xs[k]]])
  }

  method ReduceComponents(graph: EngineGraph, templates: Templates, ghost heads: seq<nat>, comp: seq<nat>,
                          members: map<nat, seq<nat>>, comps: seq<nat>)
    returns (reduced: seq<NodeKey>, at: map<nat, nat>, landing: seq<Landing>)
    requires Graphed(graph) && Templated(graph.nodes, templates) && FusionPlan(graph, heads) && Labels(comp, heads)
    requires Grouped(comp, heads, |comp|, members) && comps == Gather(comp, HeadList(heads))
    ensures reduced == FusedNodes(graph.nodes, heads, templates)
    ensures Reduced(comp, heads, |HeadList(heads)|, at)
    ensures LandedBelow(graph.nodes, heads, |HeadList(heads)|, landing)
  {
    ghost var all := HeadList(heads);
    ghost var final := FusedNodes(graph.nodes, heads, templates);
    reduced, at := [], map[];
    landing := seq(|graph.nodes|, _ => (0, None));
    for k := 0 to |comps|
      invariant reduced == final[..k]
      invariant Reduced(comp, heads, k, at)
      invariant LandedBelow(graph.nodes, heads, k, landing)
    {
      var node;
      node, landing := ReduceOne(graph, templates, heads, comp, members, comps[k], k, at, landing);
      reduced := reduced + [node];
      TakeMore(final, k);
      ReducedMore(comp, heads, k, at);
      at := at[comps[k] := k];
    }
  }

  /** One component: a boundary as itself, an op run as its stage. */
  method ReduceOne(graph: EngineGraph, templates: Templates, ghost heads: seq<nat>, comp: seq<nat>,
                   members: map<nat, seq<nat>>, c: nat, rid: nat, at: map<nat, nat>, landing0: seq<Landing>)
    returns (node: NodeKey, landing: seq<Landing>)
    requires Graphed(graph) && Templated(graph.nodes, templates) && FusionPlan(graph, heads) && Labels(comp, heads)
    requires Grouped(comp, heads, |comp|, members)
    requires rid < |HeadList(heads)| && c == comp[HeadList(heads)[rid]] && Reduced(comp, heads, rid, at)
    requires LandedBelow(graph.nodes, heads, rid, landing0)
    ensures node == FusedNodes(graph.nodes, heads, templates)[rid]
    ensures LandedBelow(graph.nodes, heads, rid + 1, landing)
  {
    ghost var h := HeadList(heads)[rid];
    HeadAt(graph, heads, comp, rid);
    if graph.nodes[c].boundary {
      node := RebuildBoundary(graph, templates, heads, comp, c, rid, at);
      landing := landing0[c := (rid, None)];
      LandedMore(graph.nodes, heads, h, rid, landing0, landing);
    } else {
      MembersOfLabel(comp, heads, members, h);
      node, landing := ReduceStage(graph, heads, h, comp, members[c], rid, at, landing0);
    }
  }

  lemma HeadAt(graph: EngineGraph, heads: seq<nat>, comp: seq<nat>, rid: nat)
    requires Graphed(graph) && FusionPlan(graph, heads) && Labels(comp, heads) && rid < |HeadList(heads)|
    ensures var h := HeadList(heads)[rid];
      && h < |heads| && heads[h] == h && Rank(heads, h) == rid && heads[comp[h]] == h
      && (graph.nodes[comp[h]].boundary <==> graph.nodes[h].boundary)
      && (graph.nodes[h].boundary ==> comp[h] == h && forall i :: 0 <= i < |heads| && heads[i] == h ==> i == h)
  {
    HeadListFacts(heads);
    IndexOfAt(HeadList(heads), rid);
    assert HeadList(heads)[rid] in HeadList(heads);
    LabelIsBoundary(graph, heads, comp, HeadList(heads)[rid]);
  }

  lemma EarlierReduced(comp: seq<nat>, heads: seq<nat>, h: nat, rid: nat, at: map<nat, nat>)
    requires Labels(comp, heads) && h < |heads| && heads[h] == h
    requires rid < |HeadList(heads)| && Rank(heads, h) == rid && Reduced(comp, heads, rid, at)
    ensures EarlierFound(comp, heads, h, at)
  {
    forall s | 0 <= s < h && heads[s] == s ensures Rank(heads, s) < rid { RankBelow(heads, s, h); }
  }

  method ReduceStage(graph: EngineGraph, ghost heads: seq<nat>, ghost h: nat, comp: seq<nat>, ops: seq<nat>,
                     rid: nat, at: map<nat, nat>, landing0: seq<Landing>)
    returns (node: NodeKey, landing: seq<Landing>)
    requires StageReady(graph, heads, h, ops, comp) && !graph.nodes[h].boundary
    requires rid < |HeadList(heads)| && Rank(heads, h) == rid && Reduced(comp, heads, rid, at)
    requires LandedBelow(graph.nodes, heads, rid, landing0)
    ensures node == StageFor(graph.nodes, heads, h)
    ensures LandedBelow(graph.nodes, heads, rid + 1, landing)
  {
    EarlierReduced(comp, heads, h, rid, at);
    node := FuseStage(graph, heads, h, ops, comp, at);
    MembersFacts(heads, h);
    landing := LandMembers(landing0, ops, rid);
    LandedMore(graph.nodes, heads, h, rid, landing0, landing);
  }

  /** The nodes of the first `k` components have landed. */
  ghost predicate LandedBelow(g: seq<EngineNode>, heads: seq<nat>, k: nat, landing: seq<Landing>)
    requires |heads| == |g| && Below(heads, |heads|)
    requires forall i :: 0 <= i < |heads| ==> heads[heads[i]] == heads[i]
  {
    |landing| == |g| && forall i: nat :: i < |g| && Rank(heads, heads[i]) < k ==> landing[i] == LandingOf(g, heads, i)
  }

  lemma LandedMore(g: seq<EngineNode>, heads: seq<nat>, h: nat, k: nat, before: seq<Landing>, landing: seq<Landing>)
    requires |heads| == |g| && Below(heads, |heads|) && h < |heads| && heads[h] == h && Rank(heads, h) == k
    requires forall i :: 0 <= i < |heads| ==> heads[heads[i]] == heads[i]
    requires LandedBelow(g, heads, k, before) && |landing| == |g|
    requires forall i: nat :: i < |g| ==> landing[i] == if heads[i] == h then LandingOf(g, heads, i) else before[i]
    ensures LandedBelow(g, heads, k + 1, landing)
  {
  }

  method RebuildBoundary(graph: EngineGraph, templates: Templates, ghost heads: seq<nat>, comp: seq<nat>, c: nat,
                         rid: nat, at: map<nat, nat>)
    returns (node: NodeKey)
    requires Graphed(graph) && Templated(graph.nodes, templates) && FusionPlan(graph, heads) && Labels(comp, heads)
    requires c < |heads| && heads[c] == c && graph.nodes[c].boundary
    requires rid < |HeadList(heads)| && Rank(heads, c) == rid && Reduced(comp, heads, rid, at)
    ensures node == FusedNode(graph.nodes, heads, templates, c)
  {
    OutsideRanks(graph, heads, comp, c, rid, at);
    var ins := graph.nodes[c].inputs;
    var found := seq(|ins|, k requires 0 <= k < |ins| => at[comp[ins[k]]]);
    assert found == Ranks(heads, ins);
    node := templates[graph.nodes[c].token].WithInputs(found);
  }

  method LandMembers(landing0: seq<Landing>, ops: seq<nat>, rid: nat) returns (landing: seq<Landing>)
    requires Below(ops, |landing0|) && Distinct(ops)
    ensures |landing| == |landing0|
    ensures forall i: nat :: i < |landing| ==> landing[i] == if i in ops then (rid, Some(IndexOf(ops, i))) else landing0[i]
  {
    landing := landing0;
    for m := 0 to |ops|
      invariant landing == Landed(landing0, ops, rid, m)
    {
      landing := landing[ops[m] := (rid, Some(m))];
    }
    assert ops[..|ops|] == ops;
    forall i: nat | i < |landing|
      ensures landing[i] == if i in ops then (rid, Some(IndexOf(ops, i))) else landing0[i]
    {
      LandedAt(landing0, ops, rid, |ops|, i);
    }
  }

  lemma LabelIsBoundary(graph: EngineGraph, heads: seq<nat>, comp: seq<nat>, h: nat)
    requires Graphed(graph) && FusionPlan(graph, heads) && Labels(comp, heads) && h < |heads| && heads[h] == h
    ensures graph.nodes[comp[h]].boundary <==> graph.nodes[h].boundary
    ensures graph.nodes[h].boundary ==> comp[h] == h && forall i :: 0 <= i < |heads| && heads[i] == h ==> i == h
  {
    var c := comp[h];
    if heads[c] != c { assert Inner(graph, heads, c); }
    forall i | 0 <= i < |heads| && heads[i] == h && graph.nodes[h].boundary ensures i == h {
      BoundaryIsOwnHead(graph, heads, i);
    }
  }

  lemma OutsideRanks(graph: EngineGraph, heads: seq<nat>, comp: seq<nat>, h: nat, rid: nat, at: map<nat, nat>)
    requires Graphed(graph) && FusionPlan(graph, heads) && Labels(comp, heads) && h < |heads| && heads[h] == h
    requires rid < |HeadList(heads)| && Rank(heads, h) == rid && Reduced(comp, heads, rid, at) && graph.nodes[h].boundary
    ensures var ins := graph.nodes[h].inputs;
      Below(ins, |heads|) && forall k :: 0 <= k < |ins| ==> comp[ins[k]] in at && at[comp[ins[k]]] == Rank(heads, heads[ins[k]])
  {
    var ins := graph.nodes[h].inputs;
    assert Below(ins, h);
    forall k | 0 <= k < |ins| ensures comp[ins[k]] in at && at[comp[ins[k]]] == Rank(heads, heads[ins[k]]) {
      OutsideIsBelow(graph, heads, h, k);
      RankBelow(heads, ins[k], h);
    }
  }
}
