/** Stage fusion and what it is worth (src/optimizer/mod.rs). */
module Fusion {
  import opened Collections
  import opened Nodes
  import opened Graph
  import opened Semantics
  import opened Components
  import opened Merge

  /** Operator token to the first node key seen with it. */
  type Templates = map<string, NodeKey>

  /** Every boundary of the graph can be rebuilt from its token. */
  ghost predicate Templated(g: seq<EngineNode>, templates: Templates) {
    forall i :: 0 <= i < |g| && g[i].boundary ==>
      g[i].token in templates && templates[g[i].token].Token() == g[i].token
      && (templates[g[i].token].Source? ==> g[i].inputs == [])
  }

  // ---- what the pass computes -------------------------------------------------------------------

  /** The positions below `m` that `p` picks, ascending. */
  function Picked(p: nat -> bool, m: nat): (r: seq<nat>) {
    if m == 0 then [] else Picked(p, m - 1) + if p(m - 1) then [m - 1] else []
  }

  lemma {:induction false} PickedAre(p: nat -> bool, m: nat)
    ensures forall i :: i in Picked(p, m) <==> 0 <= i < m && p(i)
  {
    if m > 0 { PickedAre(p, m - 1); }
  }

  lemma {:induction false} PickedAscend(p: nat -> bool, m: nat)
    ensures Ascending(Picked(p, m)) && Below(Picked(p, m), m)
  {
    if m > 0 { PickedAscend(p, m - 1); }
  }

  function IsHead(heads: seq<nat>): nat -> bool { (i: nat) => i < |heads| && heads[i] == i }

  function InComponent(heads: seq<nat>, h: nat): nat -> bool { (i: nat) => i < |heads| && heads[i] == h }

  /** The heads, ascending: the order components are reduced in. */
  function HeadList(heads: seq<nat>): (r: seq<nat>)
    ensures Below(r, |heads|)
  {
    PickedAscend(IsHead(heads), |heads|);
    Picked(IsHead(heads), |heads|)
  }

  /** The members of the component of `h`, ascending. */
  function Members(heads: seq<nat>, h: nat): (r: seq<nat>)
    ensures Below(r, |heads|)
  {
    PickedAscend(InComponent(heads, h), |heads|);
    Picked(InComponent(heads, h), |heads|)
  }

  lemma HeadListFacts(heads: seq<nat>)
    ensures Ascending(HeadList(heads)) && Distinct(HeadList(heads))
    ensures forall i :: i in HeadList(heads) <==> 0 <= i < |heads| && heads[i] == i
  {
    PickedAre(IsHead(heads), |heads|);
    PickedAscend(IsHead(heads), |heads|);
    AscendingIsDistinct(HeadList(heads));
  }

  lemma MembersFacts(heads: seq<nat>, h: nat)
    ensures Ascending(Members(heads, h)) && Distinct(Members(heads, h))
    ensures forall i :: i in Members(heads, h) <==> 0 <= i < |heads| && heads[i] == h
  {
    PickedAre(InComponent(heads, h), |heads|);
    PickedAscend(InComponent(heads, h), |heads|);
    AscendingIsDistinct(Members(heads, h));
  }

  /** A head's position in the reduced graph. */
  function Rank(heads: seq<nat>, h: nat): (r: nat)
    requires h < |heads| && heads[h] == h
    ensures r < |HeadList(heads)| && HeadList(heads)[r] == h
  {
    HeadListFacts(heads);
    IndexOf(HeadList(heads), h)
  }

  /** The reduced nodes holding the values of `xs`. */
  function Ranks(heads: seq<nat>, xs: seq<nat>): (r: seq<nat>)
    requires Below(xs, |heads|) && Below(heads, |heads|)
    requires forall i :: 0 <= i < |heads| ==> heads[heads[i]] == heads[i]
    ensures |r| == |xs|
    ensures forall k :: 0 <= k < |xs| ==> r[k] == Rank(heads, heads[xs[k]])
  {
    seq(|xs|, k requires 0 <= k < |xs| => Rank(heads, heads[xs[k]]))
  }

  /** `slots` after the inputs of one member: the outside heads it reads, in first-seen order. */
  function InputSlots(heads: seq<nat>, h: nat, inputs: seq<nat>, slots: seq<nat>): (r: seq<nat>)
    requires Below(inputs, |heads|)
    ensures slots <= r
  {
    if inputs == [] then slots
    else
      var m := |inputs| - 1;
      var before := InputSlots(heads, h, inputs[..m], slots);
      if heads[inputs[m]] == h then before else Insert(before, heads[inputs[m]])
  }

  function Slots(g: seq<EngineNode>, heads: seq<nat>, h: nat, ops: seq<nat>): (r: seq<nat>)
    requires Topological(g) && |heads| == |g| && Below(ops, |g|)
  {
    if ops == [] then []
    else
      var m := |ops| - 1;
      assert Below(g[ops[m]].inputs, ops[m]);
      InputSlots(heads, h, g[ops[m]].inputs, Slots(g, heads, h, ops[..m]))
  }

  /** The inputs a component's members read are members of it or have a slot. */
  ghost predicate Served(g: seq<EngineNode>, heads: seq<nat>, h: nat, ops: seq<nat>, slots: seq<nat>, op: nat)
    requires |heads| == |g| && op < |g| && Below(g[op].inputs, |g|)
  {
    forall k :: 0 <= k < |g[op].inputs| ==>
      var inp := g[op].inputs[k]; if heads[inp] == h then inp in ops else heads[inp] in slots
  }

  /** What a component's members read from outside, read by read: the head of each. */
  function OutsideReads(g: seq<EngineNode>, heads: seq<nat>, h: nat, ops: seq<nat>): (r: seq<nat>)
    requires Topological(g) && |heads| == |g| && Below(ops, |g|)
  {
    if ops == [] then []
    else
      var m := |ops| - 1;
      assert Below(g[ops[m]].inputs, ops[m]);
      OutsideReads(g, heads, h, ops[..m]) + InputsOutside(heads, h, g[ops[m]].inputs)
  }

  function InputsOutside(heads: seq<nat>, h: nat, inputs: seq<nat>): (r: seq<nat>)
    requires Below(inputs, |heads|)
  {
    if inputs == [] then []
    else InputsOutside(heads, h, inputs[..|inputs| - 1]) + if heads[inputs[|inputs| - 1]] == h then [] else [heads[inputs[|inputs| - 1]]]
  }

  /** The elements of `xs`, each once, in the order they first occur. */
  ghost predicate FirstSeen(xs: seq<nat>, slots: seq<nat>) {
    && (forall x :: x in slots <==> x in xs)
    && forall a, b :: 0 <= a < b < |slots| && slots[a] in xs && slots[b] in xs ==> IndexOf(xs, slots[a]) < IndexOf(xs, slots[b])
  }

  lemma SeenAgain(xs: seq<nat>, slots: seq<nat>, x: nat)
    requires FirstSeen(xs, slots)
    ensures FirstSeen(xs + [x], Insert<nat>(slots, x))
  {
    var more := xs + [x];
    assert more[..|xs|] == xs;
    forall y | y in xs ensures IndexOf(more, y) == IndexOf(xs, y) { IndexOfPrefix(more, |xs|, y); }
    if x !in xs { assert IndexOf(more, x) == |xs|; }
    var grown := Insert<nat>(slots, x);
    forall y ensures y in grown <==> y in more { }
    forall a, b | 0 <= a < b < |grown| && grown[a] in more && grown[b] in more ensures IndexOf(more, grown[a]) < IndexOf(more, grown[b]) {
      assert grown[a] == slots[a] && slots[a] in slots;
      if b < |slots| { assert slots[b] in slots; }
    }
  }

  lemma {:induction false} InputsFirstSeen(heads: seq<nat>, h: nat, inputs: seq<nat>, xs: seq<nat>, slots: seq<nat>)
    requires Below(inputs, |heads|) && FirstSeen(xs, slots)
    ensures FirstSeen(xs + InputsOutside(heads, h, inputs), InputSlots(heads, h, inputs, slots))
  {
    hide FirstSeen, Insert;
    if inputs == [] {
      assert xs + [] == xs;
    } else {
      var m := |inputs| - 1;
      InputsFirstSeen(heads, h, inputs[..m], xs, slots);
      var before := InputsOutside(heads, h, inputs[..m]);
      if heads[inputs[m]] != h {
        SeenAgain(xs + before, InputSlots(heads, h, inputs[..m], slots), heads[inputs[m]]);
        assert xs + before + [heads[inputs[m]]] == xs + (before + [heads[inputs[m]]]);
      } else {
        assert before + [] == before;
      }
    }
  }

  /** A stage's slots are what its members read from outside, each once, in the order it is first read. */
  lemma {:induction false} SlotsFirstSeen(g: seq<EngineNode>, heads: seq<nat>, h: nat, ops: seq<nat>)
    requires Topological(g) && |heads| == |g| && Below(ops, |g|)
    ensures FirstSeen(OutsideReads(g, heads, h, ops), Slots(g, heads, h, ops))
  {
    hide InputSlots, InputsOutside;
    if ops != [] {
      var m := |ops| - 1;
      SlotsFirstSeen(g, heads, h, ops[..m]);
      assert Below(g[ops[m]].inputs, ops[m]);
      InputsFirstSeen(heads, h, g[ops[m]].inputs, OutsideReads(g, heads, h, ops[..m]), Slots(g, heads, h, ops[..m]));
    }
  }

  function RefTo(heads: seq<nat>, h: nat, ops: seq<nat>, slots: seq<nat>, inp: nat): StageRef
    requires inp < |heads| && if heads[inp] == h then inp in ops else heads[inp] in slots
  {
    if heads[inp] == h then Member(IndexOf(ops, inp)) else Input(IndexOf(slots, heads[inp]))
  }

  function RefsOf(g: seq<EngineNode>, heads: seq<nat>, h: nat, ops: seq<nat>, slots: seq<nat>, op: nat): (r: seq<StageRef>)
    requires |heads| == |g| && op < |g| && Below(g[op].inputs, |g|) && Served(g, heads, h, ops, slots, op)
    ensures |r| == |g[op].inputs|
  {
    seq(|g[op].inputs|, k requires 0 <= k < |g[op].inputs| => RefTo(heads, h, ops, slots, g[op].inputs[k]))
  }

  lemma Inserted(s: seq<nat>, x: nat)
    ensures forall y :: y in Insert<nat>(s, x) <==> y in s || y == x
    ensures Distinct(s) ==> Distinct(Insert<nat>(s, x))
  {
    if Distinct(s) && x !in s { DistinctMore(s, x); }
  }

  /** An input names `s`, a head other than `h`. */
  ghost predicate NamesHead(heads: seq<nat>, h: nat, inputs: seq<nat>, s: nat)
    requires Below(inputs, |heads|)
  {
    s != h && exists k :: 0 <= k < |inputs| && s == heads[inputs[k]]
  }

  lemma NamesHeadMore(heads: seq<nat>, h: nat, inputs: seq<nat>, m: nat, s: nat)
    requires Below(inputs, |heads|) && m == |inputs| - 1
    ensures NamesHead(heads, h, inputs, s) <==> NamesHead(heads, h, inputs[..m], s) || (s != h && s == heads[inputs[m]])
  {
    if NamesHead(heads, h, inputs[..m], s) {
      var k :| 0 <= k < m && s == heads[inputs[..m][k]];
      assert s == heads[inputs[k]];
    }
    if NamesHead(heads, h, inputs, s) && s != heads[inputs[m]] {
      var k :| 0 <= k < |inputs| && s == heads[inputs[k]];
      assert s == heads[inputs[..m][k]];
    }
  }

  /** Serving a member's inputs opens the slots they name, and no others. */
  lemma {:induction false} InputSlotsServe(heads: seq<nat>, h: nat, inputs: seq<nat>, slots: seq<nat>)
    requires Below(inputs, |heads|)
    ensures forall s :: s in InputSlots(heads, h, inputs, slots) <==> s in slots || NamesHead(heads, h, inputs, s)
    ensures Distinct(slots) ==> Distinct(InputSlots(heads, h, inputs, slots))
  {
    if inputs != [] {
      hide Insert, Distinct, NamesHead;
      var m := |inputs| - 1;
      InputSlotsServe(heads, h, inputs[..m], slots);
      Inserted(InputSlots(heads, h, inputs[..m], slots), heads[inputs[m]]);
      forall s ensures s in InputSlots(heads, h, inputs, slots) <==> s in slots || NamesHead(heads, h, inputs, s) {
        NamesHeadMore(heads, h, inputs, m, s);
      }
    }
  }

  /** A slot is a head outside the component, read by one of its members. */
  ghost predicate SlotOf(g: seq<EngineNode>, heads: seq<nat>, h: nat, ops: seq<nat>, s: nat)
    requires |heads| == |g| && Below(ops, |g|) && Topological(g)
  {
    s != h && exists j, k :: 0 <= j < |ops| && 0 <= k < |g[ops[j]].inputs| && s == heads[g[ops[j]].inputs[k]]
  }

  lemma {:induction false} SlotsServe(g: seq<EngineNode>, heads: seq<nat>, h: nat, ops: seq<nat>)
    requires Topological(g) && |heads| == |g| && Below(ops, |g|)
    ensures Distinct(Slots(g, heads, h, ops))
    ensures forall s :: s in Slots(g, heads, h, ops) ==> SlotOf(g, heads, h, ops, s)
    ensures forall j, k :: 0 <= j < |ops| && 0 <= k < |g[ops[j]].inputs| && heads[g[ops[j]].inputs[k]] != h ==>
      heads[g[ops[j]].inputs[k]] in Slots(g, heads, h, ops)
  {
    if ops != [] {
      var m := |ops| - 1;
      var before := Slots(g, heads, h, ops[..m]);
      SlotsServe(g, heads, h, ops[..m]);
      assert Below(g[ops[m]].inputs, ops[m]);
      InputSlotsServe(heads, h, g[ops[m]].inputs, before);
      forall s | s in Slots(g, heads, h, ops) ensures SlotOf(g, heads, h, ops, s) {
        if s in before {
          assert SlotOf(g, heads, h, ops[..m], s);
          var j, k :| 0 <= j < m && 0 <= k < |g[ops[..m][j]].inputs| && s == heads[g[ops[..m][j]].inputs[k]];
          assert ops[..m][j] == ops[j];
        } else {
          assert NamesHead(heads, h, g[ops[m]].inputs, s);
        }
      }
      forall j, k | 0 <= j < |ops| && 0 <= k < |g[ops[j]].inputs| && heads[g[ops[j]].inputs[k]] != h
        ensures heads[g[ops[j]].inputs[k]] in Slots(g, heads, h, ops)
      {
        if j < m {
          assert ops[..m][j] == ops[j];
        } else {
          assert NamesHead(heads, h, g[ops[m]].inputs, heads[g[ops[j]].inputs[k]]);
        }
      }
    }
  }

  // ---- the fused graph --------------------------------------------------------------------------

  /** The stage of the component headed by `h`. */
  function StageFor(g: seq<EngineNode>, heads: seq<nat>, h: nat): NodeKey
    requires Topological(g) && |heads| == |g| && Below(heads, |g|) && h < |g|
    requires forall i :: 0 <= i < |heads| ==> heads[heads[i]] == heads[i]
  {
    MembersFacts(heads, h);
    var ops := Members(heads, h);
    SlotsServe(g, heads, h, ops);
    var slots := Slots(g, heads, h, ops);
    SlotsAreHeads(g, heads, h, ops);
    Stage(Ranks(heads, slots), seq(|ops|, k requires 0 <= k < |ops| =>
      OpServed(g, heads, h, k); StageOp(g[ops[k]].token, RefsOf(g, heads, h, ops, slots, ops[k]))))
  }

  lemma OpServed(g: seq<EngineNode>, heads: seq<nat>, h: nat, k: nat)
    requires Topological(g) && |heads| == |g| && k < |Members(heads, h)|
    ensures var ops := Members(heads, h);
      ops[k] < |g| && Below(g[ops[k]].inputs, |g|) && Below(g[ops[k]].inputs, ops[k])
      && Below(ops, |g|) && Served(g, heads, h, ops, Slots(g, heads, h, ops), ops[k])
  {
    MembersFacts(heads, h);
    var ops := Members(heads, h);
    SlotsServe(g, heads, h, ops);
    assert Below(g[ops[k]].inputs, ops[k]);
  }

  lemma SlotsAreHeads(g: seq<EngineNode>, heads: seq<nat>, h: nat, ops: seq<nat>)
    requires Topological(g) && |heads| == |g| && Below(heads, |g|) && Below(ops, |g|)
    requires forall i :: 0 <= i < |heads| ==> heads[heads[i]] == heads[i]
    ensures Below(Slots(g, heads, h, ops), |g|)
    ensures forall s :: s in Slots(g, heads, h, ops) ==> heads[s] == s
  {
    SlotsServe(g, heads, h, ops);
    var slots := Slots(g, heads, h, ops);
    forall s | s in slots ensures s < |g| && heads[s] == s {
      assert SlotOf(g, heads, h, ops, s);
      var j, k :| 0 <= j < |ops| && 0 <= k < |g[ops[j]].inputs| && s == heads[g[ops[j]].inputs[k]];
      assert Below(g[ops[j]].inputs, ops[j]);
    }
    forall k | 0 <= k < |slots| ensures slots[k] < |g| { assert slots[k] in slots; }
  }

  /** The reduced node of the component headed by `h`: a boundary as itself, an op run as a stage. */
  function FusedNode(g: seq<EngineNode>, heads: seq<nat>, templates: Templates, h: nat): NodeKey
    requires Topological(g) && |heads| == |g| && Below(heads, |g|) && h < |g|
    requires forall i :: 0 <= i < |heads| ==> heads[heads[i]] == heads[i]
    requires g[h].boundary ==> g[h].token in templates
  {
    assert Below(g[h].inputs, h);
    if g[h].boundary then templates[g[h].token].WithInputs(Ranks(heads, g[h].inputs)) else StageFor(g, heads, h)
  }

  function FusedNodes(g: seq<EngineNode>, heads: seq<nat>, templates: Templates): (r: seq<NodeKey>)
    requires Topological(g) && |heads| == |g| && Below(heads, |g|)
    requires forall i :: 0 <= i < |heads| ==> heads[heads[i]] == heads[i]
    requires forall i :: 0 <= i < |g| && g[i].boundary ==> g[i].token in templates
    ensures |r| == |HeadList(heads)|
  {
    HeadListFacts(heads);
    seq(|HeadList(heads)|, r requires 0 <= r < |HeadList(heads)| => FusedNode(g, heads, templates, HeadList(heads)[r]))
  }

  /** Where a node landed: its component's reduced node and, for a fused op, its member position. */
  type Landing = (nat, Option<nat>)

  function LandingOf(g: seq<EngineNode>, heads: seq<nat>, i: nat): Landing
    requires |heads| == |g| && i < |g| && heads[i] < |g| && heads[heads[i]] == heads[i]
  {
    MembersFacts(heads, heads[i]);
    (Rank(heads, heads[i]), if g[heads[i]].boundary then None else Some(IndexOf(Members(heads, heads[i]), i)))
  }

  // ---- what it is worth -------------------------------------------------------------------------

  /** A node read from outside its component is its component's head. */
  lemma ReadOutsideIsHead(graph: EngineGraph, heads: seq<nat>, c: nat, k: nat)
    requires FusionPlan(graph, heads) && c < |heads| && k < |graph.nodes[c].inputs|
    requires Below(graph.nodes[c].inputs, |heads|)
    ensures heads[graph.nodes[c].inputs[k]] == graph.nodes[c].inputs[k]
      || heads[graph.nodes[c].inputs[k]] == heads[c]
  {
    var i := graph.nodes[c].inputs[k];
    if heads[i] != i { assert Inner(graph, heads, i); }
  }

  lemma BoundaryIsOwnHead(graph: EngineGraph, heads: seq<nat>, i: nat)
    requires FusionPlan(graph, heads) && i < |heads|
    ensures graph.nodes[heads[i]].boundary ==> heads[i] == i
  {
    if heads[i] != i { assert Inner(graph, heads, i); }
  }

  lemma HeadIsLastMember(heads: seq<nat>, h: nat)
    requires h < |heads| && heads[h] == h && forall i :: 0 <= i < |heads| ==> i <= heads[i]
    ensures Members(heads, h) != [] && Members(heads, h)[|Members(heads, h)| - 1] == h
  {
    MembersFacts(heads, h);
    var ops := Members(heads, h);
    assert h in ops && ops[|ops| - 1] in ops;
    var k := IndexOf(ops, h);
    AscendingAt(ops, k, |ops| - 1);
  }

  /** Each member of a stage reads its inputs' values, from earlier members and from the slots. */
  lemma MemberReads<V>(graph: EngineGraph, heads: seq<nat>, h: nat, vs: seq<V>, k: nat)
    requires Graphed(graph) && FusionPlan(graph, heads) && |vs| == |heads|
    requires h < |heads| && heads[h] == h && k < |Members(heads, h)|
    ensures var g := graph.nodes; var ops := Members(heads, h); var slots := Slots(g, heads, h, ops);
      && Below(ops, |g|) && Below(g[ops[k]].inputs, |g|) && Below(slots, |g|)
      && Served(g, heads, h, ops, slots, ops[k])
      && var refs := RefsOf(g, heads, h, ops, slots, ops[k]);
         RefsOk(refs, |slots|, k)
         && RefValues(refs, Gather(vs, slots), Gather(vs, ops)[..k]) == Gather(vs, g[ops[k]].inputs)
  {
    var g := graph.nodes;
    var ops := Members(heads, h);
    var slots := Slots(g, heads, h, ops);
    MembersFacts(heads, h);
    SlotsAreHeads(g, heads, h, ops);
    OpServed(g, heads, h, k);
    var op := ops[k];
    assert op in ops;
    var refs := RefsOf(g, heads, h, ops, slots, op);
    forall j | 0 <= j < |refs|
      ensures RefOk(refs[j], |slots|, k)
      ensures vs[g[op].inputs[j]] == match refs[j] case Input(s) => Gather(vs, slots)[s] case Member(m) => Gather(vs, ops)[m]
    {
      var inp := g[op].inputs[j];
      assert refs[j] == RefTo(heads, h, ops, slots, inp);
      if heads[inp] == h {
        var m := IndexOf(ops, inp);
        assert inp < op;
        if k <= m { AscendingAt(ops, k, m); }
      } else {
        ReadOutsideIsHead(graph, heads, op, j);
      }
    }
    assert RefsOk(refs, |slots|, k);
  }

  lemma AscendingAt(s: seq<nat>, i: nat, j: nat)
    requires Ascending(s) && i <= j < |s|
    ensures s[i] <= s[j]
  {
  }

  /** What the stage's evaluation is over: its members, and the value of each slot. */
  lemma {:induction false} StageComputes<V(!new)>(base: (string, seq<V>) -> V, graph: EngineGraph, heads: seq<nat>, h: nat, vs: seq<V>)
    requires Graphed(graph) && FusionPlan(graph, heads) && TokensMarkBoundaries(graph.nodes)
    requires IsFold(Meaning(base), graph.nodes, vs)
    requires h < |heads| && heads[h] == h && !graph.nodes[h].boundary
    ensures var ops := Members(heads, h); var slots := Slots(graph.nodes, heads, h, ops);
      && Below(slots, |vs|)
      && var members := StageFor(graph.nodes, heads, h).members;
         StageOk(members, |slots|) && |members| == |ops|
         && MemberValues(base, members, Gather(vs, slots), |members|) == Gather(vs, ops)
  {
    var g := graph.nodes;
    var ops := Members(heads, h);
    var slots := Slots(g, heads, h, ops);
    SlotsAreHeads(g, heads, h, ops);
    HeadIsLastMember(heads, h);
    var members := StageFor(g, heads, h).members;
    var ins, mvals := Gather(vs, slots), Gather(vs, ops);
    forall k | 0 <= k < |members|
      ensures RefsOk(members[k].refs, |ins|, k) && mvals[k] == base(members[k].token, RefValues(members[k].refs, ins, mvals[..k]))
    {
      MemberReads(graph, heads, h, vs, k);
      MemberIsOp(graph, heads, h, k);
      RunOfOp(base, g[ops[k]].token, Gather(vs, g[ops[k]].inputs));
    }
    MemberValuesUnique(base, members, ins, mvals, |members|);
  }

  lemma MemberIsOp(graph: EngineGraph, heads: seq<nat>, h: nat, k: nat)
    requires FusionPlan(graph, heads) && TokensMarkBoundaries(graph.nodes)
    requires h < |heads| && !graph.nodes[h].boundary && k < |Members(heads, h)|
    ensures "op|" <= graph.nodes[Members(heads, h)[k]].token
  {
    MembersFacts(heads, h);
    var op := Members(heads, h)[k];
    assert op in Members(heads, h);
    assert op == h || Inner(graph, heads, op);
  }

  lemma RankBelow(heads: seq<nat>, a: nat, b: nat)
    requires a < b < |heads| && heads[a] == a && heads[b] == b
    ensures Rank(heads, a) < Rank(heads, b)
  {
    HeadListFacts(heads);
    if Rank(heads, b) <= Rank(heads, a) { AscendingAt(HeadList(heads), Rank(heads, b), Rank(heads, a)); }
  }

  /** Everything a component reads from outside is a head below its own. */
  lemma OutsideIsBelow(graph: EngineGraph, heads: seq<nat>, c: nat, k: nat)
    requires Graphed(graph) && FusionPlan(graph, heads) && c < |heads| && k < |graph.nodes[c].inputs|
    ensures graph.nodes[c].inputs[k] < c
    ensures heads[graph.nodes[c].inputs[k]] != heads[c] ==> heads[graph.nodes[c].inputs[k]] == graph.nodes[c].inputs[k] < heads[c]
    ensures graph.nodes[c].boundary ==> heads[graph.nodes[c].inputs[k]] != heads[c]
  {
    assert Below(graph.nodes[c].inputs, c);
    var inp := graph.nodes[c].inputs[k];
    assert heads[inp] == inp || Inner(graph, heads, inp);
    assert heads[c] == c || Inner(graph, heads, c);
  }

  /** Reduced nodes of `xs` hold the values of `xs`, when what is read are heads. */
  lemma RanksHold<V>(heads: seq<nat>, vs: seq<V>, xs: seq<nat>)
    requires |vs| == |heads| && Below(heads, |heads|) && Below(xs, |heads|)
    requires forall i :: 0 <= i < |heads| ==> heads[heads[i]] == heads[i]
    requires forall k :: 0 <= k < |xs| ==> heads[xs[k]] == xs[k]
    ensures Below(Ranks(heads, xs), |HeadList(heads)|)
    ensures Gather(Gather(vs, HeadList(heads)), Ranks(heads, xs)) == Gather(vs, xs)
  {
  }

  /** `key` reads only nodes before the one of head `h`, and is worth what `h` was worth. */
  ghost predicate Stands<V(!new)>(base: (string, seq<V>) -> V, heads: seq<nat>, h: nat, key: NodeKey, vs: seq<V>)
    requires h < |heads| == |vs| && heads[h] == h
  {
    && Below(key.Inputs(), Rank(heads, h))
    && vs[h] == Run(base, key.Token(), Gather(Gather(vs, HeadList(heads)), key.Inputs()))
  }

  lemma {:induction false} BoundaryStands<V(!new)>(base: (string, seq<V>) -> V, graph: EngineGraph, heads: seq<nat>,
                                templates: Templates, h: nat, vs: seq<V>)
    requires Graphed(graph) && FusionPlan(graph, heads)
    requires Templated(graph.nodes, templates) && IsFold(Meaning(base), graph.nodes, vs)
    requires h < |heads| && heads[h] == h && graph.nodes[h].boundary
    ensures Stands(base, heads, h, FusedNode(graph.nodes, heads, templates, h), vs)
  {
    var xs := graph.nodes[h].inputs;
    var template := templates[graph.nodes[h].token];
    assert Below(xs, h);
    forall k | 0 <= k < |xs| ensures heads[xs[k]] == xs[k] && Rank(heads, xs[k]) < Rank(heads, h) {
      OutsideIsBelow(graph, heads, h, k);
      RankBelow(heads, xs[k], h);
    }
    SameOperatorSameToken(template, Ranks(heads, xs));
    RanksHold(heads, vs, xs);
    assert template.WithInputs(Ranks(heads, xs)).Inputs() == Ranks(heads, xs);
  }

  lemma {:induction false} StageStands<V(!new)>(base: (string, seq<V>) -> V, graph: EngineGraph, heads: seq<nat>, h: nat, vs: seq<V>)
    requires Graphed(graph) && FusionPlan(graph, heads) && TokensMarkBoundaries(graph.nodes)
    requires IsFold(Meaning(base), graph.nodes, vs)
    requires h < |heads| && heads[h] == h && !graph.nodes[h].boundary
    ensures Stands(base, heads, h, StageFor(graph.nodes, heads, h), vs)
  {
    var key := StageFor(graph.nodes, heads, h);
    var xs := Slots(graph.nodes, heads, h, Members(heads, h));
    StageComputes(base, graph, heads, h, vs);
    HeadIsLastMember(heads, h);
    SlotsAreHeads(graph.nodes, heads, h, Members(heads, h));
    forall k | 0 <= k < |xs| ensures heads[xs[k]] == xs[k] && Rank(heads, xs[k]) < Rank(heads, h) {
      SlotIsBelow(graph, heads, h, xs[k]);
      RankBelow(heads, xs[k], h);
    }
    RunOfStage(base, key.members, Gather(vs, xs));
    RanksHold(heads, vs, xs);
    TokenOfStage(key);
    assert key.Inputs() == Ranks(heads, xs);
    var us := Gather(vs, HeadList(heads));
    assert Gather(us, key.Inputs()) == Gather(vs, xs);
    var ops := Members(heads, h);
    assert StageValue(base, key.members, Gather(vs, xs)) == Gather(vs, ops)[|ops| - 1] == vs[h];
    assert vs[h] == Run(base, key.Token(), Gather(us, key.Inputs()));
  }

  lemma SlotIsBelow(graph: EngineGraph, heads: seq<nat>, h: nat, s: nat)
    requires Graphed(graph) && FusionPlan(graph, heads) && h < |heads|
    requires s in Slots(graph.nodes, heads, h, Members(heads, h))
    ensures s < h && heads[s] == s
  {
    var g := graph.nodes;
    var ops := Members(heads, h);
    MembersFacts(heads, h);
    SlotsServe(g, heads, h, ops);
    assert SlotOf(g, heads, h, ops, s);
    var j, k :| 0 <= j < |ops| && 0 <= k < |g[ops[j]].inputs| && s == heads[g[ops[j]].inputs[k]];
    assert ops[j] in ops;
    OutsideIsBelow(graph, heads, ops[j], k);
  }

  /** Fusing keeps meaning: reduced node `r` is worth what the `r`-th head was worth. */
  lemma {:induction false} FusedFold<V(!new)>(base: (string, seq<V>) -> V, graph: EngineGraph, heads: seq<nat>, templates: Templates)
    requires Graphed(graph) && FusionPlan(graph, heads) && TokensMarkBoundaries(graph.nodes)
    requires Templated(graph.nodes, templates)
    ensures var reduced := FusedNodes(graph.nodes, heads, templates);
      Arena(reduced) && Values(base, ToEngine(reduced)) == Gather(Values(base, graph.nodes), HeadList(heads))
  {
    var reduced := FusedNodes(graph.nodes, heads, templates);
    var vs := Values(base, graph.nodes);
    FoldIsFold(Meaning(base), graph.nodes);
    HeadListFacts(heads);
    var us := Gather(vs, HeadList(heads));
    forall r | 0 <= r < |reduced|
      ensures Below(reduced[r].Inputs(), r) && us[r] == Run(base, reduced[r].Token(), Gather(us, reduced[r].Inputs()))
    {
      var h := HeadList(heads)[r];
      assert h in HeadList(heads);
      if graph.nodes[h].boundary {
        BoundaryStands(base, graph, heads, templates, h, vs);
      } else {
        StageStands(base, graph, heads, h, vs);
      }
      IndexOfAt(HeadList(heads), r);
    }
    assert Arena(reduced);
    FoldUnique(Meaning(base), ToEngine(reduced), us);
  }

  /** The value at a reduced address: a whole node's, or one member's inside a stage. */
  ghost function AddressValue<V(!new)>(base: (string, seq<V>) -> V, reduced: seq<NodeKey>, at: Landing): Option<V>
    requires Arena(reduced)
  {
    var (r, member) := at;
    if r >= |reduced| then None
    else
      var us := Values(base, ToEngine(reduced));
      assert Below(reduced[r].Inputs(), r);
      var ins := Gather(us, reduced[r].Inputs());
      match member
      case None => Some(us[r])
      case Some(k) =>
        if reduced[r].Stage? && StageOk(reduced[r].members, |ins|) && k < |reduced[r].members|
        then Some(MemberValues(base, reduced[r].members, ins, |reduced[r].members|)[k]) else None
  }

  /** Every node lands where its value is. */
  lemma {:induction false} LandingHoldsValue<V(!new)>(base: (string, seq<V>) -> V, graph: EngineGraph, heads: seq<nat>,
                                   templates: Templates, i: nat)
    requires Graphed(graph) && FusionPlan(graph, heads) && TokensMarkBoundaries(graph.nodes)
    requires Templated(graph.nodes, templates) && i < |graph.nodes|
    requires Arena(FusedNodes(graph.nodes, heads, templates))
    ensures AddressValue(base, FusedNodes(graph.nodes, heads, templates), LandingOf(graph.nodes, heads, i))
         == Some(Values(base, graph.nodes)[i])
  {
    var g := graph.nodes;
    var h := heads[i];
    var r := Rank(heads, h);
    var reduced := FusedNodes(g, heads, templates);
    FusedFold(base, graph, heads, templates);
    var us := Values(base, ToEngine(reduced));
    var key := reduced[r];
    assert key == FusedNode(g, heads, templates, h);
    assert us[r] == Values(base, g)[h];
    BoundaryIsOwnHead(graph, heads, i);
    if !g[h].boundary {
      MemberHoldsValue(base, graph, heads, i, us);
      assert key == StageFor(g, heads, h);
      AddressOfMember(base, reduced, r, IndexOf(Members(heads, h), i), us);
    }
  }

  lemma {:induction false} AddressOfMember<V(!new)>(base: (string, seq<V>) -> V, reduced: seq<NodeKey>, r: nat, k: nat, us: seq<V>)
    requires Arena(reduced) && r < |reduced| && us == Values(base, ToEngine(reduced)) && reduced[r].Stage?
    requires StageOk(reduced[r].members, |reduced[r].inputs|) && k < |reduced[r].members|
    ensures Below(reduced[r].inputs, |us|)
    ensures AddressValue(base, reduced, (r, Some(k)))
         == Some(MemberValues(base, reduced[r].members, Gather(us, reduced[r].inputs), |reduced[r].members|)[k])
  {
    assert Below(reduced[r].Inputs(), r);
  }

  lemma {:induction false} MemberHoldsValue<V(!new)>(base: (string, seq<V>) -> V, graph: EngineGraph, heads: seq<nat>, i: nat, us: seq<V>)
    requires Graphed(graph) && FusionPlan(graph, heads) && TokensMarkBoundaries(graph.nodes) && i < |graph.nodes|
    requires !graph.nodes[heads[i]].boundary && us == Gather(Values(base, graph.nodes), HeadList(heads))
    ensures var ops := Members(heads, heads[i]);
      var key := StageFor(graph.nodes, heads, heads[i]);
      && i in ops && Below(key.inputs, |us|)
      && StageOk(key.members, |key.inputs|) && |key.members| == |ops|
      && MemberValues(base, key.members, Gather(us, key.inputs), |ops|)[IndexOf(ops, i)] == Values(base, graph.nodes)[i]
  {
    var g := graph.nodes;
    var h := heads[i];
    var vs := Values(base, g);
    var ops := Members(heads, h);
    var slots := Slots(g, heads, h, ops);
    FoldIsFold(Meaning(base), g);
    MembersFacts(heads, h);
    StageComputes(base, graph, heads, h, vs);
    SlotsAreHeads(g, heads, h, ops);
    assert forall k :: 0 <= k < |slots| ==> slots[k] in slots;
    RanksHold(heads, vs, slots);
    assert StageFor(g, heads, h).inputs == Ranks(heads, slots);
  }

  // ---- no node twice ----------------------------------------------------------------------------

  lemma RanksInjective(heads: seq<nat>, xs: seq<nat>, ys: seq<nat>)
    requires Below(heads, |heads|) && Below(xs, |heads|) && Below(ys, |heads|)
    requires forall i :: 0 <= i < |heads| ==> heads[heads[i]] == heads[i]
    requires forall k :: 0 <= k < |xs| ==> heads[xs[k]] == xs[k]
    requires forall k :: 0 <= k < |ys| ==> heads[ys[k]] == ys[k]
    requires Ranks(heads, xs) == Ranks(heads, ys)
    ensures xs == ys
  {
    forall k | 0 <= k < |xs| ensures |xs| == |ys| && xs[k] == ys[k] {
      assert Ranks(heads, xs)[k] == Ranks(heads, ys)[k];
    }
  }

  lemma DistinctShapes(g: seq<EngineNode>, i: nat, j: nat)
    requires Distinct(Shapes(g)) && i < |g| && j < |g| && g[i].token == g[j].token && g[i].inputs == g[j].inputs
    ensures i == j
  {
    if i < j { DistinctPair(Shapes(g), i, j); } else if j < i { DistinctPair(Shapes(g), j, i); }
  }

  lemma SameBoundarySameHead(graph: EngineGraph, heads: seq<nat>, templates: Templates, a: nat, b: nat)
    requires Graphed(graph) && FusionPlan(graph, heads) && Templated(graph.nodes, templates)
    requires Distinct(Shapes(graph.nodes))
    requires a < |heads| && b < |heads| && heads[a] == a && heads[b] == b && graph.nodes[a].boundary && graph.nodes[b].boundary
    requires FusedNode(graph.nodes, heads, templates, a) == FusedNode(graph.nodes, heads, templates, b)
    ensures a == b
  {
    var g := graph.nodes;
    assert Below(g[a].inputs, a) && Below(g[b].inputs, b);
    forall k | 0 <= k < |g[a].inputs| ensures heads[g[a].inputs[k]] == g[a].inputs[k] { OutsideIsBelow(graph, heads, a, k); }
    forall k | 0 <= k < |g[b].inputs| ensures heads[g[b].inputs[k]] == g[b].inputs[k] { OutsideIsBelow(graph, heads, b, k); }
    SameOperatorSameToken(templates[g[a].token], Ranks(heads, g[a].inputs));
    SameOperatorSameToken(templates[g[b].token], Ranks(heads, g[b].inputs));
    RanksInjective(heads, g[a].inputs, g[b].inputs);
    DistinctShapes(g, a, b);
  }

  /** A stage's first member reads nothing but slots, so the stage determines it. */
  lemma FirstMemberReadsSlots(graph: EngineGraph, heads: seq<nat>, h: nat, k: nat)
    requires Graphed(graph) && FusionPlan(graph, heads) && h < |heads| && heads[h] == h
    ensures Members(heads, h) != []
    ensures var g := graph.nodes; var ops := Members(heads, h); var slots := Slots(g, heads, h, ops);
      && var refs := StageFor(g, heads, h).members[0].refs;
      && |refs| == |g[ops[0]].inputs|
      && (k < |refs| ==> refs[k].Input? && refs[k].slot < |slots| && slots[refs[k].slot] == g[ops[0]].inputs[k])
  {
    var g := graph.nodes;
    HeadIsLastMember(heads, h);
    MembersFacts(heads, h);
    OpServed(g, heads, h, 0);
    var ops := Members(heads, h);
    var slots := Slots(g, heads, h, ops);
    var op := ops[0];
    assert op in ops;
    assert StageFor(g, heads, h).members[0].refs == RefsOf(g, heads, h, ops, slots, op);
    if k < |g[op].inputs| {
      var inp := g[op].inputs[k];
      assert inp < op;
      assert heads[inp] != h by {
        if inp in ops { AscendingAt(ops, 0, IndexOf(ops, inp)); }
      }
      OutsideIsBelow(graph, heads, op, k);
    }
  }

  lemma SameStageSameHead(graph: EngineGraph, heads: seq<nat>, a: nat, b: nat)
    requires Graphed(graph) && FusionPlan(graph, heads) && Distinct(Shapes(graph.nodes))
    requires a < |heads| && b < |heads| && heads[a] == a && heads[b] == b
    requires StageFor(graph.nodes, heads, a) == StageFor(graph.nodes, heads, b)
    ensures a == b
  {
    var g := graph.nodes;
    var ops, ops' := Members(heads, a), Members(heads, b);
    var slots, slots' := Slots(g, heads, a, ops), Slots(g, heads, b, ops');
    SlotsAreHeads(g, heads, a, ops);
    SlotsAreHeads(g, heads, b, ops');
    assert Ranks(heads, slots) == Ranks(heads, slots');
    assert forall k :: 0 <= k < |slots| ==> slots[k] in slots;
    assert forall k :: 0 <= k < |slots'| ==> slots'[k] in slots';
    RanksInjective(heads, slots, slots');
    FirstMemberReadsSlots(graph, heads, a, 0);
    FirstMemberReadsSlots(graph, heads, b, 0);
    var ins, ins' := g[ops[0]].inputs, g[ops'[0]].inputs;
    forall k | 0 <= k < |ins| ensures |ins| == |ins'| && ins[k] == ins'[k] {
      FirstMemberReadsSlots(graph, heads, a, k);
      FirstMemberReadsSlots(graph, heads, b, k);
    }
    assert ins == ins';
    assert StageFor(g, heads, a).members[0].token == StageFor(g, heads, b).members[0].token;
    DistinctShapes(g, ops[0], ops'[0]);
    MembersFacts(heads, a);
    MembersFacts(heads, b);
    assert ops[0] in ops && ops'[0] in ops';
  }

  lemma SameNodeSameHead(graph: EngineGraph, heads: seq<nat>, templates: Templates, a: nat, b: nat)
    requires Graphed(graph) && FusionPlan(graph, heads) && Templated(graph.nodes, templates)
    requires Distinct(Shapes(graph.nodes))
    requires forall i :: 0 <= i < |graph.nodes| && graph.nodes[i].boundary ==> !templates[graph.nodes[i].token].Stage?
    requires a < |heads| && b < |heads| && heads[a] == a && heads[b] == b
    ensures FusedNode(graph.nodes, heads, templates, a) == FusedNode(graph.nodes, heads, templates, b) ==> a == b
  {
    StageIffOp(graph.nodes, heads, templates, a);
    StageIffOp(graph.nodes, heads, templates, b);
    if FusedNode(graph.nodes, heads, templates, a) == FusedNode(graph.nodes, heads, templates, b) {
      if graph.nodes[a].boundary {
        SameBoundarySameHead(graph, heads, templates, a, b);
      } else {
        SameStageSameHead(graph, heads, a, b);
      }
    }
  }

  lemma StageIffOp(g: seq<EngineNode>, heads: seq<nat>, templates: Templates, h: nat)
    requires Topological(g) && |heads| == |g| && Below(heads, |g|) && h < |g|
    requires forall i :: 0 <= i < |heads| ==> heads[heads[i]] == heads[i]
    requires g[h].boundary ==> g[h].token in templates && !templates[g[h].token].Stage?
    ensures FusedNode(g, heads, templates, h).Stage? <==> !g[h].boundary
  {
  }

  /** Over a hash-consed graph whose boundaries are no stages, the reduced nodes are pairwise distinct. */
  lemma FusedDistinct(graph: EngineGraph, heads: seq<nat>, templates: Templates)
    requires Graphed(graph) && FusionPlan(graph, heads) && Templated(graph.nodes, templates)
    requires Distinct(Shapes(graph.nodes))
    requires forall i :: 0 <= i < |graph.nodes| && graph.nodes[i].boundary ==> !templates[graph.nodes[i].token].Stage?
    ensures Distinct(FusedNodes(graph.nodes, heads, templates))
  {
    var g := graph.nodes;
    var reduced := FusedNodes(g, heads, templates);
    HeadListFacts(heads);
    forall r, t | 0 <= r < t < |reduced| ensures reduced[r] != reduced[t] {
      var a, b := HeadList(heads)[r], HeadList(heads)[t];
      assert a in HeadList(heads) && b in HeadList(heads);
      DistinctPair(HeadList(heads), r, t);
      SameNodeSameHead(graph, heads, templates, a, b);
    }
    DistinctFromPairs(reduced);
  }
}
