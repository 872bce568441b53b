/** The IR node and its operator token (src/node.rs). */
module Nodes {
  import opened Collections
  import opened Text
  import opened Params

  type NodeId = nat

  datatype PayloadDescriptor = PayloadDescriptor(
    kind: string,
    contentHash: string,
    framework: string,
    version: string,
    ioSchema: string,
    preprocessingRef: Option<string>)

  datatype StageRef = Input(slot: nat) | Member(index: nat)

  datatype StageOp = StageOp(token: string, refs: seq<StageRef>)

  /** A node is its structural key: two nodes with equal keys are one node. */
  datatype NodeKey =
    | Source(name: string, params: ParamMap)
    | Op(name: string, params: ParamMap, inputs: seq<NodeId>)
    | Reduction(name: string, params: ParamMap, inputs: seq<NodeId>)
    | External(descriptor: PayloadDescriptor, params: ParamMap, inputs: seq<NodeId>)
    | Stage(inputs: seq<NodeId>, members: seq<StageOp>)
    | Exchange(params: ParamMap, inputs: seq<NodeId>)
    | Join(params: ParamMap, inputs: seq<NodeId>)
  {
    function Inputs(): seq<NodeId> {
      if Source? then [] else inputs
    }

    predicate IsBoundary() { !Op? }

    /** This node's operator over other inputs; a source has none. */
    function WithInputs(ins: seq<NodeId>): (k: NodeKey)
      ensures k.Inputs() == if Source? then [] else ins
    {
      if Source? then this else this.(inputs := ins)
    }

    function Token(): string {
      match this
      case Source(name, params) => WithParams("src|" + EscapeToken(name), params)
      case Op(name, params, _) => WithParams("op|" + EscapeToken(name), params)
      case Reduction(name, params, _) => WithParams("red|" + EscapeToken(name), params)
      case External(d, params, _) => WithParams(Text.Join(DescriptorFields(d), '|'), params)
      case Stage(_, members) => StageToken(members)
      case Exchange(params, _) => WithParams("exch", params)
      case Join(params, _) => WithParams("join", params)
    }
  }

  function WithParams(prefix: string, params: ParamMap): string {
    if params == [] then prefix else prefix + "|" + MapToken(params)
  }

  function RefToken(r: Option<string>): string {
    match r case Some(s) => "+" + EscapeToken(s) case None => "-"
  }

  function DescriptorFields(d: PayloadDescriptor): (fs: seq<string>)
    ensures |fs| == 7
  {
    ["ext", EscapeToken(d.kind), EscapeToken(d.contentHash), EscapeToken(d.framework),
     EscapeToken(d.version), EscapeToken(d.ioSchema), RefToken(d.preprocessingRef)]
  }

  function StageRefToken(r: StageRef): string {
    match r case Input(i) => "i" + Numeral(i, 10) case Member(i) => "m" + Numeral(i, 10)
  }

  function MemberToken(m: StageOp): string {
    EscapeToken(m.token) + "=" + Text.Join(Map(StageRefToken, m.refs), ',')
  }

  function StageToken(members: seq<StageOp>): string {
    "stage|" + Text.Join(Map(MemberToken, members), ';')
  }

  /** An op-shaped token's kind, name and parameters; nothing for any other token. */
  function ParseOpToken(token: string): Option<(string, string, ParamMap)> {
    var (kind, rest) := Cut(token, '|');
    if (kind != "op" && kind != "red") || rest.None? then None
    else
      var (name, params) := Cut(rest.value, '|');
      match params
      case None => Some((kind, UnescapeToken(name), NewMap([])))
      case Some(p) =>
        match MapFromToken(p)
        case Some(m) => Some((kind, UnescapeToken(name), m))
        case None => None
  }

  /** The pieces an op-shaped token is parsed from: its kind, its escaped name, and its parameters if any. */
  lemma OpTokenPieces(kind: string, name: string, rest: Option<string>)
    requires kind == "op" || kind == "red"
    requires '|' !in name
    ensures var tail := if rest.None? then name else name + ['|'] + rest.value;
      ParseOpToken(kind + ['|'] + tail) == match rest
        case None => Some((kind, UnescapeToken(name), NewMap([])))
        case Some(p) => match MapFromToken(p)
          case Some(m) => Some((kind, UnescapeToken(name), m))
          case None => None
  {
    hide UnescapeToken, MapFromToken, NewMap;
    CutAt(kind, '|', if rest.None? then name else name + ['|'] + rest.value);
    match rest
    case None => CutNone(name, '|');
    case Some(p) => CutAt(name, '|', p);
  }

  /** What a fused stage's member token decodes to is the op or reduction it was built from. */
  lemma ParseOpTokenInverts(key: NodeKey)
    requires key.Op? || key.Reduction?
    ensures ParseOpToken(key.Token()) == Some((if key.Op? then "op" else "red", key.name, key.params))
  {
    hide ParseOpToken, EscapeToken, UnescapeToken, MapToken, MapFromToken;
    var kind := if key.Op? then "op" else "red";
    var name := EscapeToken(key.name);
    EscapedIsSeparatorFree(key.name, '|');
    UnescapeEscape(key.name);
    if key.params == [] {
      OpTokenPieces(kind, name, None);
      assert key.Token() == kind + ['|'] + name;
    } else {
      OpTokenPieces(kind, name, Some(MapToken(key.params)));
      assert key.Token() == kind + ['|'] + (name + ['|'] + MapToken(key.params));
      MapRoundTrip(key.params);
    }
  }

  // ---- tokens determine operators ---------------------------------------------------------------

  function ParamFields(p: ParamMap): seq<string> {
    if p == [] then [] else [MapToken(p)]
  }

  /** The `|`-separated fields of a token. */
  function Fields(key: NodeKey): (fs: seq<string>)
    ensures fs != []
  {
    match key
    case Source(name, params) => ["src", EscapeToken(name)] + ParamFields(params)
    case Op(name, params, _) => ["op", EscapeToken(name)] + ParamFields(params)
    case Reduction(name, params, _) => ["red", EscapeToken(name)] + ParamFields(params)
    case External(d, params, _) => DescriptorFields(d) + ParamFields(params)
    case Stage(_, members) => ["stage", Text.Join(Map(MemberToken, members), ';')]
    case Exchange(params, _) => ["exch"] + ParamFields(params)
    case Join(params, _) => ["join"] + ParamFields(params)
  }

  lemma {:induction false} JoinMore(parts: seq<string>, sep: char, last: string)
    requires parts != []
    ensures Text.Join(parts + [last], sep) == Text.Join(parts, sep) + [sep] + last
  {
    var all := parts + [last];
    if |parts| == 1 {
      assert all[1..] == [last];
    } else {
      assert all[1..] == parts[1..] + [last];
      JoinMore(parts[1..], sep, last);
    }
  }

  lemma JoinParams(parts: seq<string>, p: ParamMap)
    requires parts != []
    ensures Text.Join(parts + ParamFields(p), '|') == WithParams(Text.Join(parts, '|'), p)
  {
    if p == [] {
      assert parts + ParamFields(p) == parts;
    } else {
      JoinMore(parts, '|', MapToken(p));
    }
  }

  lemma NamedToken(kind: string, bar: string, name: string, p: ParamMap)
    requires bar == kind + "|"
    ensures WithParams(bar + name, p) == Text.Join([kind, name] + ParamFields(p), '|')
  {
    var parts := [kind, name];
    assert parts[1..] == [name];
    assert Text.Join(parts, '|') == bar + name;
    JoinParams(parts, p);
  }

  lemma TokenIsFields(key: NodeKey)
    ensures key.Token() == Text.Join(Fields(key), '|')
  {
    match key
    case Source(name, params) => NamedToken("src", "src|", EscapeToken(name), params);
    case Op(name, params, _) => NamedToken("op", "op|", EscapeToken(name), params);
    case Reduction(name, params, _) => NamedToken("red", "red|", EscapeToken(name), params);
    case External(d, params, _) => JoinParams(DescriptorFields(d), params);
    case Stage(_, members) => NamedToken("stage", "stage|", Text.Join(Map(MemberToken, members), ';'), []);
    case Exchange(params, _) => JoinParams(["exch"], params);
    case Join(params, _) => JoinParams(["join"], params);
  }

  lemma DescriptorOmitsBar(d: PayloadDescriptor)
    ensures forall k :: 0 <= k < |DescriptorFields(d)| ==> '|' !in DescriptorFields(d)[k]
  {
    hide EscapeToken;
    EscapedIsSeparatorFree(d.kind, '|');
    EscapedIsSeparatorFree(d.contentHash, '|');
    EscapedIsSeparatorFree(d.framework, '|');
    EscapedIsSeparatorFree(d.version, '|');
    EscapedIsSeparatorFree(d.ioSchema, '|');
    if d.preprocessingRef.Some? { EscapedIsSeparatorFree(d.preprocessingRef.value, '|'); }
  }

  lemma FieldsOmitBar(key: NodeKey)
    ensures forall k :: 0 <= k < |Fields(key)| ==> '|' !in Fields(key)[k]
  {
    hide EscapeToken, MapToken, DescriptorFields, MemberToken, Text.Join;
    if !key.Stage? { MapTokenOmitsBar(key.params); }
    match key
    case Source(name, _) => EscapedIsSeparatorFree(name, '|');
    case Op(name, _, _) => EscapedIsSeparatorFree(name, '|');
    case Reduction(name, _, _) => EscapedIsSeparatorFree(name, '|');
    case External(d, _, _) => DescriptorOmitsBar(d);
    case Stage(_, members) =>
      forall k | 0 <= k < |members| ensures '|' !in Map(MemberToken, members)[k] { MemberOmits(members[k], '|'); }
      JoinOmits(Map(MemberToken, members), ';', '|');
    case Exchange(_, _) =>
    case Join(_, _) =>
  }

  lemma MemberOmits(m: StageOp, c: char)
    requires c in {';', '|'}
    ensures c !in MemberToken(m)
  {
    EscapedIsSeparatorFree(m.token, c);
    JoinOmits(Map(StageRefToken, m.refs), ',', c);
  }

  lemma StageRefTokenInjective(r: StageRef, s: StageRef)
    requires StageRefToken(r) == StageRefToken(s)
    ensures r == s
  {
    var i := if r.Input? then r.slot else r.index;
    var j := if s.Input? then s.slot else s.index;
    assert StageRefToken(r)[1..] == Numeral(i, 10) && StageRefToken(s)[1..] == Numeral(j, 10);
    NumeralRoundTrip(i, 10);
    NumeralRoundTrip(j, 10);
    assert StageRefToken(r)[0] == StageRefToken(s)[0];
  }

  lemma RefsTokenEmpty(rs: seq<StageRef>)
    ensures Text.Join(Map(StageRefToken, rs), ',') == "" <==> rs == []
  {
    if rs != [] { assert |StageRefToken(rs[0])| > 0; }
  }

  lemma RefsTokenInjective(rs: seq<StageRef>, ss: seq<StageRef>)
    requires Text.Join(Map(StageRefToken, rs), ',') == Text.Join(Map(StageRefToken, ss), ',')
    ensures rs == ss
  {
    RefsTokenEmpty(rs);
    RefsTokenEmpty(ss);
    if rs != [] {
      SplitJoin(Map(StageRefToken, rs), ',');
      SplitJoin(Map(StageRefToken, ss), ',');
      forall k | 0 <= k < |rs| ensures |ss| == |rs| && rs[k] == ss[k] {
        assert Map(StageRefToken, rs)[k] == Map(StageRefToken, ss)[k];
        StageRefTokenInjective(rs[k], ss[k]);
      }
    }
  }

  lemma MemberTokenInjective(m: StageOp, n: StageOp)
    requires MemberToken(m) == MemberToken(n)
    ensures m == n
  {
    EscapedIsSeparatorFree(m.token, '=');
    EscapedIsSeparatorFree(n.token, '=');
    CutAt(EscapeToken(m.token), '=', Text.Join(Map(StageRefToken, m.refs), ','));
    CutAt(EscapeToken(n.token), '=', Text.Join(Map(StageRefToken, n.refs), ','));
    EscapeInjective(m.token, n.token);
    RefsTokenInjective(m.refs, n.refs);
  }

  lemma MembersTokenEmpty(ms: seq<StageOp>)
    ensures Text.Join(Map(MemberToken, ms), ';') == "" <==> ms == []
  {
    if ms != [] { assert '=' in MemberToken(ms[0]); }
  }

  /** The stage body `tok=refs;...` is injective over member lists. */
  lemma MembersTokenInjective(ms: seq<StageOp>, ns: seq<StageOp>)
    requires Text.Join(Map(MemberToken, ms), ';') == Text.Join(Map(MemberToken, ns), ';')
    ensures ms == ns
  {
    MembersTokenEmpty(ms);
    MembersTokenEmpty(ns);
    if ms != [] {
      forall k | 0 <= k < |ms| ensures ';' !in Map(MemberToken, ms)[k] { MemberOmits(ms[k], ';'); }
      forall k | 0 <= k < |ns| ensures ';' !in Map(MemberToken, ns)[k] { MemberOmits(ns[k], ';'); }
      SplitJoin(Map(MemberToken, ms), ';');
      SplitJoin(Map(MemberToken, ns), ';');
      forall k | 0 <= k < |ms| ensures |ns| == |ms| && ms[k] == ns[k] {
        assert Map(MemberToken, ms)[k] == Map(MemberToken, ns)[k];
        MemberTokenInjective(ms[k], ns[k]);
      }
    }
  }

  lemma ParamFieldsInjective(p: ParamMap, q: ParamMap)
    requires ParamFields(p) == ParamFields(q)
    ensures p == q
  {
    if p != [] { MapTokenInjective(p, q); }
  }

  lemma DescriptorFieldsInjective(d: PayloadDescriptor, e: PayloadDescriptor)
    requires EscapeToken(d.kind) == EscapeToken(e.kind) && EscapeToken(d.contentHash) == EscapeToken(e.contentHash)
    requires EscapeToken(d.framework) == EscapeToken(e.framework) && EscapeToken(d.version) == EscapeToken(e.version)
    requires EscapeToken(d.ioSchema) == EscapeToken(e.ioSchema)
    requires RefToken(d.preprocessingRef) == RefToken(e.preprocessingRef)
    ensures d == e
  {
    EscapeInjective(d.kind, e.kind);
    EscapeInjective(d.contentHash, e.contentHash);
    EscapeInjective(d.framework, e.framework);
    EscapeInjective(d.version, e.version);
    EscapeInjective(d.ioSchema, e.ioSchema);
    var r, s := RefToken(d.preprocessingRef), RefToken(e.preprocessingRef);
    assert r[0] == s[0] && r[1..] == s[1..];
    if d.preprocessingRef.Some? {
      assert r[1..] == EscapeToken(d.preprocessingRef.value) && s[1..] == EscapeToken(e.preprocessingRef.value);
      EscapeInjective(d.preprocessingRef.value, e.preprocessingRef.value);
    }
  }

  lemma FieldsInjective(a: NodeKey, b: NodeKey)
    requires Fields(a) == Fields(b)
    ensures a.WithInputs([]) == b.WithInputs([])
  {
    var fs, gs := Fields(a), Fields(b);
    assert fs[0] == gs[0];
    assert fs[1..] == gs[1..];
    match a
    case Exchange(p, _) => assert fs[1..] == ParamFields(p) && gs[1..] == ParamFields(b.params); ParamFieldsInjective(p, b.params);
    case Join(p, _) => assert fs[1..] == ParamFields(p) && gs[1..] == ParamFields(b.params); ParamFieldsInjective(p, b.params);
    case Stage(_, members) => assert fs[1] == gs[1]; MembersTokenInjective(members, b.members);
    case External(d, p, _) =>
      assert fs[1] == gs[1] && fs[2] == gs[2] && fs[3] == gs[3] && fs[4] == gs[4] && fs[5] == gs[5] && fs[6] == gs[6];
      assert fs[7..] == ParamFields(p) && gs[7..] == ParamFields(b.params);
      DescriptorFieldsInjective(d, b.descriptor);
      ParamFieldsInjective(p, b.params);
    case _ =>
      assert fs[1] == gs[1] && fs[2..] == ParamFields(a.params) && gs[2..] == ParamFields(b.params);
      EscapeInjective(a.name, b.name);
      ParamFieldsInjective(a.params, b.params);
  }

  /** Equal tokens mean equal operators, across all seven kinds: rebuilding a node from the first
      key seen with its token loses nothing. */
  lemma TokenIsOperator(a: NodeKey, b: NodeKey)
    ensures a.Token() == b.Token() <==> a.WithInputs([]) == b.WithInputs([])
  {
    TokenIsFields(a);
    TokenIsFields(b);
    if a.Token() == b.Token() {
      FieldsOmitBar(a);
      FieldsOmitBar(b);
      SplitJoin(Fields(a), '|');
      SplitJoin(Fields(b), '|');
      FieldsInjective(a, b);
    }
  }

  lemma SameOperatorSameToken(key: NodeKey, ins: seq<NodeId>)
    ensures key.WithInputs(ins).Token() == key.Token()
  {
  }

  lemma TokenOfStage(key: NodeKey)
    requires key.Stage?
    ensures key.Token() == StageToken(key.members)
  {
  }

  lemma KeyIsOperatorAndInputs(a: NodeKey, b: NodeKey)
    ensures a == b <==> a.WithInputs([]) == b.WithInputs([]) && a.Inputs() == b.Inputs()
  {
  }

  /** A node key is its token and its inputs. */
  lemma KeyIsTokenAndInputs(a: NodeKey, b: NodeKey)
    ensures a == b <==> a.Token() == b.Token() && a.Inputs() == b.Inputs()
  {
    hide NodeKey.Token, NodeKey.Inputs, NodeKey.WithInputs;
    TokenIsOperator(a, b);
    KeyIsOperatorAndInputs(a, b);
  }
}
