/** The durable form of a graph: what each record is written as, what a reader finds in any bytes, and
    that reading undoes writing (src/serialize.rs). */
module Codec {
  import opened Collections
  import opened Params
  import opened Nodes
  import opened Bytes

  const MAGIC: seq<byte> := [0x47, 0x49, 0x52, 0x31]

  const T_SOURCE: byte := 0
  const T_OP: byte := 1
  const T_REDUCTION: byte := 2
  const T_EXTERNAL: byte := 3
  const T_STAGE: byte := 4
  const T_EXCHANGE: byte := 5
  const T_JOIN: byte := 6

  const P_INT: byte := 0
  const P_FLOAT: byte := 1
  const P_BOOL: byte := 2
  const P_STR: byte := 3

  const R_INPUT: byte := 0
  const R_MEMBER: byte := 1

  // ---- what is written --------------------------------------------------------------------------

  /** A signed integer's two's complement. */
  function Unsigned(i: int64): (u: uint64) {
    var n: int := i;
    if n < 0 then n + 0x1_0000_0000_0000_0000 else n
  }

  function Signed(u: uint64): (i: int64) {
    var n: int := u;
    if n >= 0x8000_0000_0000_0000 then n - 0x1_0000_0000_0000_0000 else n
  }

  function EncodeValue(v: ParamValue): Written {
    match v
    case Int(i) => Ok([P_INT] + Le(Unsigned(i), 8))
    case Float(bits) => Ok([P_FLOAT] + Le(bits, 8))
    case Bool(b) => Ok([P_BOOL, if b then 1 else 0])
    case Str(s) => Then(Ok([P_STR]), EncodeStr(s))
  }

  function EncodeEntry(e: Entry): Written {
    Then(EncodeStr(e.0), EncodeValue(e.1))
  }

  function EncodeParams(p: ParamMap): Written {
    EncodeList(EncodeEntry, p)
  }

  function EncodeId(i: NodeId): Written {
    Ok(Le(i, 8))
  }

  function EncodeInputs(ids: seq<NodeId>): Written {
    EncodeList(EncodeId, ids)
  }

  function EncodeRef(r: StageRef): Written {
    match r
    case Input(i) => Then(Ok([R_INPUT]), EncodeLen(i))
    case Member(i) => Then(Ok([R_MEMBER]), EncodeLen(i))
  }

  function EncodeMember(m: StageOp): Written {
    Then(EncodeStr(m.token), EncodeList(EncodeRef, m.refs))
  }

  function EncodeOptional(s: Option<string>): Written {
    match s
    case None => Ok([0])
    case Some(t) => Then(Ok([1]), EncodeStr(t))
  }

  function EncodeDescriptor(d: PayloadDescriptor): Written {
    Then(EncodeStr(d.kind), Then(EncodeStr(d.contentHash), Then(EncodeStr(d.framework),
      Then(EncodeStr(d.version), Then(EncodeStr(d.ioSchema), EncodeOptional(d.preprocessingRef))))))
  }

  function EncodeWired(p: ParamMap, ids: seq<NodeId>): Written {
    Then(EncodeParams(p), EncodeInputs(ids))
  }

  function EncodeNode(key: NodeKey): Written {
    match key
    case Source(name, p) => Then(Ok([T_SOURCE]), Then(EncodeStr(name), EncodeParams(p)))
    case Op(name, p, ids) => Then(Ok([T_OP]), Then(EncodeStr(name), EncodeWired(p, ids)))
    case Reduction(name, p, ids) => Then(Ok([T_REDUCTION]), Then(EncodeStr(name), EncodeWired(p, ids)))
    case External(d, p, ids) => Then(Ok([T_EXTERNAL]), Then(EncodeDescriptor(d), EncodeWired(p, ids)))
    case Exchange(p, ids) => Then(Ok([T_EXCHANGE]), EncodeWired(p, ids))
    case Join(p, ids) => Then(Ok([T_JOIN]), EncodeWired(p, ids))
    case Stage(ids, members) => Then(Ok([T_STAGE]), Then(EncodeInputs(ids), EncodeList(EncodeMember, members)))
  }

  /** The bytes of a store's nodes, in id order, and of the outputs flagged with them. */
  function Encode(nodes: seq<NodeKey>, outputs: seq<NodeId>): Written {
    Then(Ok(MAGIC), Then(EncodeList(EncodeNode, nodes), EncodeList(EncodeId, outputs)))
  }

  // ---- what is read -----------------------------------------------------------------------------

  function U64At(buf: seq<byte>, pos: nat): (r: Parsed<uint64>) {
    var (n, next) :- NumberAt(buf, pos, 8);
    Limits();
    Ok((n, next))
  }

  function ValueAt(buf: seq<byte>, pos: nat): Parsed<ParamValue> {
    var (tag, p) :- ByteAt(buf, pos);
    if tag == P_INT then var (u, next) :- U64At(buf, p); Ok((Int(Signed(u)), next))
    else if tag == P_FLOAT then var (u, next) :- U64At(buf, p); Ok((Float(FloatKey(u)), next))
    else if tag == P_BOOL then var (b, next) :- ByteAt(buf, p); Ok((Bool(b != 0), next))
    else if tag == P_STR then var (s, next) :- StringAt(buf, p); Ok((Str(s), next))
    else Err(BadTag("param", tag))
  }

  function EntryAt(buf: seq<byte>): Parser<Entry> {
    (pos: nat, i: nat) =>
      var (k, p) :- StringAt(buf, pos);
      var (v, next) :- ValueAt(buf, p);
      Ok(((k, v), next))
  }

  function ParamsAt(buf: seq<byte>, pos: nat): Parsed<ParamMap> {
    var (es, next) :- ListAt(buf, pos, EntryAt(buf));
    Ok((NewMap(es), next))
  }

  function IdAt(buf: seq<byte>, max: nat): Parser<NodeId> {
    (pos: nat, i: nat) =>
      var (id, next) :- U64At(buf, pos);
      if id >= max then Err(BadNodeRef(id)) else Ok((id, next))
  }

  function InputsAt(buf: seq<byte>, pos: nat, max: nat): Parsed<seq<NodeId>> {
    ListAt(buf, pos, IdAt(buf, max))
  }

  /** A reference of the member `index` of its stage, which may name an earlier member. */
  function RefAt(buf: seq<byte>, index: nat): Parser<StageRef> {
    (pos: nat, i: nat) =>
      var (tag, p) :- ByteAt(buf, pos);
      var (v, next) :- NumberAt(buf, p, 4);
      if tag == R_INPUT then Ok((Input(v), next))
      else if tag == R_MEMBER then (if v >= index then Err(BadNodeRef(v)) else Ok((Member(v), next)))
      else Err(BadTag("stage-ref", tag))
  }

  function OneMemberAt(buf: seq<byte>, pos: nat, index: nat): Parsed<StageOp> {
    var (token, p) :- StringAt(buf, pos);
    var (refs, next) :- ListAt(buf, p, RefAt(buf, index));
    Ok((StageOp(token, refs), next))
  }

  function MemberAt(buf: seq<byte>): Parser<StageOp> {
    (pos: nat, i: nat) => OneMemberAt(buf, pos, i)
  }

  function MembersAt(buf: seq<byte>, pos: nat): Parsed<seq<StageOp>> {
    ListAt(buf, pos, MemberAt(buf))
  }

  function OptionalAt(buf: seq<byte>, pos: nat): Parsed<Option<string>> {
    var (flag, p) :- ByteAt(buf, pos);
    if flag == 0 then Ok((None, p)) else var (s, next) :- StringAt(buf, p); Ok((Some(s), next))
  }

  function DescriptorAt(buf: seq<byte>, pos: nat): Parsed<PayloadDescriptor> {
    var (kind, a) :- StringAt(buf, pos);
    var (contentHash, b) :- StringAt(buf, a);
    var (framework, c) :- StringAt(buf, b);
    var (version, d) :- StringAt(buf, c);
    var (ioSchema, e) :- StringAt(buf, d);
    var (preprocessingRef, next) :- OptionalAt(buf, e);
    Ok((PayloadDescriptor(kind, contentHash, framework, version, ioSchema, preprocessingRef), next))
  }

  type Wired = (ParamMap, seq<NodeId>)

  function WiredAt(buf: seq<byte>, pos: nat, max: nat): Parsed<Wired> {
    var (p, q) :- ParamsAt(buf, pos);
    var (ids, next) :- InputsAt(buf, q, max);
    Ok(((p, ids), next))
  }

  type NamedWired = (string, Wired)

  function NamedAt(buf: seq<byte>, pos: nat, max: nat): Parsed<NamedWired> {
    var (name, q) :- StringAt(buf, pos);
    var (w, next) :- WiredAt(buf, q, max);
    Ok(((name, w), next))
  }

  /** A node record, whose inputs must be among the `max` nodes before it. */
  function NodeAt(buf: seq<byte>, pos: nat, max: nat): Parsed<NodeKey> {
    var (tag, p) :- ByteAt(buf, pos);
    if tag == T_SOURCE then
      var (name, q) :- StringAt(buf, p);
      var (params, next) :- ParamsAt(buf, q);
      Ok((Source(name, params), next))
    else if tag == T_OP then
      var (n, next) :- NamedAt(buf, p, max);
      Ok((Op(n.0, n.1.0, n.1.1), next))
    else if tag == T_REDUCTION then
      var (n, next) :- NamedAt(buf, p, max);
      Ok((Reduction(n.0, n.1.0, n.1.1), next))
    else if tag == T_EXTERNAL then
      var (d, q) :- DescriptorAt(buf, p);
      var (w, next) :- WiredAt(buf, q, max);
      Ok((External(d, w.0, w.1), next))
    else if tag == T_EXCHANGE then
      var (w, next) :- WiredAt(buf, p, max);
      Ok((Exchange(w.0, w.1), next))
    else if tag == T_JOIN then
      var (w, next) :- WiredAt(buf, p, max);
      Ok((Join(w.0, w.1), next))
    else if tag == T_STAGE then
      var (ids, q) :- InputsAt(buf, p, max);
      var (members, next) :- MembersAt(buf, q);
      Ok((Stage(ids, members), next))
    else Err(BadTag("node", tag))
  }

  // ---- reading undoes writing -------------------------------------------------------------------

  lemma SignedRoundTrip(i: int64)
    ensures Signed(Unsigned(i)) == i
  {
  }

  lemma U64Reads(buf: seq<byte>, pos: nat, u: uint64)
    ensures Reads(buf, pos, Ok(Le(u, 8)), U64At(buf, pos), u)
  {
    Limits();
    NumberReads(buf, pos, u, 8);
  }

  lemma ValueReads(buf: seq<byte>, pos: nat, v: ParamValue)
    ensures Reads(buf, pos, EncodeValue(v), ValueAt(buf, pos), v)
  {
    hide Le, LeValue, NumberAt, StringAt, EncodeStr, ByteAt, U64At, FloatKey;
    var w := EncodeValue(v);
    if w.Ok? && At(buf, pos, w.value) {
      var tag := [w.value[0]];
      var rest := w.value[1..];
      assert w.value == tag + rest;
      AtParts(buf, pos, tag, rest);
      ByteReads(buf, pos, w.value[0]);
      match v
      case Int(i) => U64Reads(buf, pos + 1, Unsigned(i)); SignedRoundTrip(i); assert rest == Le(Unsigned(i), 8);
      case Float(bits) => U64Reads(buf, pos + 1, bits); assert rest == Le(bits, 8); CanonicalBits(bits);
      case Bool(b) => ByteReads(buf, pos + 1, if b then 1 else 0); assert rest == [if b then 1 else 0];
      case Str(s) => StrReads(buf, pos + 1, s); assert rest == EncodeStr(s).value;
    }
  }

  lemma CanonicalBits(b: FloatBits)
    ensures FloatKey(b) == b
  {
  }

  lemma EntryReads(buf: seq<byte>, pos: nat, i: nat, e: Entry)
    ensures Reads(buf, pos, EncodeEntry(e), EntryAt(buf)(pos, i), e)
  {
    hide EncodeStr, StringAt, EncodeValue, ValueAt;
    var w := EncodeEntry(e);
    if w.Ok? && At(buf, pos, w.value) {
      AtParts(buf, pos, EncodeStr(e.0).value, EncodeValue(e.1).value);
      StrReads(buf, pos, e.0);
      ValueReads(buf, pos + |EncodeStr(e.0).value|, e.1);
    }
  }

  lemma ParamsReads(buf: seq<byte>, pos: nat, p: ParamMap)
    ensures Reads(buf, pos, EncodeParams(p), ParamsAt(buf, pos), p)
  {
    hide EncodeEntry, EntryAt, EncodeList, ListAt, NewMap;
    forall i: nat, q: nat | i < |p| ensures Reads(buf, q, EncodeEntry(p[i]), EntryAt(buf)(q, i), p[i]) {
      EntryReads(buf, q, i, p[i]);
    }
    ListReads(buf, pos, EncodeEntry, EntryAt(buf), p);
    NewMapOfSorted(p);
  }

  lemma IdReads(buf: seq<byte>, pos: nat, i: nat, id: NodeId, max: nat)
    requires id < max <= 0x1_0000_0000_0000_0000
    ensures Reads(buf, pos, EncodeId(id), IdAt(buf, max)(pos, i), id)
  {
    hide Le, U64At;
    U64Reads(buf, pos, id);
  }

  lemma InputsRead(buf: seq<byte>, pos: nat, ids: seq<NodeId>, max: nat)
    requires Below(ids, max) && max <= 0x1_0000_0000_0000_0000
    ensures Reads(buf, pos, EncodeInputs(ids), InputsAt(buf, pos, max), ids)
  {
    hide EncodeId, IdAt;
    forall i: nat, q: nat | i < |ids| ensures Reads(buf, q, EncodeId(ids[i]), IdAt(buf, max)(q, i), ids[i]) {
      IdReads(buf, q, i, ids[i], max);
    }
    ListReads(buf, pos, EncodeId, IdAt(buf, max), ids);
  }

  /** A member's references to members are to earlier ones. */
  predicate RefsEarlier(m: StageOp, index: nat) {
    forall k :: 0 <= k < |m.refs| && m.refs[k].Member? ==> m.refs[k].index < index
  }

  predicate MembersEarlier(members: seq<StageOp>) {
    forall k :: 0 <= k < |members| ==> RefsEarlier(members[k], k)
  }

  lemma RefReads(buf: seq<byte>, pos: nat, i: nat, r: StageRef, index: nat)
    requires r.Member? ==> r.index < index
    ensures Reads(buf, pos, EncodeRef(r), RefAt(buf, index)(pos, i), r)
  {
    hide EncodeLen, NumberAt, ByteAt;
    var w := EncodeRef(r);
    if w.Ok? && At(buf, pos, w.value) {
      var tag := if r.Input? then R_INPUT else R_MEMBER;
      var v := if r.Input? then r.slot else r.index;
      AtParts(buf, pos, [tag], EncodeLen(v).value);
      ByteReads(buf, pos, tag);
      LenReads(buf, pos + 1, v);
    }
  }

  lemma MemberReads(buf: seq<byte>, pos: nat, i: nat, m: StageOp)
    requires RefsEarlier(m, i)
    ensures Reads(buf, pos, EncodeMember(m), MemberAt(buf)(pos, i), m)
  {
    hide EncodeStr, StringAt, EncodeRef, RefAt, EncodeList, ListAt;
    var w := EncodeMember(m);
    if w.Ok? && At(buf, pos, w.value) {
      AtParts(buf, pos, EncodeStr(m.token).value, EncodeList(EncodeRef, m.refs).value);
      StrReads(buf, pos, m.token);
      forall k: nat, q: nat | k < |m.refs| ensures Reads(buf, q, EncodeRef(m.refs[k]), RefAt(buf, i)(q, k), m.refs[k]) {
        RefReads(buf, q, k, m.refs[k], i);
      }
      var p := pos + |EncodeStr(m.token).value|;
      ListReads(buf, p, EncodeRef, RefAt(buf, i), m.refs);
      assert StringAt(buf, pos) == Ok((m.token, p));
      assert ListAt(buf, p, RefAt(buf, i)) == Ok((m.refs, pos + |w.value|));
      assert OneMemberAt(buf, pos, i) == Ok((m, pos + |w.value|));
    }
  }

  lemma MembersRead(buf: seq<byte>, pos: nat, members: seq<StageOp>)
    requires MembersEarlier(members)
    ensures Reads(buf, pos, EncodeList(EncodeMember, members), MembersAt(buf, pos), members)
  {
    hide EncodeMember, MemberAt, RefsEarlier;
    forall k: nat, q: nat | k < |members| ensures Reads(buf, q, EncodeMember(members[k]), MemberAt(buf)(q, k), members[k]) {
      MemberReads(buf, q, k, members[k]);
    }
    ListReads(buf, pos, EncodeMember, MemberAt(buf), members);
  }

  lemma OptionalReads(buf: seq<byte>, pos: nat, s: Option<string>)
    ensures Reads(buf, pos, EncodeOptional(s), OptionalAt(buf, pos), s)
  {
    hide EncodeStr, StringAt, ByteAt;
    var w := EncodeOptional(s);
    if w.Ok? && At(buf, pos, w.value) {
      match s
      case None => ByteReads(buf, pos, 0);
      case Some(t) =>
        AtParts(buf, pos, [1], EncodeStr(t).value);
        ByteReads(buf, pos, 1);
        StrReads(buf, pos + 1, t);
    }
  }

  lemma DescriptorReads(buf: seq<byte>, pos: nat, d: PayloadDescriptor)
    ensures Reads(buf, pos, EncodeDescriptor(d), DescriptorAt(buf, pos), d)
  {
    hide EncodeStr, StringAt, EncodeOptional, OptionalAt, At, Then;
    var w := EncodeDescriptor(d);
    if w.Ok? && At(buf, pos, w.value) {
      var f := EncodeOptional(d.preprocessingRef);
      var e := Then(EncodeStr(d.ioSchema), f);
      var v := Then(EncodeStr(d.version), e);
      var c := Then(EncodeStr(d.framework), v);
      var b := Then(EncodeStr(d.contentHash), c);
      var a := pos + |EncodeStr(d.kind).value|;
      AtParts(buf, pos, EncodeStr(d.kind).value, b.value);
      StrReads(buf, pos, d.kind);
      AtParts(buf, a, EncodeStr(d.contentHash).value, c.value);
      StrReads(buf, a, d.contentHash);
      var a1 := a + |EncodeStr(d.contentHash).value|;
      AtParts(buf, a1, EncodeStr(d.framework).value, v.value);
      StrReads(buf, a1, d.framework);
      var a2 := a1 + |EncodeStr(d.framework).value|;
      AtParts(buf, a2, EncodeStr(d.version).value, e.value);
      StrReads(buf, a2, d.version);
      var a3 := a2 + |EncodeStr(d.version).value|;
      AtParts(buf, a3, EncodeStr(d.ioSchema).value, f.value);
      StrReads(buf, a3, d.ioSchema);
      OptionalReads(buf, a3 + |EncodeStr(d.ioSchema).value|, d.preprocessingRef);
    }
  }

  lemma WiredReads(buf: seq<byte>, pos: nat, p: ParamMap, ids: seq<NodeId>, max: nat)
    requires Below(ids, max) && max <= 0x1_0000_0000_0000_0000
    ensures Reads(buf, pos, EncodeWired(p, ids), WiredAt(buf, pos, max), (p, ids))
  {
    hide EncodeParams, ParamsAt, EncodeInputs, InputsAt;
    var w := EncodeWired(p, ids);
    if w.Ok? && At(buf, pos, w.value) {
      AtParts(buf, pos, EncodeParams(p).value, EncodeInputs(ids).value);
      ParamsReads(buf, pos, p);
      InputsRead(buf, pos + |EncodeParams(p).value|, ids, max);
    }
  }

  lemma NamedReads(buf: seq<byte>, pos: nat, name: string, p: ParamMap, ids: seq<NodeId>, max: nat)
    requires Below(ids, max) && max <= 0x1_0000_0000_0000_0000
    ensures Reads(buf, pos, Then(EncodeStr(name), EncodeWired(p, ids)), NamedAt(buf, pos, max), (name, (p, ids)))
  {
    hide EncodeStr, StringAt, EncodeWired, WiredAt;
    var w := Then(EncodeStr(name), EncodeWired(p, ids));
    if w.Ok? && At(buf, pos, w.value) {
      AtParts(buf, pos, EncodeStr(name).value, EncodeWired(p, ids).value);
      StrReads(buf, pos, name);
      WiredReads(buf, pos + |EncodeStr(name).value|, p, ids, max);
    }
  }

  /** A node a reader of the format takes: a stage's member references are to earlier members. */
  predicate Readable(key: NodeKey) {
    key.Stage? ==> MembersEarlier(key.members)
  }

  lemma SourceReads(buf: seq<byte>, pos: nat, key: NodeKey, max: nat)
    requires key.Source? && EncodeNode(key).Ok? && At(buf, pos, EncodeNode(key).value)
    ensures NodeAt(buf, pos, max) == Ok((key, pos + |EncodeNode(key).value|))
  {
    hide EncodeStr, StringAt, EncodeParams, ParamsAt, At, ByteAt;
    var a, b := EncodeStr(key.name), EncodeParams(key.params);
    AtParts(buf, pos, [T_SOURCE], a.value + b.value);
    ByteReads(buf, pos, T_SOURCE);
    AtParts(buf, pos + 1, a.value, b.value);
    StrReads(buf, pos + 1, key.name);
    ParamsReads(buf, pos + 1 + |a.value|, key.params);
  }

  lemma StageReads(buf: seq<byte>, pos: nat, key: NodeKey, max: nat)
    requires key.Stage? && Below(key.inputs, max) && max <= 0x1_0000_0000_0000_0000 && Readable(key)
    requires EncodeNode(key).Ok? && At(buf, pos, EncodeNode(key).value)
    ensures NodeAt(buf, pos, max) == Ok((key, pos + |EncodeNode(key).value|))
  {
    hide EncodeInputs, InputsAt, EncodeList, MembersAt, At, ByteAt, MembersEarlier;
    var a, b := EncodeInputs(key.inputs), EncodeList(EncodeMember, key.members);
    AtParts(buf, pos, [T_STAGE], a.value + b.value);
    ByteReads(buf, pos, T_STAGE);
    AtParts(buf, pos + 1, a.value, b.value);
    InputsRead(buf, pos + 1, key.inputs, max);
    MembersRead(buf, pos + 1 + |a.value|, key.members);
  }

  lemma ExternalReads(buf: seq<byte>, pos: nat, key: NodeKey, max: nat)
    requires key.External? && Below(key.inputs, max) && max <= 0x1_0000_0000_0000_0000
    requires EncodeNode(key).Ok? && At(buf, pos, EncodeNode(key).value)
    ensures NodeAt(buf, pos, max) == Ok((key, pos + |EncodeNode(key).value|))
  {
    hide EncodeDescriptor, DescriptorAt, EncodeWired, WiredAt, At, ByteAt;
    var a, b := EncodeDescriptor(key.descriptor), EncodeWired(key.params, key.inputs);
    AtParts(buf, pos, [T_EXTERNAL], a.value + b.value);
    ByteReads(buf, pos, T_EXTERNAL);
    AtParts(buf, pos + 1, a.value, b.value);
    DescriptorReads(buf, pos + 1, key.descriptor);
    WiredReads(buf, pos + 1 + |a.value|, key.params, key.inputs, max);
  }

  lemma NamedNodeReads(buf: seq<byte>, pos: nat, key: NodeKey, max: nat)
    requires (key.Op? || key.Reduction?) && Below(key.inputs, max) && max <= 0x1_0000_0000_0000_0000
    requires EncodeNode(key).Ok? && At(buf, pos, EncodeNode(key).value)
    ensures NodeAt(buf, pos, max) == Ok((key, pos + |EncodeNode(key).value|))
  {
    hide EncodeStr, EncodeWired, NamedAt, At, ByteAt;
    var tag := if key.Op? then T_OP else T_REDUCTION;
    var a := Then(EncodeStr(key.name), EncodeWired(key.params, key.inputs));
    AtParts(buf, pos, [tag], a.value);
    ByteReads(buf, pos, tag);
    NamedReads(buf, pos + 1, key.name, key.params, key.inputs, max);
  }

  lemma BarrierReads(buf: seq<byte>, pos: nat, key: NodeKey, max: nat)
    requires (key.Exchange? || key.Join?) && Below(key.inputs, max) && max <= 0x1_0000_0000_0000_0000
    requires EncodeNode(key).Ok? && At(buf, pos, EncodeNode(key).value)
    ensures NodeAt(buf, pos, max) == Ok((key, pos + |EncodeNode(key).value|))
  {
    hide EncodeWired, WiredAt, At, ByteAt;
    var tag := if key.Exchange? then T_EXCHANGE else T_JOIN;
    AtParts(buf, pos, [tag], EncodeWired(key.params, key.inputs).value);
    ByteReads(buf, pos, tag);
    WiredReads(buf, pos + 1, key.params, key.inputs, max);
  }

  /** Every kind of node is read back as it was written. */
  lemma NodeReads(buf: seq<byte>, pos: nat, key: NodeKey, max: nat)
    requires Below(key.Inputs(), max) && max <= 0x1_0000_0000_0000_0000 && Readable(key)
    ensures Reads(buf, pos, EncodeNode(key), NodeAt(buf, pos, max), key)
  {
    hide EncodeNode, NodeAt, Readable, At, NodeKey.Token;
    var w := EncodeNode(key);
    if w.Ok? && At(buf, pos, w.value) {
      match key
      case Source(_, _) => SourceReads(buf, pos, key, max);
      case Stage(_, _) => StageReads(buf, pos, key, max);
      case External(_, _, _) => ExternalReads(buf, pos, key, max);
      case Op(_, _, _) => NamedNodeReads(buf, pos, key, max);
      case Reduction(_, _, _) => NamedNodeReads(buf, pos, key, max);
      case _ => BarrierReads(buf, pos, key, max);
    }
  }

  // ---- what does not fit ------------------------------------------------------------------------

  /** Writing fails on nothing but a length or index past the format's 32 bits. */
  predicate FailsLong(w: Written) {
    w.Err? ==> w.error.value >= 0x1_0000_0000
  }

  lemma {:induction false} AllFailLong<T>(enc: T -> Written, xs: seq<T>)
    requires forall x :: FailsLong(enc(x))
    ensures FailsLong(EncodeAll(enc, xs)) && FailsLong(EncodeList(enc, xs))
  {
    if xs != [] { AllFailLong(enc, xs[..|xs| - 1]); }
  }

  lemma WiredFailsLong(p: ParamMap, ids: seq<NodeId>)
    ensures FailsLong(EncodeParams(p)) && FailsLong(EncodeInputs(ids)) && FailsLong(EncodeWired(p, ids))
  {
    AllFailLong(EncodeEntry, p);
    AllFailLong(EncodeId, ids);
  }

  lemma MembersFailLong(members: seq<StageOp>)
    ensures FailsLong(EncodeList(EncodeMember, members))
  {
    forall m ensures FailsLong(EncodeMember(m)) { AllFailLong(EncodeRef, m.refs); }
    AllFailLong(EncodeMember, members);
  }

  lemma NodeFailsLong(key: NodeKey)
    ensures FailsLong(EncodeNode(key))
  {
    hide NodeKey.Token, EncodeParams, EncodeInputs, EncodeList;
    if key.Stage? { MembersFailLong(key.members); }
    WiredFailsLong(if key.Stage? then [] else key.params, key.Inputs());
  }

  lemma OnlyLongFails(nodes: seq<NodeKey>, outputs: seq<NodeId>)
    ensures FailsLong(Encode(nodes, outputs))
  {
    hide EncodeNode, EncodeList;
    forall key ensures FailsLong(EncodeNode(key)) { NodeFailsLong(key); }
    AllFailLong(EncodeNode, nodes);
    AllFailLong(EncodeId, outputs);
  }
}
