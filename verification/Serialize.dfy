/** Serializing a store and reading it back: the writer and reader loops, and the round trip
    (src/serialize.rs). */
module Serialize {
  import opened Collections
  import opened Params
  import opened Nodes
  import opened Graph
  import opened Bytes
  import opened Codec
  import opened Store

  // ---- the writer -------------------------------------------------------------------------------

  /** `out` with what `w` writes appended. */
  function Onto(out: seq<byte>, w: Written): Written {
    Then(Ok(out), w)
  }

  lemma OntoThen(out: seq<byte>, a: Written, b: Written)
    ensures a.Ok? ==> Onto(out + a.value, b) == Onto(out, Then(a, b))
    ensures a.Err? ==> Onto(out, Then(a, b)) == a
  {
    if a.Ok? && b.Ok? { assert (out + a.value) + b.value == out + (a.value + b.value); }
  }

  function PutLen(out: seq<byte>, n: nat): (r: Written)
    ensures r == Onto(out, EncodeLen(n))
  {
    if n < 0x1_0000_0000 then Ok(out + Le(n, 4)) else Err(EncodeError(n))
  }

  function PutStr(out: seq<byte>, s: string): (r: Written)
    ensures r == Onto(out, EncodeStr(s))
  {
    var bs := Utf8(s);
    var out1 :- PutLen(out, |bs|);
    OntoThen(out, EncodeLen(|bs|), Ok(bs));
    Ok(out1 + bs)
  }

  /** A count, then each item in turn, `put` appending one. */
  method PutList<T>(out0: seq<byte>, ghost enc: T -> Written, put: (seq<byte>, T) -> Written, xs: seq<T>) returns (r: Written)
    requires forall out, x :: put(out, x) == Onto(out, enc(x))
    ensures r == Onto(out0, EncodeList(enc, xs))
  {
    var w := PutLen(out0, |xs|);
    OntoThen(out0, EncodeLen(|xs|), EncodeAll(enc, xs));
    if w.Err? { return w; }
    var out := w.value;
    assert xs[..0] == [] && out + [] == out;
    for k := 0 to |xs|
      invariant Ok(out) == Onto(w.value, EncodeAll(enc, xs[..k]))
    {
      EncodeMore(enc, xs, k);
      OntoThen(w.value, EncodeAll(enc, xs[..k]), enc(xs[k]));
      var next := put(out, xs[k]);
      if next.Err? {
        EncodeStops(enc, xs, k + 1);
        return next;
      }
      out := next.value;
    }
    assert xs[..|xs|] == xs;
    return Ok(out);
  }

  function PutValue(out: seq<byte>, v: ParamValue): (r: Written)
    ensures r == Onto(out, EncodeValue(v))
  {
    match v
    case Int(i) => Ok(out + ([P_INT] + Le(Unsigned(i), 8)))
    case Float(bits) => Ok(out + ([P_FLOAT] + Le(bits, 8)))
    case Bool(b) => Ok(out + [P_BOOL, if b then 1 else 0])
    case Str(s) => OntoThen(out, Ok([P_STR]), EncodeStr(s)); PutStr(out + [P_STR], s)
  }

  function PutEntry(out: seq<byte>, e: Entry): (r: Written)
    ensures r == Onto(out, EncodeEntry(e))
  {
    OntoThen(out, EncodeStr(e.0), EncodeValue(e.1));
    var out1 :- PutStr(out, e.0);
    PutValue(out1, e.1)
  }

  function PutId(out: seq<byte>, id: NodeId): (r: Written)
    ensures r == Onto(out, EncodeId(id))
  {
    Ok(out + Le(id, 8))
  }

  function PutRef(out: seq<byte>, ref: StageRef): (r: Written)
    ensures r == Onto(out, EncodeRef(ref))
  {
    match ref
    case Input(i) => OntoThen(out, Ok([R_INPUT]), EncodeLen(i)); PutLen(out + [R_INPUT], i)
    case Member(i) => OntoThen(out, Ok([R_MEMBER]), EncodeLen(i)); PutLen(out + [R_MEMBER], i)
  }

  method PutParams(out: seq<byte>, p: ParamMap) returns (r: Written)
    ensures r == Onto(out, EncodeParams(p))
  {
    r := PutList(out, EncodeEntry, PutEntry, p);
  }

  method PutInputs(out: seq<byte>, ids: seq<NodeId>) returns (r: Written)
    ensures r == Onto(out, EncodeInputs(ids))
  {
    r := PutList(out, EncodeId, PutId, ids);
  }

  method PutWired(out: seq<byte>, p: ParamMap, ids: seq<NodeId>) returns (r: Written)
    ensures r == Onto(out, EncodeWired(p, ids))
  {
    OntoThen(out, EncodeParams(p), EncodeInputs(ids));
    r := PutParams(out, p);
    if r.Ok? { r := PutInputs(r.value, ids); }
  }

  method PutMembers(out0: seq<byte>, members: seq<StageOp>) returns (r: Written)
    ensures r == Onto(out0, EncodeList(EncodeMember, members))
  {
    hide EncodeMember;
    r := PutLen(out0, |members|);
    OntoThen(out0, EncodeLen(|members|), EncodeAll(EncodeMember, members));
    if r.Err? { return; }
    var start := r.value;
    assert members[..0] == [] && start + [] == start;
    for k := 0 to |members|
      invariant r.Ok? && r == Onto(start, EncodeAll(EncodeMember, members[..k]))
    {
      EncodeMore(EncodeMember, members, k);
      OntoThen(start, EncodeAll(EncodeMember, members[..k]), EncodeMember(members[k]));
      r := PutMember(r.value, members[k]);
      if r.Err? {
        EncodeStops(EncodeMember, members, k + 1);
        return;
      }
    }
    assert members[..|members|] == members;
  }

  method PutMember(out: seq<byte>, m: StageOp) returns (r: Written)
    ensures r == Onto(out, EncodeMember(m))
  {
    OntoThen(out, EncodeStr(m.token), EncodeList(EncodeRef, m.refs));
    r := PutStr(out, m.token);
    if r.Ok? { r := PutList(r.value, EncodeRef, PutRef, m.refs); }
  }

  function PutOptional(out: seq<byte>, s: Option<string>): (r: Written)
    ensures r == Onto(out, EncodeOptional(s))
  {
    match s
    case None => Ok(out + [0])
    case Some(t) => OntoThen(out, Ok([1]), EncodeStr(t)); PutStr(out + [1], t)
  }

  function PutDescriptor(out: seq<byte>, d: PayloadDescriptor): (r: Written)
    ensures r == Onto(out, EncodeDescriptor(d))
  {
    var f := EncodeOptional(d.preprocessingRef);
    var e := Then(EncodeStr(d.ioSchema), f);
    var v := Then(EncodeStr(d.version), e);
    var c := Then(EncodeStr(d.framework), v);
    OntoThen(out, EncodeStr(d.kind), Then(EncodeStr(d.contentHash), c));
    var out1 :- PutStr(out, d.kind);
    OntoThen(out1, EncodeStr(d.contentHash), c);
    var out2 :- PutStr(out1, d.contentHash);
    OntoThen(out2, EncodeStr(d.framework), v);
    var out3 :- PutStr(out2, d.framework);
    OntoThen(out3, EncodeStr(d.version), e);
    var out4 :- PutStr(out3, d.version);
    OntoThen(out4, EncodeStr(d.ioSchema), f);
    var out5 :- PutStr(out4, d.ioSchema);
    PutOptional(out5, d.preprocessingRef)
  }

  /** One node record. */
  method PutNode(out: seq<byte>, key: NodeKey) returns (r: Written)
    ensures r == Onto(out, EncodeNode(key))
  {
    hide EncodeStr, EncodeWired, EncodeParams, EncodeInputs, EncodeDescriptor, EncodeList, NodeKey.Token;
    match key {
      case Source(name, p) =>
        OntoThen(out, Ok([T_SOURCE]), Then(EncodeStr(name), EncodeParams(p)));
        r := PutStr(out + [T_SOURCE], name);
        OntoThen(out + [T_SOURCE], EncodeStr(name), EncodeParams(p));
        if r.Ok? { r := PutParams(r.value, p); }
      case Op(name, p, ids) =>
        r := PutNamed(out, T_OP, name, p, ids);
      case Reduction(name, p, ids) =>
        r := PutNamed(out, T_REDUCTION, name, p, ids);
      case External(d, p, ids) =>
        OntoThen(out, Ok([T_EXTERNAL]), Then(EncodeDescriptor(d), EncodeWired(p, ids)));
        r := PutDescriptor(out + [T_EXTERNAL], d);
        OntoThen(out + [T_EXTERNAL], EncodeDescriptor(d), EncodeWired(p, ids));
        if r.Ok? { r := PutWired(r.value, p, ids); }
      case Exchange(p, ids) =>
        OntoThen(out, Ok([T_EXCHANGE]), EncodeWired(p, ids));
        r := PutWired(out + [T_EXCHANGE], p, ids);
      case Join(p, ids) =>
        OntoThen(out, Ok([T_JOIN]), EncodeWired(p, ids));
        r := PutWired(out + [T_JOIN], p, ids);
      case Stage(ids, members) =>
        OntoThen(out, Ok([T_STAGE]), Then(EncodeInputs(ids), EncodeList(EncodeMember, members)));
        r := PutInputs(out + [T_STAGE], ids);
        OntoThen(out + [T_STAGE], EncodeInputs(ids), EncodeList(EncodeMember, members));
        if r.Ok? { r := PutMembers(r.value, members); }
    }
  }

  method PutNamed(out: seq<byte>, tag: byte, name: string, p: ParamMap, ids: seq<NodeId>) returns (r: Written)
    ensures r == Onto(out, Then(Ok([tag]), Then(EncodeStr(name), EncodeWired(p, ids))))
  {
    OntoThen(out, Ok([tag]), Then(EncodeStr(name), EncodeWired(p, ids)));
    r := PutStr(out + [tag], name);
    OntoThen(out + [tag], EncodeStr(name), EncodeWired(p, ids));
    if r.Ok? { r := PutWired(r.value, p, ids); }
  }

  /** `serialize_with`: the nodes in id order, flagged with the given outputs. */
  method SerializeWith(store: GraphStore, outputs: seq<NodeId>) returns (r: Written)
    ensures r == Encode(store.nodes, outputs)
  {
    hide EncodeNode, EncodeId, NodeKey.Token;
    r := PutNodes(MAGIC, store.nodes);
    OntoThen(MAGIC, EncodeList(EncodeNode, store.nodes), EncodeList(EncodeId, outputs));
    if r.Ok? { r := PutList(r.value, EncodeId, PutId, outputs); }
  }

  method PutNodes(out0: seq<byte>, nodes: seq<NodeKey>) returns (r: Written)
    ensures r == Onto(out0, EncodeList(EncodeNode, nodes))
  {
    hide EncodeNode, NodeKey.Token;
    r := PutLen(out0, |nodes|);
    OntoThen(out0, EncodeLen(|nodes|), EncodeAll(EncodeNode, nodes));
    if r.Err? { return; }
    var start := r.value;
    assert nodes[..0] == [] && start + [] == start;
    for k := 0 to |nodes|
      invariant r.Ok? && r == Onto(start, EncodeAll(EncodeNode, nodes[..k]))
    {
      EncodeMore(EncodeNode, nodes, k);
      OntoThen(start, EncodeAll(EncodeNode, nodes[..k]), EncodeNode(nodes[k]));
      r := PutNode(r.value, nodes[k]);
      if r.Err? {
        EncodeStops(EncodeNode, nodes, k + 1);
        return;
      }
    }
    assert nodes[..|nodes|] == nodes;
  }

  // ---- the reader -------------------------------------------------------------------------------

  /** The reader returned what is there to find, and stands after it. */
  ghost predicate Finds<T>(r: Result<T, DecodeError>, found: Parsed<T>, pos: nat) {
    match found
    case Ok(at) => r == Ok(at.0) && pos == at.1
    case Err(e) => r == Err(e)
  }

  class Reader {
    const buf: seq<byte>
    var pos: nat

    constructor (buf: seq<byte>)
      ensures this.buf == buf && pos == 0
    {
      this.buf := buf;
      pos := 0;
    }

    method Take(n: nat) returns (r: Result<seq<byte>, DecodeError>)
      modifies this
      ensures Finds(r, TakeAt(buf, old(pos), n), pos)
    {
      if pos + n > |buf| { return Err(Truncated); }
      r := Ok(buf[pos..pos + n]);
      pos := pos + n;
    }

    method Number(width: nat) returns (r: Result<nat, DecodeError>)
      modifies this
      ensures Finds(r, NumberAt(buf, old(pos), width), pos)
      ensures r.Ok? ==> r.value < Limit(width)
    {
      var bs :- Take(width);
      LeBound(bs);
      return Ok(LeValue(bs));
    }

    method U8() returns (r: Result<byte, DecodeError>)
      modifies this
      ensures Finds(r, ByteAt(buf, old(pos)), pos)
    {
      Limits();
      var n :- Number(1);
      return Ok(n);
    }

    method U64() returns (r: Result<uint64, DecodeError>)
      modifies this
      ensures Finds(r, U64At(buf, old(pos)), pos)
    {
      Limits();
      var n :- Number(8);
      return Ok(n);
    }

    method String() returns (r: Result<string, DecodeError>)
      modifies this
      ensures Finds(r, StringAt(buf, old(pos)), pos)
    {
      var n :- Number(4);
      var bs :- Take(n);
      match FromUtf8(bs)
      case None => return Err(BadUtf8);
      case Some(s) => return Ok(s);
    }

    method Value() returns (r: Result<ParamValue, DecodeError>)
      modifies this
      ensures Finds(r, ValueAt(buf, old(pos)), pos)
    {
      hide StringAt, U64At, ByteAt, Signed;
      var tag :- U8();
      if tag == P_INT {
        var u :- U64();
        return Ok(Int(Signed(u)));
      } else if tag == P_FLOAT {
        var u :- U64();
        return Ok(Float(FloatKey(u)));
      } else if tag == P_BOOL {
        var b :- U8();
        return Ok(Bool(b != 0));
      } else if tag == P_STR {
        var s :- String();
        return Ok(Str(s));
      } else {
        return Err(BadTag("param", tag));
      }
    }

    method Params() returns (r: Result<ParamMap, DecodeError>)
      modifies this
      ensures Finds(r, ParamsAt(buf, old(pos)), pos)
    {
      hide StringAt, ValueAt, NumberAt, NewMap;
      var n :- Number(4);
      ghost var start := pos;
      var entries: seq<Entry> := [];
      for k := 0 to n
        invariant ParseFirst(EntryAt(buf), start, k) == Ok((entries, pos))
      {
        ghost var q := pos;
        var key := String();
        if key.Err? { ParseStops(EntryAt(buf), start, k + 1, n); return Err(key.error); }
        var value := Value();
        if value.Err? { ParseStops(EntryAt(buf), start, k + 1, n); return Err(value.error); }
        assert EntryAt(buf)(q, k) == Ok(((key.value, value.value), pos));
        entries := entries + [(key.value, value.value)];
      }
      return Ok(NewMap(entries));
    }

    method Inputs(max: nat) returns (r: Result<seq<NodeId>, DecodeError>)
      modifies this
      ensures Finds(r, InputsAt(buf, old(pos), max), pos)
    {
      hide NumberAt, U64At;
      var n :- Number(4);
      ghost var start := pos;
      var ids: seq<NodeId> := [];
      for k := 0 to n
        invariant ParseFirst(IdAt(buf, max), start, k) == Ok((ids, pos))
      {
        var id := U64();
        if id.Err? { ParseStops(IdAt(buf, max), start, k + 1, n); return Err(id.error); }
        if id.value >= max { ParseStops(IdAt(buf, max), start, k + 1, n); return Err(BadNodeRef(id.value)); }
        ids := ids + [id.value];
      }
      return Ok(ids);
    }

    method StageRefs(index: nat) returns (r: Result<seq<StageRef>, DecodeError>)
      modifies this
      ensures Finds(r, ListAt(buf, old(pos), RefAt(buf, index)), pos)
    {
      hide NumberAt, ByteAt;
      var n :- Number(4);
      ghost var start := pos;
      var refs: seq<StageRef> := [];
      for k := 0 to n
        invariant ParseFirst(RefAt(buf, index), start, k) == Ok((refs, pos))
      {
        var ref := StageRef(index);
        if ref.Err? { ParseStops(RefAt(buf, index), start, k + 1, n); return Err(ref.error); }
        refs := refs + [ref.value];
      }
      return Ok(refs);
    }

    method StageRef(index: nat) returns (r: Result<StageRef, DecodeError>)
      modifies this
      ensures forall k: nat :: Finds(r, RefAt(buf, index)(old(pos), k), pos)
    {
      hide NumberAt, ByteAt;
      var tag :- U8();
      var v :- Number(4);
      if tag == R_INPUT {
        return Ok(Input(v));
      } else if tag == R_MEMBER {
        if v >= index { return Err(BadNodeRef(v)); }
        return Ok(Member(v));
      } else {
        return Err(BadTag("stage-ref", tag));
      }
    }

    method StageMembers() returns (r: Result<seq<StageOp>, DecodeError>)
      modifies this
      ensures Finds(r, MembersAt(buf, old(pos)), pos)
    {
      hide NumberAt, StringAt, ListAt, RefAt, MembersAt;
      MembersAreList(buf, pos);
      var n :- Number(4);
      ghost var start := pos;
      var members: seq<StageOp> := [];
      for k := 0 to n
        invariant ParseFirst(MemberAt(buf), start, k) == Ok((members, pos))
      {
        var member := StageMember(k);
        if member.Err? { ParseStops(MemberAt(buf), start, k + 1, n); return Err(member.error); }
        members := members + [member.value];
      }
      return Ok(members);
    }

    method StageMember(index: nat) returns (r: Result<StageOp, DecodeError>)
      modifies this
      ensures Finds(r, MemberAt(buf)(old(pos), index), pos)
    {
      hide NumberAt, StringAt, ListAt, RefAt;
      var token :- String();
      var refs :- StageRefs(index);
      return Ok(StageOp(token, refs));
    }

    method Descriptor() returns (r: Result<PayloadDescriptor, DecodeError>)
      modifies this
      ensures Finds(r, DescriptorAt(buf, old(pos)), pos)
    {
      hide StringAt, ByteAt;
      var kind :- String();
      var contentHash :- String();
      var framework :- String();
      var version :- String();
      var ioSchema :- String();
      var flag :- U8();
      var preprocessingRef: Option<string> := None;
      if flag != 0 {
        var s :- String();
        preprocessingRef := Some(s);
      }
      return Ok(PayloadDescriptor(kind, contentHash, framework, version, ioSchema, preprocessingRef));
    }

    /** One node record, whose inputs must refer to the `idx` nodes before it. */
    method Node(idx: nat) returns (r: Result<NodeKey, DecodeError>)
      modifies this
      ensures Finds(r, NodeAt(buf, old(pos), idx), pos)
    {
      hide StringAt, ByteAt, ParamsAt, InputsAt, DescriptorAt, MembersAt, NodeKey.Token;
      var tag :- U8();
      if tag == T_SOURCE {
        var name :- String();
        var params :- Params();
        return Ok(Source(name, params));
      } else if tag == T_OP || tag == T_REDUCTION {
        var name :- String();
        var params :- Params();
        var inputs :- Inputs(idx);
        return Ok(if tag == T_OP then Op(name, params, inputs) else Reduction(name, params, inputs));
      } else if tag == T_EXTERNAL {
        var descriptor :- Descriptor();
        var params :- Params();
        var inputs :- Inputs(idx);
        return Ok(External(descriptor, params, inputs));
      } else if tag == T_EXCHANGE || tag == T_JOIN {
        var scheme :- Params();
        var inputs :- Inputs(idx);
        return Ok(if tag == T_EXCHANGE then Exchange(scheme, inputs) else Join(scheme, inputs));
      } else if tag == T_STAGE {
        var inputs :- Inputs(idx);
        var members :- StageMembers();
        return Ok(Stage(inputs, members));
      } else {
        return Err(BadTag("node", tag));
      }
    }
  }

  lemma MembersAreList(buf: seq<byte>, pos: nat)
    ensures MembersAt(buf, pos) == match NumberAt(buf, pos, 4) case Err(e) => Err(e) case Ok(at) => ParseFirst(MemberAt(buf), at.1, at.0)
  {
  }

  // ---- a whole store ----------------------------------------------------------------------------

  /** The store after interning the first `n` node records. */
  function InternFirst(buf: seq<byte>, pos: nat, n: nat): (r: Parsed<seq<NodeKey>>) {
    if n == 0 then Ok(([], pos))
    else
      var (nodes, q) :- InternFirst(buf, pos, n - 1);
      var (key, next) :- NodeAt(buf, q, n - 1);
      match FirstBeyond(key.Inputs(), |nodes|)
      case Some(bad) => Err(BadNodeRef(bad))
      case None => Ok((Insert(nodes, key), next))
  }

  /** The outputs after marking the first `n` ids, in a store of `held` nodes. */
  function MarkFirst(buf: seq<byte>, pos: nat, n: nat, held: nat): (r: Parsed<seq<NodeId>>) {
    if n == 0 then Ok(([], pos))
    else
      var (outputs, q) :- MarkFirst(buf, pos, n - 1, held);
      var (o, next) :- U64At(buf, q);
      if o >= held then Err(BadNodeRef(o)) else Ok((Insert<NodeId>(outputs, o), next))
  }

  type Graphed = (seq<NodeKey>, seq<NodeId>)

  /** The graph the bytes hold and where it ends, or what is wrong with them; what follows it is not read. */
  function GraphAt(data: seq<byte>): Parsed<Graphed> {
    var (magic, p) :- TakeAt(data, 0, 4);
    if magic != MAGIC then Err(BadMagic)
    else
      var (n, q) :- NumberAt(data, p, 4);
      var (nodes, r) :- InternFirst(data, q, n);
      var (k, s) :- NumberAt(data, r, 4);
      var (outputs, next) :- MarkFirst(data, s, k, |nodes|);
      Ok(((nodes, outputs), next))
  }

  /** The nodes and outputs any bytes decode to. */
  function Decode(data: seq<byte>): Result<Graphed, DecodeError> {
    var (graph, _) :- GraphAt(data);
    Ok(graph)
  }

  lemma {:induction false} InternStops(buf: seq<byte>, pos: nat, k: nat, n: nat)
    requires k <= n && InternFirst(buf, pos, k).Err?
    ensures InternFirst(buf, pos, n) == Err(InternFirst(buf, pos, k).error)
    decreases n - k
  {
    hide NodeAt, FirstBeyond, Insert;
    if k < n { InternStops(buf, pos, k + 1, n); }
  }

  lemma {:induction false} MarkStops(buf: seq<byte>, pos: nat, k: nat, n: nat, held: nat)
    requires k <= n && MarkFirst(buf, pos, k, held).Err?
    ensures MarkFirst(buf, pos, n, held) == Err(MarkFirst(buf, pos, k, held).error)
    decreases n - k
  {
    hide U64At, Insert;
    if k < n { MarkStops(buf, pos, k + 1, n, held); }
  }

  lemma InternNone(buf: seq<byte>, pos: nat)
    ensures InternFirst(buf, pos, 0) == Ok(([], pos))
  {
  }

  lemma MarkNone(buf: seq<byte>, pos: nat, held: nat)
    ensures MarkFirst(buf, pos, 0, held) == Ok(([], pos))
  {
  }

  lemma InternNext(buf: seq<byte>, pos: nat, k: nat, nodes: seq<NodeKey>, q: nat)
    requires InternFirst(buf, pos, k) == Ok((nodes, q))
    ensures InternFirst(buf, pos, k + 1) == match NodeAt(buf, q, k)
      case Err(e) => Err(e)
      case Ok(at) => match FirstBeyond(at.0.Inputs(), |nodes|)
        case Some(bad) => Err(BadNodeRef(bad))
        case None => Ok((Insert(nodes, at.0), at.1))
  {
    hide NodeAt, FirstBeyond, Insert;
  }

  lemma MarkNext(buf: seq<byte>, pos: nat, k: nat, held: nat, outputs: seq<NodeId>, q: nat)
    requires MarkFirst(buf, pos, k, held) == Ok((outputs, q))
    ensures MarkFirst(buf, pos, k + 1, held) == match U64At(buf, q)
      case Err(e) => Err(e)
      case Ok(at) => if at.0 >= held then Err(BadNodeRef(at.0)) else Ok((Insert<NodeId>(outputs, at.0), at.1))
  {
    hide U64At, Insert;
  }

  /** `deserialize`: any bytes give a well-formed store or the error they deserve. */
  method Deserialize(data: seq<byte>) returns (r: Result<GraphStore, DecodeError>)
    ensures r.Ok? ==> fresh(r.value) && r.value.Valid()
    ensures match Decode(data)
      case Ok(g) => r.Ok? && r.value.nodes == g.0 && r.value.outputs == g.1
      case Err(e) => r == Err(e)
  {
    hide NodeAt, NumberAt, InternFirst, MarkFirst, NodeKey.Token, Consistent;
    var reader := new Reader(data);
    var magic :- reader.Take(4);
    if magic != MAGIC { return Err(BadMagic); }
    var n :- reader.Number(4);
    var store := new GraphStore();
    var interned := InternNodes(reader, store, n);
    if interned.Err? { return Err(interned.error); }
    var k :- reader.Number(4);
    var marked := MarkOutputs(reader, store, k);
    if marked.Err? { return Err(marked.error); }
    return Ok(store);
  }

  method InternNodes(reader: Reader, store: GraphStore, n: nat) returns (r: Result<(), DecodeError>)
    requires store.Valid() && store.nodes == [] && store.outputs == []
    modifies reader, store
    ensures store.Valid() && store.outputs == []
    ensures match InternFirst(reader.buf, old(reader.pos), n)
      case Ok(at) => r == Ok(()) && store.nodes == at.0 && reader.pos == at.1
      case Err(e) => r == Err(e)
  {
    hide NodeAt, NodeKey.Token, Consistent, FirstBeyond, Insert, InternFirst;
    InternNone(reader.buf, reader.pos);
    ghost var start := reader.pos;
    for idx := 0 to n
      invariant store.Valid() && store.outputs == []
      invariant InternFirst(reader.buf, start, idx) == Ok((store.nodes, reader.pos))
    {
      InternNext(reader.buf, start, idx, store.nodes, reader.pos);
      var key := reader.Node(idx);
      if key.Err? { InternStops(reader.buf, start, idx + 1, n); return Err(key.error); }
      var id := store.Intern(key.value);
      if id.Err? { InternStops(reader.buf, start, idx + 1, n); return Err(BadNodeRef(id.error.id)); }
    }
    return Ok(());
  }

  method MarkOutputs(reader: Reader, store: GraphStore, n: nat) returns (r: Result<(), DecodeError>)
    requires store.Valid() && store.outputs == []
    modifies reader, store
    ensures store.Valid() && store.nodes == old(store.nodes)
    ensures match MarkFirst(reader.buf, old(reader.pos), n, |store.nodes|)
      case Ok(at) => r == Ok(()) && store.outputs == at.0
      case Err(e) => r == Err(e)
  {
    hide U64At, NodeKey.Token, Consistent, Insert, MarkFirst;
    MarkNone(reader.buf, reader.pos, |store.nodes|);
    ghost var start := reader.pos;
    for k := 0 to n
      invariant store.Valid() && store.nodes == old(store.nodes)
      invariant MarkFirst(reader.buf, start, k, |store.nodes|) == Ok((store.outputs, reader.pos))
    {
      MarkNext(reader.buf, start, k, |store.nodes|, store.outputs, reader.pos);
      var o := reader.U64();
      if o.Err? { MarkStops(reader.buf, start, k + 1, n, |store.nodes|); return Err(o.error); }
      var marked := store.MarkOutput(o.value);
      if marked.Err? { MarkStops(reader.buf, start, k + 1, n, |store.nodes|); return Err(BadNodeRef(marked.error.id)); }
    }
    return Ok(());
  }

  // ---- deserialize undoes serialize -------------------------------------------------------------

  predicate AllReadable(nodes: seq<NodeKey>) {
    forall i :: 0 <= i < |nodes| ==> Readable(nodes[i])
  }

  lemma NothingWritten(buf: seq<byte>, pos: nat)
    ensures EncodeAll(EncodeNode, []) == Ok([]) && InternFirst(buf, pos, 0) == Ok(([], pos))
  {
  }

  /** Interning the written nodes again gives each its own id back. */
  lemma {:induction false} NodesRead(buf: seq<byte>, pos: nat, nodes: seq<NodeKey>, m: nat)
    requires Interned(nodes) && AllReadable(nodes) && m <= |nodes| < 0x1_0000_0000
    ensures Reads(buf, pos, EncodeAll(EncodeNode, nodes[..m]), InternFirst(buf, pos, m), nodes[..m])
  {
    hide EncodeNode, NodeAt, FirstBeyond, Insert, Readable, NodeKey.Token, At, Distinct, IndexOf, InternFirst, EncodeAll;
    var w := EncodeAll(EncodeNode, nodes[..m]);
    if m == 0 {
      NothingWritten(buf, pos);
    } else if w.Ok? && At(buf, pos, w.value) {
      var before := EncodeAll(EncodeNode, nodes[..m - 1]);
      EncodeMore(EncodeNode, nodes, m - 1);
      AtParts(buf, pos, before.value, EncodeNode(nodes[m - 1]).value);
      NodesRead(buf, pos, nodes, m - 1);
      assert Below(nodes[m - 1].Inputs(), m - 1);
      NodeReads(buf, pos + |before.value|, nodes[m - 1], m - 1);
      NextIsNew(nodes, m - 1);
      InternNext(buf, pos, m - 1, nodes[..m - 1], pos + |before.value|);
    }
  }

  lemma {:induction false} OutputsRead(buf: seq<byte>, pos: nat, outputs: seq<NodeId>, held: nat)
    requires Below(outputs, held) && held <= 0x1_0000_0000_0000_0000
    ensures Reads(buf, pos, EncodeAll(EncodeId, outputs), MarkFirst(buf, pos, |outputs|, held), Marked([], outputs))
  {
    hide U64At, Insert, Le, At;
    var w := EncodeAll(EncodeId, outputs);
    if outputs != [] && w.Ok? && At(buf, pos, w.value) {
      var m := |outputs| - 1;
      var before := EncodeAll(EncodeId, outputs[..m]);
      AtParts(buf, pos, before.value, EncodeId(outputs[m]).value);
      OutputsRead(buf, pos, outputs[..m], held);
      U64Reads(buf, pos + |before.value|, outputs[m]);
      MarkNext(buf, pos, m, held, Marked([], outputs[..m]), pos + |before.value|);
    }
  }

  /** Reading back what was written for a store rebuilds the same nodes under the same ids, and marks the
      flagged outputs, each once. */
  lemma {:induction false} DecodeEncode(nodes: seq<NodeKey>, outputs: seq<NodeId>)
    requires Interned(nodes) && AllReadable(nodes) && Below(outputs, |nodes|) && Encode(nodes, outputs).Ok?
    ensures Decode(Encode(nodes, outputs).value) == Ok((nodes, Marked([], outputs)))
    ensures GraphAt(Encode(nodes, outputs).value) == Ok(((nodes, Marked([], outputs)), |Encode(nodes, outputs).value|))
  {
    hide EncodeNode, EncodeId, NodeAt, NodeKey.Token, EncodeAll, InternFirst, MarkFirst, NumberAt, Interned, AllReadable, Marked, At, EncodeLen;
    var data := Encode(nodes, outputs).value;
    var a, b := EncodeList(EncodeNode, nodes), EncodeList(EncodeId, outputs);
    WholeAt(data);
    CountFits(nodes);
    AtParts(data, 0, MAGIC, a.value + b.value);
    AtParts(data, 4, a.value, b.value);
    MagicReads(data);
    var n, k := EncodeLen(|nodes|).value, EncodeLen(|outputs|).value;
    AtParts(data, 4, n, EncodeAll(EncodeNode, nodes).value);
    LenReads(data, 4, |nodes|);
    assert nodes[..|nodes|] == nodes;
    NodesRead(data, 4 + |n|, nodes, |nodes|);
    var p := 4 + |a.value|;
    AtParts(data, p, k, EncodeAll(EncodeId, outputs).value);
    LenReads(data, p, |outputs|);
    OutputsRead(data, p + |k|, outputs, |nodes|);
  }

  lemma WholeAt(data: seq<byte>)
    ensures At(data, 0, data)
  {
    assert data[0..0 + |data|] == data;
  }

  lemma CountFits(nodes: seq<NodeKey>)
    requires EncodeList(EncodeNode, nodes).Ok?
    ensures |nodes| < 0x1_0000_0000
  {
    hide EncodeNode;
  }

  lemma MagicReads(data: seq<byte>)
    requires At(data, 0, MAGIC)
    ensures TakeAt(data, 0, 4) == Ok((MAGIC, 4))
  {
  }

  lemma {:induction false} MarkedOfDistinct(ids: seq<NodeId>)
    requires Distinct(ids)
    ensures Marked([], ids) == ids
  {
    if ids != [] {
      var m := |ids| - 1;
      MarkedOfDistinct(ids[..m]);
      assert ids == ids[..m] + [ids[m]];
    }
  }

  /** So a store's bytes, read and written again, are the same bytes. */
  lemma {:induction false} EncodeDecodeEncode(nodes: seq<NodeKey>, outputs: seq<NodeId>)
    requires Interned(nodes) && AllReadable(nodes) && Below(outputs, |nodes|) && Distinct(outputs)
    requires Encode(nodes, outputs).Ok?
    ensures var r := Decode(Encode(nodes, outputs).value);
      r.Ok? && Encode(r.value.0, r.value.1) == Encode(nodes, outputs)
  {
    hide Encode, Decode, Interned, AllReadable, Distinct, NodeKey.Token;
    DecodeEncode(nodes, outputs);
    MarkedOfDistinct(outputs);
  }

  /** And a store's nodes and distinct outputs are all its bytes say: equal bytes, equal graphs. */
  lemma {:induction false} BytesDetermineGraph(nodes: seq<NodeKey>, outputs: seq<NodeId>, nodes': seq<NodeKey>, outputs': seq<NodeId>)
    requires Interned(nodes) && AllReadable(nodes) && Below(outputs, |nodes|) && Distinct(outputs)
    requires Interned(nodes') && AllReadable(nodes') && Below(outputs', |nodes'|) && Distinct(outputs')
    requires Encode(nodes, outputs).Ok? && Encode(nodes, outputs) == Encode(nodes', outputs')
    ensures nodes == nodes' && outputs == outputs'
  {
    hide Encode, Decode, Interned, AllReadable, Distinct, NodeKey.Token;
    DecodeEncode(nodes, outputs);
    DecodeEncode(nodes', outputs');
    MarkedOfDistinct(outputs);
    MarkedOfDistinct(outputs');
  }
}
