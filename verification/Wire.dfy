/** The byte format, told in its own numbers: what other versions and other programs rely on (src/serialize.rs). */
module Wire {
  import opened Collections
  import opened Params
  import opened Nodes
  import opened Bytes
  import opened Codec
  import Serialize

  // ---- numbers and characters --------------------------------------------------------------------

  lemma DivTwice(v: nat, a: nat, b: nat)
    requires a > 0 && b > 0
    ensures v / a / b == v / (a * b)
  {
    DivMod(v, a);
    DivMod(v / a, b);
    TwoDigits(v, a, b, v / a, v % a, v / a / b, v / a % b);
  }

  lemma DivMod(v: nat, d: nat)
    requires d > 0
    ensures v == v / d * d + v % d
  {
  }

  lemma TwoDigits(v: nat, a: nat, b: nat, q: nat, r: nat, p: nat, s: nat)
    requires v == q * a + r && r < a && q == p * b + s && s < b
    ensures a * b > 0 && v / (a * b) == p
  {
    Regrouped(p, b, s, a, r);
    Digits(s, b, a, r);
    Quotient(v, p, a * b, s * a + r);
  }

  lemma Regrouped(p: nat, b: nat, s: nat, a: nat, r: nat)
    ensures (p * b + s) * a + r == p * (a * b) + (s * a + r)
  {
    assert (p * b + s) * a == p * b * a + s * a;
    assert p * b * a == p * (a * b);
  }

  lemma Digits(s: nat, b: nat, a: nat, r: nat)
    requires s < b && r < a
    ensures s * a + r < a * b
  {
    Monotone(s + 1, b, a);
    NextMultiple(s, a);
  }

  lemma Monotone(x: nat, y: nat, a: nat)
    requires x <= y
    ensures x * a <= y * a
  {
    var d := y - x;
    assert y * a == (x + d) * a == x * a + d * a;
  }

  lemma NextMultiple(q: nat, d: nat)
    ensures (q + 1) * d == q * d + d
  {
  }

  lemma AtLeast(p: nat, q: nat, d: nat, r: nat, s: nat)
    requires p * d + r == q * d + s && r < d && s < d
    ensures p <= q
  {
    NextMultiple(q, d);
    if q < p { Monotone(q + 1, p, d); }
  }

  lemma Quotient(v: nat, p: nat, d: nat, r: nat)
    requires d > 0 && r < d && v == p * d + r
    ensures v / d == p
  {
    var q, s := v / d, v % d;
    assert v == q * d + s;
    AtLeast(p, q, d, r, s);
    AtLeast(q, p, d, s, r);
  }

  /** Byte `k` of a number is its `k`-th digit to base 256, the least first. */
  lemma {:induction false} LeDigit(v: nat, width: nat, k: nat)
    requires k < width
    ensures Le(v, width)[k] as int == v / Limit(k) % 256
  {
    if k > 0 {
      LeDigit(v / 256, width - 1, k - 1);
      DivTwice(v, 256, Limit(k - 1));
    }
  }

  /** A character's bytes are its UTF-8 (section 3 of RFC 3629): one to four bytes by its size, the first telling how
      many, the others marked as continuing, and six bits of it in each of those. */
  lemma CharOnTheWire(c: char)
    ensures var bs := EncodeChar(c); var n := c as int;
      && (n < 0x80 ==> |bs| == 1 && bs[0] == n)
      && (0x80 <= n < 0x800 ==> |bs| == 2 && 0xC2 <= bs[0] <= 0xDF && n + 0xC0 * 64 + 0x80 == bs[0] as int * 64 + bs[1])
      && (0x800 <= n < 0x1_0000 ==>
            (|bs| == 3 && 0xE0 <= bs[0] <= 0xEF
             && n + 0xE0 * 4096 + 0x80 * 64 + 0x80 == bs[0] as int * 4096 + bs[1] as int * 64 + bs[2]))
      && (0x1_0000 <= n ==>
            (|bs| == 4 && 0xF0 <= bs[0] <= 0xF4
             && n + 0xF0 * 262144 + 0x80 * 4096 + 0x80 * 64 + 0x80
                == bs[0] as int * 262144 + bs[1] as int * 4096 + bs[2] as int * 64 + bs[3]))
      && forall k :: 1 <= k < |bs| ==> 0x80 <= bs[k] <= 0xBF
  {
    var n := c as int;
    if n >= 0x1_0000 { FourDigits(n); } else if n >= 0x800 { ThreeDigits(n); }
  }

  // ---- tags --------------------------------------------------------------------------------------

  /** A node's first byte, by its kind. */
  lemma KindByte(key: NodeKey)
    requires EncodeNode(key).Ok?
    ensures EncodeNode(key).value != []
    ensures EncodeNode(key).value[0] == match key
      case Source(_, _) => 0
      case Op(_, _, _) => 1
      case Reduction(_, _, _) => 2
      case External(_, _, _) => 3
      case Stage(_, _) => 4
      case Exchange(_, _) => 5
      case Join(_, _) => 6
  {
    hide EncodeStr, EncodeParams, EncodeWired, EncodeDescriptor, EncodeInputs, EncodeList;
  }

  /** Only those seven numbers start a node, each one its own kind. */
  lemma KindByteRead(buf: seq<byte>, pos: nat, max: nat)
    ensures pos < |buf| && buf[pos] > 6 ==> NodeAt(buf, pos, max) == Err(BadTag("node", buf[pos]))
    ensures NodeAt(buf, pos, max).Ok? ==> pos < |buf|
    ensures NodeAt(buf, pos, max).Ok? ==> buf[pos] == match NodeAt(buf, pos, max).value.0
      case Source(_, _) => 0
      case Op(_, _, _) => 1
      case Reduction(_, _, _) => 2
      case External(_, _, _) => 3
      case Stage(_, _) => 4
      case Exchange(_, _) => 5
      case Join(_, _) => 6
  {
    hide StringAt, ParamsAt, NamedAt, WiredAt, DescriptorAt, InputsAt, MembersAt;
    OneByte(buf, pos);
  }

  lemma OneByte(buf: seq<byte>, pos: nat)
    ensures ByteAt(buf, pos) == if pos < |buf| then Ok((buf[pos], pos + 1)) else Err(Truncated)
  {
    if pos < |buf| {
      assert buf[pos..pos + 1] == [buf[pos]];
      assert LeValue([buf[pos]]) == buf[pos] + 256 * LeValue([]);
    }
  }

  /** A parameter value's bytes: its kind's number; then an integer in two's complement or a float's bits, least
      significant byte first; a boolean's 0 or 1; or a string's length and UTF-8. */
  lemma ValueOnTheWire(v: ParamValue)
    requires EncodeValue(v).Ok?
    ensures var bs := EncodeValue(v).value;
      match v
      case Int(i) => |bs| == 9 && bs[0] == 0 && LeValue(bs[1..]) == (if i < 0 then i as int + 0x1_0000_0000_0000_0000 else i as int)
      case Float(bits) => |bs| == 9 && bs[0] == 1 && LeValue(bs[1..]) == bits
      case Bool(b) => bs == [2, if b then 1 else 0]
      case Str(s) => |bs| == 5 + |Utf8(s)| && bs[0] == 3 && LeValue(bs[1..5]) == |Utf8(s)| && bs[5..] == Utf8(s)
  {
    hide Le, Utf8, LeValue;
    Limits();
    var bs := EncodeValue(v).value;
    match v
    case Int(i) =>
      assert bs[1..] == Le(Unsigned(i), 8);
      LeRoundTrip(Unsigned(i), 8);
    case Float(bits) =>
      assert bs[1..] == Le(bits, 8);
      LeRoundTrip(bits, 8);
    case Bool(b) =>
    case Str(s) =>
      assert bs == [3] + Le(|Utf8(s)|, 4) + Utf8(s);
      assert bs[1..5] == Le(|Utf8(s)|, 4);
      LeRoundTrip(|Utf8(s)|, 4);
  }

  /** A reference's bytes: 0 for a slot or 1 for a member, and its index. */
  lemma RefOnTheWire(r: StageRef)
    requires EncodeRef(r).Ok?
    ensures var bs := EncodeRef(r).value;
      && |bs| == 5
      && (match r case Input(i) => bs[0] == 0 && LeValue(bs[1..]) == i case Member(i) => bs[0] == 1 && LeValue(bs[1..]) == i)
  {
    hide Le, LeValue;
    Limits();
    var i := match r case Input(i) => i case Member(i) => i;
    assert EncodeRef(r).value[1..] == Le(i, 4);
    LeRoundTrip(i, 4);
  }

  /** Only four numbers start a parameter's value. */
  lemma ValueByteRead(buf: seq<byte>, pos: nat)
    ensures pos < |buf| && buf[pos] > 3 ==> ValueAt(buf, pos) == Err(BadTag("param", buf[pos]))
    ensures ValueAt(buf, pos).Ok? ==> pos < |buf|
    ensures ValueAt(buf, pos).Ok? ==> buf[pos] == match ValueAt(buf, pos).value.0
      case Int(_) => 0
      case Float(_) => 1
      case Bool(_) => 2
      case Str(_) => 3
  {
    hide U64At, StringAt;
    OneByte(buf, pos);
  }

  /** A reference is to a slot, or to an earlier member. */
  lemma RefRead(buf: seq<byte>, pos: nat, index: nat, i: nat)
    requires pos + 5 <= |buf|
    ensures var r := RefAt(buf, index)(pos, i); var at := LeValue(buf[pos + 1..pos + 5]);
      && (buf[pos] == 0 ==> r == Ok((Input(at), pos + 5)))
      && (buf[pos] == 1 ==> r == if at < index then Ok((Member(at), pos + 5)) else Err(BadNodeRef(at)))
      && (buf[pos] > 1 ==> r == Err(BadTag("stage-ref", buf[pos])))
  {
    OneByte(buf, pos);
  }

  /** An input is an earlier node. */
  lemma InputRead(buf: seq<byte>, pos: nat, max: nat, i: nat)
    requires pos + 8 <= |buf|
    ensures var id := LeValue(buf[pos..pos + 8]);
      IdAt(buf, max)(pos, i) == if id < max then Ok((id, pos + 8)) else Err(BadNodeRef(id))
  {
  }

  // ---- a whole graph -----------------------------------------------------------------------------

  /** Every written graph starts with GIR1, and what does not is refused for that. */
  lemma Magic(nodes: seq<NodeKey>, outputs: seq<NodeId>, data: seq<byte>)
    ensures Encode(nodes, outputs).Ok? ==> [0x47, 0x49, 0x52, 0x31] <= Encode(nodes, outputs).value
    ensures |data| < 4 ==> Serialize.Decode(data) == Err(Truncated)
    ensures |data| >= 4 && data[..4] != [0x47, 0x49, 0x52, 0x31] ==> Serialize.Decode(data) == Err(BadMagic)
    ensures Serialize.Decode(data).Ok? ==> |data| >= 4 && data[..4] == [0x47, 0x49, 0x52, 0x31]
  {
    hide EncodeList, Serialize.InternFirst, Serialize.MarkFirst, NumberAt;
    assert |data| >= 4 ==> data[0..0 + 4] == data[..4];
  }

  // ---- an example --------------------------------------------------------------------------------

  /** The codes of text in ASCII. */
  function Codes(s: string): (bs: seq<byte>)
    requires forall k :: 0 <= k < |s| ==> s[k] as int < 0x80
    ensures |bs| == |s| && forall k :: 0 <= k < |bs| ==> bs[k] == s[k] as int
  {
    seq(|s|, k requires 0 <= k < |s| => s[k] as int)
  }

  lemma {:induction false} AsciiOnTheWire(s: string)
    requires forall k :: 0 <= k < |s| ==> s[k] as int < 0x80
    ensures Utf8(s) == Codes(s)
  {
    if s != "" {
      AsciiOnTheWire(s[1..]);
      assert Codes(s) == [s[0] as int] + Codes(s[1..]);
    }
  }

  lemma SmallNumber(n: nat)
    requires n < 256
    ensures Le(n, 4) == [n, 0, 0, 0] && Le(n, 8) == [n, 0, 0, 0, 0, 0, 0, 0]
  {
    Zeros(7);
    Zeros(3);
    assert n % 256 == n && n / 256 == 0;
  }

  lemma {:induction false} Zeros(width: nat)
    ensures Le(0, width) == seq(width, _ => 0)
  {
    if width > 0 { Zeros(width - 1); }
  }

  /** The writer succeeds with these bytes. */
  predicate Writes(w: Written, bs: seq<byte>) {
    w.Ok? && w.value == bs
  }

  lemma ShortString(s: string)
    requires |s| < 256 && forall k :: 0 <= k < |s| ==> s[k] as int < 0x80
    ensures Writes(EncodeStr(s), [|s|, 0, 0, 0] + Codes(s))
  {
    hide Utf8, Le;
    AsciiOnTheWire(s);
    SmallNumber(|s|);
  }

  lemma OneItem<T>(enc: T -> Written, x: T, bs: seq<byte>)
    requires Writes(enc(x), bs)
    ensures Writes(EncodeList<T>(enc, [x]), [1, 0, 0, 0] + bs)
  {
    hide Le;
    SmallNumber(1);
    var one := [x];
    assert one[..0] == [];
    assert EncodeAll(enc, one) == Then(EncodeAll(enc, one[..0]), enc(x));
    assert [] + bs == bs;
  }

  lemma OneInput(id: NodeId)
    requires id < 256
    ensures Writes(EncodeInputs([id]), [1, 0, 0, 0, id, 0, 0, 0, 0, 0, 0, 0])
  {
    hide Le, EncodeList;
    SmallNumber(id);
    OneItem(EncodeId, id, Le(id, 8));
  }

  lemma SourceBytes(n: byte, name: seq<byte>, k: byte, key: seq<byte>, t: byte, text: seq<byte>)
    ensures [0] + (([n, 0, 0, 0] + name) + ([1, 0, 0, 0] + ([k, 0, 0, 0] + key + ([3] + ([t, 0, 0, 0] + text)))))
         == [0, n, 0, 0, 0] + name + [1, 0, 0, 0, k, 0, 0, 0] + key + [3, t, 0, 0, 0] + text
  {
  }

  /** A source of one parameter: its number, its name, and the parameter's key, kind and text, each text after its
      length. */
  lemma SourceExample(name: string, key: string, text: string)
    requires |name| < 256 && forall k :: 0 <= k < |name| ==> name[k] as int < 0x80
    requires |key| < 256 && forall k :: 0 <= k < |key| ==> key[k] as int < 0x80
    requires |text| < 256 && forall k :: 0 <= k < |text| ==> text[k] as int < 0x80
    ensures Writes(EncodeNode(Source(name, [(key, Str(text))])),
      [0, |name|, 0, 0, 0] + Codes(name) + [1, 0, 0, 0, |key|, 0, 0, 0] + Codes(key) + [3, |text|, 0, 0, 0] + Codes(text))
  {
    hide EncodeStr, EncodeList;
    ShortString(name);
    ShortString(key);
    ShortString(text);
    var e: Entry := (key, Str(text));
    var entry := [|key|, 0, 0, 0] + Codes(key) + ([3] + ([|text|, 0, 0, 0] + Codes(text)));
    assert Writes(EncodeEntry(e), entry);
    OneItem(EncodeEntry, e, entry);
    assert Writes(EncodeNode(Source(name, [e])), [0] + (([|name|, 0, 0, 0] + Codes(name)) + ([1, 0, 0, 0] + entry)));
    hide EncodeNode;
    SourceBytes(|name|, Codes(name), |key|, Codes(key), |text|, Codes(text));
  }

  lemma OpBytes(n: byte, name: seq<byte>, k: byte, key: seq<byte>, value: seq<byte>, inputs: seq<byte>)
    ensures [1] + (([n, 0, 0, 0] + name) + (([1, 0, 0, 0] + ([k, 0, 0, 0] + key + ([0] + value))) + inputs))
         == [1, n, 0, 0, 0] + name + [1, 0, 0, 0, k, 0, 0, 0] + key + ([0] + value) + inputs
  {
  }

  /** An op of one integer parameter and one input: the parameters come before the inputs. */
  lemma OpExample(name: string, key: string, n: nat, id: NodeId)
    requires |name| < 256 && forall k :: 0 <= k < |name| ==> name[k] as int < 0x80
    requires |key| < 256 && forall k :: 0 <= k < |key| ==> key[k] as int < 0x80
    requires n < 256 && id < 256
    ensures Writes(EncodeNode(Op(name, [(key, Int(n))], [id])),
      [1, |name|, 0, 0, 0] + Codes(name) + [1, 0, 0, 0, |key|, 0, 0, 0] + Codes(key) + [0, n, 0, 0, 0, 0, 0, 0, 0]
      + [1, 0, 0, 0, id, 0, 0, 0, 0, 0, 0, 0])
  {
    hide EncodeStr, EncodeList, EncodeInputs, Le;
    ShortString(name);
    ShortString(key);
    SmallNumber(n);
    OneInput(id);
    var e: Entry := (key, Int(n));
    var entry := [|key|, 0, 0, 0] + Codes(key) + ([0] + [n, 0, 0, 0, 0, 0, 0, 0]);
    assert Writes(EncodeEntry(e), entry);
    OneItem(EncodeEntry, e, entry);
    assert Writes(EncodeNode(Op(name, [e], [id])),
      [1] + (([|name|, 0, 0, 0] + Codes(name)) + (([1, 0, 0, 0] + entry) + [1, 0, 0, 0, id, 0, 0, 0, 0, 0, 0, 0])));
    hide EncodeNode;
    OpBytes(|name|, Codes(name), |key|, Codes(key), [n, 0, 0, 0, 0, 0, 0, 0], [1, 0, 0, 0, id, 0, 0, 0, 0, 0, 0, 0]);
  }

  /** A reduction without parameters, an exchange and a join: the same frame, a join and an exchange without a name. */
  lemma PlainExamples(name: string, id: NodeId)
    requires |name| < 256 && forall k :: 0 <= k < |name| ==> name[k] as int < 0x80
    requires id < 256
    ensures Writes(EncodeNode(Reduction(name, [], [id])),
      [2, |name|, 0, 0, 0] + Codes(name) + [0, 0, 0, 0, 1, 0, 0, 0, id, 0, 0, 0, 0, 0, 0, 0])
    ensures Writes(EncodeNode(Exchange([], [id])), [5, 0, 0, 0, 0, 1, 0, 0, 0, id, 0, 0, 0, 0, 0, 0, 0])
    ensures Writes(EncodeNode(Join([], [id])), [6, 0, 0, 0, 0, 1, 0, 0, 0, id, 0, 0, 0, 0, 0, 0, 0])
  {
    hide EncodeStr, EncodeList, EncodeInputs, Le;
    ShortString(name);
    OneInput(id);
    NoEntries();
    var wired := [0, 0, 0, 0] + [1, 0, 0, 0, id, 0, 0, 0, 0, 0, 0, 0];
    assert Writes(EncodeWired([], [id]), wired);
    hide EncodeWired;
    assert EncodeNode(Exchange([], [id])).value == [5] + wired;
    assert EncodeNode(Join([], [id])).value == [6] + wired;
    assert EncodeNode(Reduction(name, [], [id])).value == [2] + (([|name|, 0, 0, 0] + Codes(name)) + wired);
  }

  lemma NoEntries()
    ensures Writes(EncodeParams([]), [0, 0, 0, 0])
  {
    hide Le;
    SmallNumber(0);
    assert Le(0, 4) + [] == [0, 0, 0, 0];
  }

  /** A stage: its inputs, and its members, each a token and its references. */
  lemma StageExample(id: NodeId, token: string, slot: nat)
    requires |token| < 256 && forall k :: 0 <= k < |token| ==> token[k] as int < 0x80
    requires id < 256 && slot < 256
    ensures Writes(EncodeNode(Stage([id], [StageOp(token, [Input(slot)])])),
      [4, 1, 0, 0, 0, id, 0, 0, 0, 0, 0, 0, 0] + ([1, 0, 0, 0, |token|, 0, 0, 0] + Codes(token) + [1, 0, 0, 0, 0, slot, 0, 0, 0]))
  {
    hide EncodeStr, EncodeList, EncodeInputs, Le;
    ShortString(token);
    OneInput(id);
    SmallNumber(slot);
    var ref, member := Input(slot), StageOp(token, [Input(slot)]);
    assert Writes(EncodeRef(ref), [0] + [slot, 0, 0, 0]);
    OneItem(EncodeRef, ref, [0] + [slot, 0, 0, 0]);
    var bs := ([|token|, 0, 0, 0] + Codes(token)) + ([1, 0, 0, 0] + ([0] + [slot, 0, 0, 0]));
    assert Writes(EncodeMember(member), bs);
    hide EncodeMember;
    OneItem(EncodeMember, member, bs);
    assert EncodeNode(Stage([id], [member])).value == [4] + ([1, 0, 0, 0, id, 0, 0, 0, 0, 0, 0, 0] + ([1, 0, 0, 0] + bs));
  }

  /** A payload descriptor: its five texts in this order, and whether a reference follows, and the reference. */
  lemma DescriptorOnTheWire(d: PayloadDescriptor)
    requires EncodeDescriptor(d).Ok?
    ensures var a, b, c, e, f := Utf8(d.kind), Utf8(d.contentHash), Utf8(d.framework), Utf8(d.version), Utf8(d.ioSchema);
      var texts := Counted(a) + Counted(b) + Counted(c) + Counted(e) + Counted(f);
      EncodeDescriptor(d).value == texts + match d.preprocessingRef case None => [0] case Some(r) => [1] + Counted(Utf8(r))
  {
    hide Utf8, Le;
    var a, b, c, e, f := Utf8(d.kind), Utf8(d.contentHash), Utf8(d.framework), Utf8(d.version), Utf8(d.ioSchema);
    var last := match d.preprocessingRef case None => [0] case Some(r) => [1] + Counted(Utf8(r));
    assert EncodeDescriptor(d).value
        == Counted(a) + (Counted(b) + (Counted(c) + (Counted(e) + (Counted(f) + last))));
    hide Counted;
    FiveTexts(Counted(a), Counted(b), Counted(c), Counted(e), Counted(f), last);
  }

  lemma FiveTexts(a: seq<byte>, b: seq<byte>, c: seq<byte>, d: seq<byte>, e: seq<byte>, last: seq<byte>)
    ensures a + (b + (c + (d + (e + last)))) == a + b + c + d + e + last
  {
  }

  /** Text after its length. */
  function Counted(text: seq<byte>): (bs: seq<byte>) {
    Le(|text|, 4) + text
  }

  /** A graph: GIR1, how many nodes, the nodes, how many outputs, the outputs. */
  lemma GraphExample(key: NodeKey, bs: seq<byte>)
    requires Writes(EncodeNode(key), bs)
    ensures Writes(Encode([key], [0]), [0x47, 0x49, 0x52, 0x31, 1, 0, 0, 0] + bs + [1, 0, 0, 0, 0, 0, 0, 0, 0, 0, 0, 0])
  {
    hide EncodeNode, EncodeList;
    OneItem(EncodeNode, key, bs);
    OneInput(0);
    assert Encode([key], [0]).value == MAGIC + (([1, 0, 0, 0] + bs) + [1, 0, 0, 0, 0, 0, 0, 0, 0, 0, 0, 0]);
  }
}
