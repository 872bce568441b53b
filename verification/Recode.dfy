/** Whatever bytes a reader accepts, it finds a store that can be written and is read back from what is
    written (src/serialize.rs). */
module Recode {
  import opened Collections
  import opened Params
  import opened Nodes
  import opened Graph
  import opened Bytes
  import opened Codec
  import opened Store
  import opened Serialize

  // ---- what is read can be written ---------------------------------------------------------------

  lemma StringFits(buf: seq<byte>, pos: nat)
    requires StringAt(buf, pos).Ok?
    ensures EncodeStr(StringAt(buf, pos).value.0).Ok?
  {
    hide FromUtf8, Utf8, LeValue;
    Limits();
    var (n, p) := NumberAt(buf, pos, 4).value;
    Utf8Exact(TakeAt(buf, p, n).value.0);
  }

  lemma {:induction false} AllFit<T>(enc: T -> Written, xs: seq<T>)
    requires forall k :: 0 <= k < |xs| ==> enc(xs[k]).Ok?
    ensures EncodeAll(enc, xs).Ok?
  {
    if xs != [] { AllFit(enc, xs[..|xs| - 1]); }
  }

  lemma ListFits<T>(enc: T -> Written, xs: seq<T>)
    requires |xs| < 0x1_0000_0000 && forall k :: 0 <= k < |xs| ==> enc(xs[k]).Ok?
    ensures EncodeList(enc, xs).Ok?
  {
    AllFit(enc, xs);
  }

  /** Item `k` of a parsed list is what its parser found at some position. */
  lemma {:induction false} ParsedAt<T>(p: Parser<T>, pos: nat, n: nat, k: nat) returns (q: nat)
    requires ParseFirst(p, pos, n).Ok? && k < n
    ensures p(q, k).Ok? && p(q, k).value.0 == ParseFirst(p, pos, n).value.0[k]
  {
    if k == n - 1 {
      q := ParseFirst(p, pos, n - 1).value.1;
    } else {
      q := ParsedAt(p, pos, n - 1, k);
    }
  }

  lemma ListedAt<T>(buf: seq<byte>, pos: nat, p: Parser<T>, k: nat) returns (q: nat)
    requires ListAt(buf, pos, p).Ok? && k < |ListAt(buf, pos, p).value.0|
    ensures p(q, k).Ok? && p(q, k).value.0 == ListAt(buf, pos, p).value.0[k]
  {
    var (n, start) := NumberAt(buf, pos, 4).value;
    q := ParsedAt(p, start, n, k);
  }

  lemma ListedFew<T>(buf: seq<byte>, pos: nat, p: Parser<T>)
    requires ListAt(buf, pos, p).Ok?
    ensures |ListAt(buf, pos, p).value.0| < 0x1_0000_0000
  {
    Limits();
  }

  lemma EntryFits(buf: seq<byte>, pos: nat, i: nat)
    requires EntryAt(buf)(pos, i).Ok?
    ensures EncodeEntry(EntryAt(buf)(pos, i).value.0).Ok?
  {
    hide StringAt, EncodeStr, NumberAt, FloatKey, Le;
    StringFits(buf, pos);
    var p := StringAt(buf, pos).value.1;
    var q := ByteAt(buf, p).value.1;
    if ByteAt(buf, p).value.0 == P_STR { StringFits(buf, q); }
  }

  lemma {:induction false} NewMapFrom(es: seq<Entry>)
    ensures |NewMap(es)| == |es| && forall e :: e in NewMap(es) ==> e in es
  {
    if es != [] {
      var m := |es| - 1;
      NewMapFrom(es[..m]);
      InsertedFrom(NewMap(es[..m]), es[m]);
    }
  }

  lemma {:induction false} InsertedFrom(es: ParamMap, e: Entry)
    ensures forall x :: x in InsertEntry(es, e) ==> x in es || x == e
  {
    if !(es == [] || StringLeq(es[|es| - 1].0, e.0)) {
      InsertedFrom(es[..|es| - 1], e);
    }
  }

  lemma ParamsFit(buf: seq<byte>, pos: nat)
    requires ParamsAt(buf, pos).Ok?
    ensures EncodeParams(ParamsAt(buf, pos).value.0).Ok?
  {
    hide EntryAt, EncodeEntry, ListAt, NewMap, EncodeList;
    var es := ListAt(buf, pos, EntryAt(buf)).value.0;
    ListedFew(buf, pos, EntryAt(buf));
    NewMapFrom(es);
    var map_ := NewMap(es);
    forall k | 0 <= k < |map_| ensures EncodeEntry(map_[k]).Ok? {
      var j := IndexOf(es, map_[k]);
      var q := ListedAt(buf, pos, EntryAt(buf), j);
      EntryFits(buf, q, j);
    }
    ListFits(EncodeEntry, map_);
  }

  lemma InputsFit(buf: seq<byte>, pos: nat, max: nat)
    requires InputsAt(buf, pos, max).Ok?
    ensures EncodeInputs(InputsAt(buf, pos, max).value.0).Ok? && Below(InputsAt(buf, pos, max).value.0, max)
  {
    hide ListAt, EncodeList, U64At;
    var ids := ListAt(buf, pos, IdAt(buf, max)).value.0;
    ListedFew(buf, pos, IdAt(buf, max));
    forall k | 0 <= k < |ids| ensures ids[k] < max {
      var q := ListedAt(buf, pos, IdAt(buf, max), k);
    }
    ListFits<NodeId>(EncodeId, ids);
  }

  lemma RefFits(buf: seq<byte>, pos: nat, i: nat, index: nat)
    requires RefAt(buf, index)(pos, i).Ok?
    ensures var r := RefAt(buf, index)(pos, i).value.0;
      EncodeRef(r).Ok? && (r.Member? ==> r.index < index)
  {
    hide LeValue;
    Limits();
  }

  lemma MemberFits(buf: seq<byte>, pos: nat, i: nat)
    requires MemberAt(buf)(pos, i).Ok?
    ensures var m := MemberAt(buf)(pos, i).value.0; EncodeMember(m).Ok? && RefsEarlier(m, i)
  {
    hide StringAt, EncodeStr, ListAt, EncodeList, RefAt, EncodeRef;
    StringFits(buf, pos);
    var p := StringAt(buf, pos).value.1;
    var refs := ListAt(buf, p, RefAt(buf, i)).value.0;
    ListedFew(buf, p, RefAt(buf, i));
    forall k | 0 <= k < |refs| ensures EncodeRef(refs[k]).Ok? && (refs[k].Member? ==> refs[k].index < i) {
      var q := ListedAt(buf, p, RefAt(buf, i), k);
      RefFits(buf, q, k, i);
    }
    ListFits(EncodeRef, refs);
  }

  lemma MembersFit(buf: seq<byte>, pos: nat)
    requires MembersAt(buf, pos).Ok?
    ensures EncodeList(EncodeMember, MembersAt(buf, pos).value.0).Ok? && MembersEarlier(MembersAt(buf, pos).value.0)
  {
    hide ListAt, EncodeList, MemberAt, EncodeMember, RefsEarlier;
    var ms := ListAt(buf, pos, MemberAt(buf)).value.0;
    ListedFew(buf, pos, MemberAt(buf));
    forall k | 0 <= k < |ms| ensures EncodeMember(ms[k]).Ok? && RefsEarlier(ms[k], k) {
      var q := ListedAt(buf, pos, MemberAt(buf), k);
      MemberFits(buf, q, k);
    }
    ListFits(EncodeMember, ms);
  }

  lemma DescriptorFits(buf: seq<byte>, pos: nat)
    requires DescriptorAt(buf, pos).Ok?
    ensures EncodeDescriptor(DescriptorAt(buf, pos).value.0).Ok?
  {
    hide StringAt, EncodeStr, ByteAt;
    StringFits(buf, pos);
    var a := StringAt(buf, pos).value.1;
    StringFits(buf, a);
    var b := StringAt(buf, a).value.1;
    StringFits(buf, b);
    var c := StringAt(buf, b).value.1;
    StringFits(buf, c);
    var d := StringAt(buf, c).value.1;
    StringFits(buf, d);
    var e := StringAt(buf, d).value.1;
    var (flag, p) := ByteAt(buf, e).value;
    if flag != 0 { StringFits(buf, p); }
  }

  lemma WiredFits(buf: seq<byte>, pos: nat, max: nat)
    requires WiredAt(buf, pos, max).Ok?
    ensures var w := WiredAt(buf, pos, max).value.0; EncodeWired(w.0, w.1).Ok? && Below(w.1, max)
  {
    hide ParamsAt, InputsAt, EncodeParams, EncodeInputs;
    ParamsFit(buf, pos);
    InputsFit(buf, ParamsAt(buf, pos).value.1, max);
  }

  /** A node found in any bytes can be written, and read where it is written. */
  lemma NodeFits(buf: seq<byte>, pos: nat, max: nat)
    requires NodeAt(buf, pos, max).Ok?
    ensures var key := NodeAt(buf, pos, max).value.0; EncodeNode(key).Ok? && Readable(key) && Below(key.Inputs(), max)
  {
    hide StringAt, EncodeStr, ByteAt, ParamsAt, EncodeParams, InputsAt, EncodeInputs, WiredAt, EncodeWired, DescriptorAt,
         EncodeDescriptor, MembersAt, EncodeList, MembersEarlier, NodeKey.Token;
    var (tag, p) := ByteAt(buf, pos).value;
    if tag == T_SOURCE {
      StringFits(buf, p);
      ParamsFit(buf, StringAt(buf, p).value.1);
    } else if tag == T_OP || tag == T_REDUCTION {
      StringFits(buf, p);
      WiredFits(buf, StringAt(buf, p).value.1, max);
    } else if tag == T_EXTERNAL {
      DescriptorFits(buf, p);
      WiredFits(buf, DescriptorAt(buf, p).value.1, max);
    } else if tag == T_EXCHANGE || tag == T_JOIN {
      WiredFits(buf, p, max);
    } else {
      InputsFit(buf, p, max);
      MembersFit(buf, InputsAt(buf, p, max).value.1);
    }
  }

  // ---- a whole store -----------------------------------------------------------------------------

  predicate AllWritable(nodes: seq<NodeKey>) {
    forall i :: 0 <= i < |nodes| ==> EncodeNode(nodes[i]).Ok?
  }

  lemma NothingHeld()
    ensures Interned([]) && AllReadable([]) && AllWritable([]) && Distinct<NodeId>([])
  {
  }

  lemma {:induction false} NodesFit(buf: seq<byte>, pos: nat, n: nat)
    requires InternFirst(buf, pos, n).Ok?
    ensures var nodes := InternFirst(buf, pos, n).value.0;
      Interned(nodes) && AllReadable(nodes) && AllWritable(nodes) && |nodes| <= n
  {
    hide NodeAt, EncodeNode, Readable, FirstBeyond, Insert, NodeKey.Token, Distinct;
    if n > 0 {
      NodesFit(buf, pos, n - 1);
      var (nodes, q) := InternFirst(buf, pos, n - 1).value;
      NodeFits(buf, q, n - 1);
      InsertFits(nodes, NodeAt(buf, q, n - 1).value.0);
    } else {
      NothingHeld();
    }
  }

  lemma InsertFits(nodes: seq<NodeKey>, key: NodeKey)
    requires Interned(nodes) && AllReadable(nodes) && AllWritable(nodes)
    requires EncodeNode(key).Ok? && Readable(key) && FirstBeyond(key.Inputs(), |nodes|).None?
    ensures var more := Insert(nodes, key); Interned(more) && AllReadable(more) && AllWritable(more) && |more| <= |nodes| + 1
  {
    hide EncodeNode, Readable, NodeKey.Token, NodeKey.Inputs, Distinct;
    if key !in nodes {
      DistinctMore(nodes, key);
      assert Below(key.Inputs(), |nodes|);
      assert forall i :: 0 <= i < |nodes| ==> (nodes + [key])[i] == nodes[i];
    }
  }

  lemma {:induction false} MarksFit(buf: seq<byte>, pos: nat, n: nat, held: nat)
    requires MarkFirst(buf, pos, n, held).Ok?
    ensures var outputs := MarkFirst(buf, pos, n, held).value.0; Below(outputs, held) && Distinct(outputs) && |outputs| <= n
  {
    hide U64At, Distinct;
    if n > 0 {
      MarksFit(buf, pos, n - 1, held);
      var (outputs, q) := MarkFirst(buf, pos, n - 1, held).value;
      var o := U64At(buf, q).value.0;
      if o !in outputs { DistinctMore<NodeId>(outputs, o); }
    } else {
      NothingHeld();
    }
  }

  /** Whatever bytes are accepted, what they decode to is a well-formed store; it can be written, and what is
      written decodes to the same store. So decoding then writing settles any accepted bytes in one step. */
  lemma {:induction false} AcceptedIsWritable(data: seq<byte>)
    requires Decode(data).Ok?
    ensures var (nodes, outputs) := Decode(data).value;
      && Interned(nodes) && AllReadable(nodes) && Below(outputs, |nodes|) && Distinct(outputs)
      && Encode(nodes, outputs).Ok? && Decode(Encode(nodes, outputs).value) == Ok((nodes, outputs))
  {
    hide InternFirst, MarkFirst, EncodeNode, Interned, AllReadable, Distinct, AllWritable, EncodeList, Readable, NodeKey.Token;
    Limits();
    var (magic, p) := TakeAt(data, 0, 4).value;
    var (n, q) := NumberAt(data, p, 4).value;
    var (nodes, r) := InternFirst(data, q, n).value;
    var (k, s) := NumberAt(data, r, 4).value;
    var (outputs, _) := MarkFirst(data, s, k, |nodes|).value;
    NodesFit(data, q, n);
    MarksFit(data, s, k, |nodes|);
    WritableFits(nodes);
    ListFits<NodeId>(EncodeId, outputs);
    assert Encode(nodes, outputs).Ok?;
    DecodeEncode(nodes, outputs);
    MarkedOfDistinct(outputs);
  }

  lemma WritableFits(nodes: seq<NodeKey>)
    requires AllWritable(nodes) && |nodes| < 0x1_0000_0000
    ensures EncodeList(EncodeNode, nodes).Ok?
  {
    hide EncodeNode;
    ListFits(EncodeNode, nodes);
  }
}
