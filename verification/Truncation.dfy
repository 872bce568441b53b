/** Cut short anywhere, a written graph is refused as truncated, and nothing after it matters (src/serialize.rs). */
module Truncation {
  import opened Collections
  import opened Nodes
  import opened Graph
  import opened Store
  import opened Bytes
  import opened Codec
  import opened Serialize

  /** `short` is what a reader that finds `r` finds in the first `k` bytes alone: the same if it stays inside them, and
      otherwise that they are truncated. */
  ghost predicate Cuts<T>(pos: nat, r: Parsed<T>, short: Parsed<T>, k: nat) {
    && (r.Ok? ==> pos <= r.value.1 && short == if r.value.1 <= k then r else Err(Truncated))
    && (short.Ok? ==> r == short)
  }

  // ---- the primitives ----------------------------------------------------------------------------

  lemma TakeCuts(buf: seq<byte>, k: nat, pos: nat, n: nat)
    requires k <= |buf|
    ensures Cuts(pos, TakeAt(buf, pos, n), TakeAt(buf[..k], pos, n), k)
  {
    if pos + n <= k { assert buf[..k][pos..pos + n] == buf[pos..pos + n]; }
  }

  lemma NumberCuts(buf: seq<byte>, k: nat, pos: nat, width: nat)
    requires k <= |buf|
    ensures Cuts(pos, NumberAt(buf, pos, width), NumberAt(buf[..k], pos, width), k)
  {
    TakeCuts(buf, k, pos, width);
  }

  lemma ByteCuts(buf: seq<byte>, k: nat, pos: nat)
    requires k <= |buf|
    ensures Cuts(pos, ByteAt(buf, pos), ByteAt(buf[..k], pos), k)
  {
    hide NumberAt;
    NumberCuts(buf, k, pos, 1);
  }

  lemma LongCuts(buf: seq<byte>, k: nat, pos: nat)
    requires k <= |buf|
    ensures Cuts(pos, U64At(buf, pos), U64At(buf[..k], pos), k)
  {
    hide NumberAt;
    NumberCuts(buf, k, pos, 8);
  }

  lemma StringCuts(buf: seq<byte>, k: nat, pos: nat)
    requires k <= |buf|
    ensures Cuts(pos, StringAt(buf, pos), StringAt(buf[..k], pos), k)
  {
    hide NumberAt, TakeAt, FromUtf8;
    NumberCuts(buf, k, pos, 4);
    if NumberAt(buf, pos, 4).Ok? {
      var (n, p) := NumberAt(buf, pos, 4).value;
      TakeCuts(buf, k, p, n);
    }
  }

  // ---- counted lists -----------------------------------------------------------------------------

  /** The two parsers find the same items, one in the first `k` bytes alone. */
  ghost predicate CutsEach<T(!new)>(p: Parser<T>, short: Parser<T>, k: nat) {
    forall q: nat, i: nat :: Cuts(q, p(q, i), short(q, i), k)
  }

  lemma {:induction false} FirstCuts<T(!new)>(p: Parser<T>, short: Parser<T>, k: nat, pos: nat, n: nat)
    requires CutsEach(p, short, k) && pos <= k
    ensures Cuts(pos, ParseFirst(p, pos, n), ParseFirst(short, pos, n), k)
  {
    if n > 0 {
      FirstCuts(p, short, k, pos, n - 1);
      var before := ParseFirst(p, pos, n - 1);
      if before.Ok? { assert Cuts(before.value.1, p(before.value.1, n - 1), short(before.value.1, n - 1), k); }
    }
  }

  lemma {:induction false} ListCuts<T(!new)>(buf: seq<byte>, k: nat, pos: nat, p: Parser<T>, short: Parser<T>)
    requires k <= |buf| && CutsEach(p, short, k)
    ensures Cuts(pos, ListAt(buf, pos, p), ListAt(buf[..k], pos, short), k)
  {
    hide NumberAt, ParseFirst, CutsEach;
    NumberCuts(buf, k, pos, 4);
    if NumberAt(buf, pos, 4).Ok? && NumberAt(buf, pos, 4).value.1 <= k {
      var (n, q) := NumberAt(buf, pos, 4).value;
      FirstCuts(p, short, k, q, n);
    } else if NumberAt(buf, pos, 4).Ok? {
      var (n, q) := NumberAt(buf, pos, 4).value;
      FirstMovesOn(p, short, k, q, n);
    }
  }

  lemma {:induction false} FirstMovesOn<T(!new)>(p: Parser<T>, short: Parser<T>, k: nat, pos: nat, n: nat)
    requires CutsEach(p, short, k)
    ensures ParseFirst(p, pos, n).Ok? ==> pos <= ParseFirst(p, pos, n).value.1
  {
    if n > 0 && ParseFirst(p, pos, n - 1).Ok? {
      FirstMovesOn(p, short, k, pos, n - 1);
      var q := ParseFirst(p, pos, n - 1).value.1;
      assert Cuts(q, p(q, n - 1), short(q, n - 1), k);
    }
  }

  // ---- what a node is made of --------------------------------------------------------------------

  lemma ValueCuts(buf: seq<byte>, k: nat, pos: nat)
    requires k <= |buf|
    ensures Cuts(pos, ValueAt(buf, pos), ValueAt(buf[..k], pos), k)
  {
    hide ByteAt, U64At, StringAt;
    ByteCuts(buf, k, pos);
    if ByteAt(buf, pos).Ok? {
      var p := ByteAt(buf, pos).value.1;
      LongCuts(buf, k, p);
      ByteCuts(buf, k, p);
      StringCuts(buf, k, p);
    }
  }

  lemma EntriesCut(buf: seq<byte>, k: nat)
    requires k <= |buf|
    ensures CutsEach(EntryAt(buf), EntryAt(buf[..k]), k)
  {
    hide StringAt, ValueAt;
    forall pos: nat, i: nat ensures Cuts(pos, EntryAt(buf)(pos, i), EntryAt(buf[..k])(pos, i), k) {
      StringCuts(buf, k, pos);
      if StringAt(buf, pos).Ok? { ValueCuts(buf, k, StringAt(buf, pos).value.1); }
    }
  }

  lemma ParamsCut(buf: seq<byte>, k: nat, pos: nat)
    requires k <= |buf|
    ensures Cuts(pos, ParamsAt(buf, pos), ParamsAt(buf[..k], pos), k)
  {
    hide ListAt, EntryAt, CutsEach;
    EntriesCut(buf, k);
    ListCuts(buf, k, pos, EntryAt(buf), EntryAt(buf[..k]));
  }

  lemma InputsCut(buf: seq<byte>, k: nat, pos: nat, max: nat)
    requires k <= |buf|
    ensures Cuts(pos, InputsAt(buf, pos, max), InputsAt(buf[..k], pos, max), k)
  {
    hide ListAt, U64At;
    assert CutsEach(IdAt(buf, max), IdAt(buf[..k], max), k) by {
      forall q: nat, i: nat ensures Cuts(q, IdAt(buf, max)(q, i), IdAt(buf[..k], max)(q, i), k) { LongCuts(buf, k, q); }
    }
    ListCuts(buf, k, pos, IdAt(buf, max), IdAt(buf[..k], max));
  }

  lemma RefsCut(buf: seq<byte>, k: nat, index: nat)
    requires k <= |buf|
    ensures CutsEach(RefAt(buf, index), RefAt(buf[..k], index), k)
  {
    hide ByteAt, NumberAt;
    forall pos: nat, i: nat ensures Cuts(pos, RefAt(buf, index)(pos, i), RefAt(buf[..k], index)(pos, i), k) {
      ByteCuts(buf, k, pos);
      if ByteAt(buf, pos).Ok? { NumberCuts(buf, k, ByteAt(buf, pos).value.1, 4); }
    }
  }

  lemma MemberCuts(buf: seq<byte>, k: nat, pos: nat, index: nat)
    requires k <= |buf|
    ensures Cuts(pos, OneMemberAt(buf, pos, index), OneMemberAt(buf[..k], pos, index), k)
  {
    hide StringAt, ListAt, RefAt, CutsEach;
    StringCuts(buf, k, pos);
    RefsCut(buf, k, index);
    if StringAt(buf, pos).Ok? { ListCuts(buf, k, StringAt(buf, pos).value.1, RefAt(buf, index), RefAt(buf[..k], index)); }
  }

  lemma MembersCut(buf: seq<byte>, k: nat, pos: nat)
    requires k <= |buf|
    ensures Cuts(pos, MembersAt(buf, pos), MembersAt(buf[..k], pos), k)
  {
    hide ListAt, OneMemberAt;
    assert CutsEach(MemberAt(buf), MemberAt(buf[..k]), k) by {
      forall q: nat, i: nat ensures Cuts(q, MemberAt(buf)(q, i), MemberAt(buf[..k])(q, i), k) { MemberCuts(buf, k, q, i); }
    }
    ListCuts(buf, k, pos, MemberAt(buf), MemberAt(buf[..k]));
  }

  lemma OptionalCuts(buf: seq<byte>, k: nat, pos: nat)
    requires k <= |buf|
    ensures Cuts(pos, OptionalAt(buf, pos), OptionalAt(buf[..k], pos), k)
  {
    hide ByteAt, StringAt;
    ByteCuts(buf, k, pos);
    if ByteAt(buf, pos).Ok? { StringCuts(buf, k, ByteAt(buf, pos).value.1); }
  }

  lemma DescriptorCuts(buf: seq<byte>, k: nat, pos: nat)
    requires k <= |buf|
    ensures Cuts(pos, DescriptorAt(buf, pos), DescriptorAt(buf[..k], pos), k)
  {
    hide StringAt, OptionalAt;
    StringCuts(buf, k, pos);
    if StringAt(buf, pos).Ok? {
      var a := StringAt(buf, pos).value.1;
      StringCuts(buf, k, a);
      if StringAt(buf, a).Ok? {
        var b := StringAt(buf, a).value.1;
        StringCuts(buf, k, b);
        if StringAt(buf, b).Ok? {
          var c := StringAt(buf, b).value.1;
          StringCuts(buf, k, c);
          if StringAt(buf, c).Ok? {
            var d := StringAt(buf, c).value.1;
            StringCuts(buf, k, d);
            if StringAt(buf, d).Ok? { OptionalCuts(buf, k, StringAt(buf, d).value.1); }
          }
        }
      }
    }
  }

  lemma WiredCuts(buf: seq<byte>, k: nat, pos: nat, max: nat)
    requires k <= |buf|
    ensures Cuts(pos, WiredAt(buf, pos, max), WiredAt(buf[..k], pos, max), k)
  {
    hide ParamsAt, InputsAt;
    ParamsCut(buf, k, pos);
    if ParamsAt(buf, pos).Ok? { InputsCut(buf, k, ParamsAt(buf, pos).value.1, max); }
  }

  lemma NamedCuts(buf: seq<byte>, k: nat, pos: nat, max: nat)
    requires k <= |buf|
    ensures Cuts(pos, NamedAt(buf, pos, max), NamedAt(buf[..k], pos, max), k)
  {
    hide StringAt, WiredAt;
    StringCuts(buf, k, pos);
    if StringAt(buf, pos).Ok? { WiredCuts(buf, k, StringAt(buf, pos).value.1, max); }
  }

  lemma NodeCuts(buf: seq<byte>, k: nat, pos: nat, max: nat)
    requires k <= |buf|
    ensures Cuts(pos, NodeAt(buf, pos, max), NodeAt(buf[..k], pos, max), k)
  {
    hide ByteAt, StringAt, ParamsAt, NamedAt, DescriptorAt, WiredAt, InputsAt, MembersAt;
    ByteCuts(buf, k, pos);
    if ByteAt(buf, pos).Ok? {
      var (tag, p) := ByteAt(buf, pos).value;
      if tag == T_SOURCE {
        StringCuts(buf, k, p);
        if StringAt(buf, p).Ok? { ParamsCut(buf, k, StringAt(buf, p).value.1); }
      } else if tag == T_OP || tag == T_REDUCTION {
        NamedCuts(buf, k, p, max);
      } else if tag == T_EXTERNAL {
        DescriptorCuts(buf, k, p);
        if DescriptorAt(buf, p).Ok? { WiredCuts(buf, k, DescriptorAt(buf, p).value.1, max); }
      } else if tag == T_STAGE {
        InputsCut(buf, k, p, max);
        if InputsAt(buf, p, max).Ok? { MembersCut(buf, k, InputsAt(buf, p, max).value.1); }
      } else {
        WiredCuts(buf, k, p, max);
      }
    }
  }

  // ---- the whole graph ---------------------------------------------------------------------------

  lemma {:induction false} NodesCut(buf: seq<byte>, k: nat, pos: nat, n: nat)
    requires k <= |buf|
    ensures InternFirst(buf, pos, n).Ok? ==> pos <= InternFirst(buf, pos, n).value.1
    ensures pos <= k ==> Cuts(pos, InternFirst(buf, pos, n), InternFirst(buf[..k], pos, n), k)
  {
    hide NodeAt, FirstBeyond, Insert, NodeKey.Token;
    if n > 0 {
      NodesCut(buf, k, pos, n - 1);
      if InternFirst(buf, pos, n - 1).Ok? { NodeCuts(buf, k, InternFirst(buf, pos, n - 1).value.1, n - 1); }
    }
  }

  lemma {:induction false} OutputsCut(buf: seq<byte>, k: nat, pos: nat, n: nat, held: nat)
    requires k <= |buf|
    ensures MarkFirst(buf, pos, n, held).Ok? ==> pos <= MarkFirst(buf, pos, n, held).value.1
    ensures pos <= k ==> Cuts(pos, MarkFirst(buf, pos, n, held), MarkFirst(buf[..k], pos, n, held), k)
  {
    hide U64At, Insert;
    if n > 0 {
      OutputsCut(buf, k, pos, n - 1, held);
      if MarkFirst(buf, pos, n - 1, held).Ok? { LongCuts(buf, k, MarkFirst(buf, pos, n - 1, held).value.1); }
    }
  }

  lemma {:induction false} GraphCuts(data: seq<byte>, k: nat)
    requires k <= |data|
    ensures Cuts(0, GraphAt(data), GraphAt(data[..k]), k)
  {
    hide TakeAt, NumberAt, InternFirst, MarkFirst;
    TakeCuts(data, k, 0, 4);
    if TakeAt(data, 0, 4).Ok? {
      var p := TakeAt(data, 0, 4).value.1;
      NumberCuts(data, k, p, 4);
      if NumberAt(data, p, 4).Ok? {
        var (n, q) := NumberAt(data, p, 4).value;
        NodesCut(data, k, q, n);
        if InternFirst(data, q, n).Ok? {
          var (nodes, r) := InternFirst(data, q, n).value;
          NumberCuts(data, k, r, 4);
          if NumberAt(data, r, 4).Ok? {
            var (m, s) := NumberAt(data, r, 4).value;
            OutputsCut(data, k, s, m, |nodes|);
          }
        }
      }
    }
  }

  /** Cut anywhere before its end, an accepted graph is refused as truncated; whatever stands after its end, it is
      the same graph. */
  lemma {:induction false} OnlyTheGraphIsRead(data: seq<byte>, k: nat, tail: seq<byte>)
    requires GraphAt(data).Ok?
    ensures GraphAt(data).value.1 <= |data|
    ensures k < GraphAt(data).value.1 ==> Decode(data[..k]) == Err(Truncated)
    ensures Decode(data[..GraphAt(data).value.1] + tail) == Decode(data)
  {
    hide GraphAt;
    var end := GraphAt(data).value.1;
    GraphEnds(data);
    GraphCuts(data, if k <= |data| then k else |data|);
    GraphCuts(data, end);
    var longer := data[..end] + tail;
    GraphCuts(longer, end);
    assert longer[..end] == data[..end];
  }

  lemma GraphEnds(data: seq<byte>)
    requires GraphAt(data).Ok?
    ensures GraphAt(data).value.1 <= |data|
  {
    hide GraphAt;
    GraphCuts(data, |data|);
    assert data[..|data|] == data;
  }

  /** So every proper prefix of a written store is refused as truncated, and a written store followed by anything
      reads back. */
  lemma {:induction false} PrefixIsTruncated(nodes: seq<NodeKey>, outputs: seq<NodeId>, k: nat, tail: seq<byte>)
    requires Interned(nodes) && AllReadable(nodes) && Below(outputs, |nodes|) && Encode(nodes, outputs).Ok?
    ensures k < |Encode(nodes, outputs).value| ==> Decode(Encode(nodes, outputs).value[..k]) == Err(Truncated)
    ensures Decode(Encode(nodes, outputs).value + tail) == Ok((nodes, Marked([], outputs)))
  {
    hide GraphAt, Encode, Interned, AllReadable, Marked;
    var data := Encode(nodes, outputs).value;
    DecodeEncode(nodes, outputs);
    OnlyTheGraphIsRead(data, k, tail);
    assert data[..|data|] == data;
  }
}
