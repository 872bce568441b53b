/** Bytes, and what the codec is composed of: little-endian numbers, UTF-8, sequencing and counted lists
    (the primitives of src/serialize.rs). */
module Bytes {
  import opened Collections

  type byte = x: int | 0 <= x < 256

  // ---- little-endian numbers --------------------------------------------------------------------

  function Le(v: nat, width: nat): (bs: seq<byte>)
    ensures |bs| == width
  {
    if width == 0 then [] else [v % 256] + Le(v / 256, width - 1)
  }

  function LeValue(bs: seq<byte>): nat {
    if bs == [] then 0 else bs[0] + 256 * LeValue(bs[1..])
  }

  /** One more than the largest number of `width` bytes. */
  function Limit(width: nat): (n: nat)
    ensures n > 0
  {
    if width == 0 then 1 else 256 * Limit(width - 1)
  }

  lemma Limits()
    ensures Limit(1) == 0x100 && Limit(4) == 0x1_0000_0000 && Limit(8) == 0x1_0000_0000_0000_0000
  {
    assert Limit(2) == 0x1_0000 && Limit(3) == 0x100_0000;
    assert Limit(5) == 0x100_0000_0000 && Limit(6) == 0x1_0000_0000_0000 && Limit(7) == 0x100_0000_0000_0000;
  }

  lemma {:induction false} LeRoundTrip(v: nat, width: nat)
    requires v < Limit(width)
    ensures LeValue(Le(v, width)) == v
  {
    if width > 0 {
      assert v / 256 < Limit(width - 1);
      LeRoundTrip(v / 256, width - 1);
      assert Le(v, width)[1..] == Le(v / 256, width - 1);
    }
  }

  lemma {:induction false} LeBound(bs: seq<byte>)
    ensures LeValue(bs) < Limit(|bs|)
  {
    if bs != [] { LeBound(bs[1..]); }
  }

  // ---- UTF-8 ------------------------------------------------------------------------------------

  function EncodeChar(c: char): (bs: seq<byte>)
    ensures 1 <= |bs| <= 4
  {
    var n := c as int;
    if n < 0x80 then [n]
    else if n < 0x800 then [0xC0 + n / 64, 0x80 + n % 64]
    else if n < 0x1_0000 then [0xE0 + n / 4096, 0x80 + n / 64 % 64, 0x80 + n % 64]
    else [0xF0 + n / 262144, 0x80 + n / 4096 % 64, 0x80 + n / 64 % 64, 0x80 + n % 64]
  }

  predicate IsScalar(n: int) {
    0 <= n < 0xD800 || 0xE000 <= n < 0x11_0000
  }

  /** How many bytes a character that starts with `b` takes; none start with a continuation byte. */
  function WidthFrom(b: byte): nat {
    if b < 0x80 then 1 else if b < 0xC0 then 0 else if b < 0xE0 then 2 else if b < 0xF0 then 3 else if b < 0xF8 then 4 else 0
  }

  function ScalarFrom(bs: seq<byte>): int
    requires 1 <= |bs| <= 4
  {
    if |bs| == 1 then bs[0]
    else if |bs| == 2 then Past(bs[0], 0xC0) * 64 + Past(bs[1], 0x80)
    else if |bs| == 3 then Past(bs[0], 0xE0) * 4096 + Past(bs[1], 0x80) * 64 + Past(bs[2], 0x80)
    else Past(bs[0], 0xF0) * 262144 + Past(bs[1], 0x80) * 4096 + Past(bs[2], 0x80) * 64 + Past(bs[3], 0x80)
  }

  function Past(b: byte, mark: int): int {
    var n: int := b;
    n - mark
  }

  /** The first character, if the bytes start with the shortest form of one. */
  function DecodeChar(bs: seq<byte>): (r: Option<char>)
    requires bs != []
    ensures r.Some? ==> EncodeChar(r.value) <= bs
  {
    var w := WidthFrom(bs[0]);
    if w == 0 || |bs| < w then None
    else
      var n := ScalarFrom(bs[..w]);
      if IsScalar(n) && EncodeChar(n as char) == bs[..w] then Some(n as char) else None
  }

  lemma CharRoundTrip(c: char, rest: seq<byte>)
    ensures DecodeChar(EncodeChar(c) + rest) == Some(c)
  {
    var bs := EncodeChar(c);
    var n := c as int;
    assert (bs + rest)[..|bs|] == bs;
    ScalarOfChar(c);
    assert WidthFrom(bs[0]) == |bs|;
  }

  lemma ScalarOfChar(c: char)
    ensures ScalarFrom(EncodeChar(c)) == c as int
  {
    var n := c as int;
    if n >= 0x1_0000 {
      FourDigits(n);
    } else if n >= 0x800 {
      ThreeDigits(n);
    }
  }

  lemma ThreeDigits(n: nat)
    ensures n / 4096 * 4096 + n / 64 % 64 * 64 + n % 64 == n
  {
    assert n / 64 / 64 == n / 4096;
  }

  lemma FourDigits(n: nat)
    ensures n / 262144 * 262144 + n / 4096 % 64 * 4096 + n / 64 % 64 * 64 + n % 64 == n
  {
    ThreeDigits(n);
    assert n / 4096 / 64 == n / 262144;
  }

  function Utf8(s: string): seq<byte> {
    if s == "" then [] else EncodeChar(s[0]) + Utf8(s[1..])
  }

  /** The string the bytes are the UTF-8 of, if they are valid UTF-8. */
  function FromUtf8(bs: seq<byte>): (r: Option<string>)
    decreases |bs|
  {
    if bs == [] then Some("")
    else
      match DecodeChar(bs)
      case None => None
      case Some(c) =>
        match FromUtf8(bs[|EncodeChar(c)|..])
        case None => None
        case Some(rest) => Some([c] + rest)
  }

  lemma {:induction false} Utf8RoundTrip(s: string)
    ensures FromUtf8(Utf8(s)) == Some(s)
  {
    if s != "" {
      CharRoundTrip(s[0], Utf8(s[1..]));
      assert Utf8(s)[|EncodeChar(s[0])|..] == Utf8(s[1..]);
      Utf8RoundTrip(s[1..]);
      assert s == [s[0]] + s[1..];
    }
  }

  /** Only a string's own UTF-8 decodes to it. */
  lemma {:induction false} Utf8Exact(bs: seq<byte>)
    ensures FromUtf8(bs).Some? ==> Utf8(FromUtf8(bs).value) == bs
    decreases |bs|
  {
    hide DecodeChar, EncodeChar;
    if bs != [] && FromUtf8(bs).Some? {
      var c := DecodeChar(bs).value;
      var rest := bs[|EncodeChar(c)|..];
      Utf8Exact(rest);
      var t := FromUtf8(rest).value;
      assert FromUtf8(bs).value == [c] + t;
      assert ([c] + t)[0] == c && ([c] + t)[1..] == t;
      assert bs == EncodeChar(c) + rest;
    }
  }

  // ---- writing ----------------------------------------------------------------------------------

  /** A length or index that does not fit the format's field. */
  datatype EncodeError = EncodeError(value: nat)

  /** What a writer appends, unless something does not fit. */
  type Written = Result<seq<byte>, EncodeError>

  function Then(a: Written, b: Written): (r: Written)
    ensures r.Ok? <==> a.Ok? && b.Ok?
    ensures r.Ok? ==> r.value == a.value + b.value
  {
    if a.Err? then a else if b.Err? then b else Ok(a.value + b.value)
  }

  function EncodeLen(n: nat): (w: Written) {
    if n < 0x1_0000_0000 then Ok(Le(n, 4)) else Err(EncodeError(n))
  }

  function EncodeStr(s: string): Written {
    Then(EncodeLen(|Utf8(s)|), Ok(Utf8(s)))
  }

  function EncodeAll<T>(enc: T -> Written, xs: seq<T>): Written {
    if xs == [] then Ok([]) else Then(EncodeAll(enc, xs[..|xs| - 1]), enc(xs[|xs| - 1]))
  }

  /** A count, then that many items. */
  function EncodeList<T>(enc: T -> Written, xs: seq<T>): Written {
    Then(EncodeLen(|xs|), EncodeAll(enc, xs))
  }

  lemma {:induction false} EncodeMore<T>(enc: T -> Written, xs: seq<T>, k: nat)
    requires k < |xs|
    ensures EncodeAll(enc, xs[..k + 1]) == Then(EncodeAll(enc, xs[..k]), enc(xs[k]))
  {
    assert xs[..k + 1][..k] == xs[..k];
  }

  /** What does not fit early stops everything after it. */
  lemma {:induction false} EncodeStops<T>(enc: T -> Written, xs: seq<T>, k: nat)
    requires k <= |xs| && EncodeAll(enc, xs[..k]).Err?
    ensures EncodeAll(enc, xs) == EncodeAll(enc, xs[..k])
    decreases |xs| - k
  {
    if k < |xs| {
      EncodeMore(enc, xs, k);
      EncodeStops(enc, xs, k + 1);
    } else {
      assert xs[..k] == xs;
    }
  }

  // ---- reading ----------------------------------------------------------------------------------

  datatype DecodeError = BadMagic | Truncated | BadTag(what: string, tag: byte) | BadUtf8 | BadNodeRef(id: nat)

  /** What a reader finds at a position, and the position after it. */
  type Parsed<+T> = Result<(T, nat), DecodeError>

  function TakeAt(buf: seq<byte>, pos: nat, n: nat): (r: Parsed<seq<byte>>)
    ensures r.Ok? ==> |r.value.0| == n && r.value.1 == pos + n <= |buf|
  {
    if pos + n <= |buf| then Ok((buf[pos..pos + n], pos + n)) else Err(Truncated)
  }

  function NumberAt(buf: seq<byte>, pos: nat, width: nat): (r: Parsed<nat>)
    ensures r.Ok? ==> r.value.0 < Limit(width)
  {
    var (bs, next) :- TakeAt(buf, pos, width);
    LeBound(bs);
    Ok((LeValue(bs), next))
  }

  function ByteAt(buf: seq<byte>, pos: nat): (r: Parsed<byte>) {
    var (n, next) :- NumberAt(buf, pos, 1);
    Limits();
    Ok((n, next))
  }

  function StringAt(buf: seq<byte>, pos: nat): Parsed<string> {
    var (n, p) :- NumberAt(buf, pos, 4);
    var (bs, next) :- TakeAt(buf, p, n);
    match FromUtf8(bs)
    case None => Err(BadUtf8)
    case Some(s) => Ok((s, next))
  }

  /** Reads the item of a given index at a given position. */
  type Parser<+T> = (nat, nat) -> Parsed<T>

  function ParseFirst<T>(p: Parser<T>, pos: nat, n: nat): (r: Parsed<seq<T>>)
    ensures r.Ok? ==> |r.value.0| == n
  {
    if n == 0 then Ok(([], pos))
    else
      var (xs, q) :- ParseFirst(p, pos, n - 1);
      var (x, next) :- p(q, n - 1);
      Ok((xs + [x], next))
  }

  lemma {:induction false} ParseStops<T>(p: Parser<T>, pos: nat, k: nat, n: nat)
    requires k <= n && ParseFirst(p, pos, k).Err?
    ensures ParseFirst(p, pos, n) == Err(ParseFirst(p, pos, k).error)
    decreases n - k
  {
    if k < n { ParseStops(p, pos, k + 1, n); }
  }

  function ListAt<T>(buf: seq<byte>, pos: nat, p: Parser<T>): Parsed<seq<T>> {
    var (n, q) :- NumberAt(buf, pos, 4);
    ParseFirst(p, q, n)
  }

  // ---- reading what was written -----------------------------------------------------------------

  predicate At(buf: seq<byte>, pos: nat, bs: seq<byte>) {
    pos + |bs| <= |buf| && buf[pos..pos + |bs|] == bs
  }

  /** If the buffer holds what was written at `pos`, the reader finds `x` there and moves past it. */
  predicate Reads<T(==)>(buf: seq<byte>, pos: nat, w: Written, r: Parsed<T>, x: T) {
    w.Ok? && At(buf, pos, w.value) ==> r == Ok((x, pos + |w.value|))
  }

  lemma AtParts(buf: seq<byte>, pos: nat, a: seq<byte>, b: seq<byte>)
    requires At(buf, pos, a + b)
    ensures At(buf, pos, a) && At(buf, pos + |a|, b)
  {
    assert buf[pos..pos + |a|] == (a + b)[..|a|];
    assert buf[pos + |a|..pos + |a| + |b|] == (a + b)[|a|..];
  }

  lemma NumberReads(buf: seq<byte>, pos: nat, v: nat, width: nat)
    requires v < Limit(width)
    ensures Reads(buf, pos, Ok(Le(v, width)), NumberAt(buf, pos, width), v)
  {
    LeRoundTrip(v, width);
  }

  lemma LenReads(buf: seq<byte>, pos: nat, n: nat)
    ensures Reads(buf, pos, EncodeLen(n), NumberAt(buf, pos, 4), n)
  {
    Limits();
    if n < 0x1_0000_0000 { NumberReads(buf, pos, n, 4); }
  }

  lemma ByteReads(buf: seq<byte>, pos: nat, b: byte)
    ensures Reads(buf, pos, Ok([b]), ByteAt(buf, pos), b)
  {
    Limits();
    NumberReads(buf, pos, b, 1);
    assert Le(b, 1) == [b];
  }

  lemma StrReads(buf: seq<byte>, pos: nat, s: string)
    ensures Reads(buf, pos, EncodeStr(s), StringAt(buf, pos), s)
  {
    hide Utf8, FromUtf8, Le, NumberAt, EncodeLen;
    var w := EncodeStr(s);
    if w.Ok? && At(buf, pos, w.value) {
      var bs := Utf8(s);
      AtParts(buf, pos, EncodeLen(|bs|).value, bs);
      LenReads(buf, pos, |bs|);
      Utf8RoundTrip(s);
    }
  }

  lemma {:induction false} AllReads<T>(buf: seq<byte>, pos: nat, enc: T -> Written, p: Parser<T>, xs: seq<T>)
    requires forall i: nat, q: nat :: i < |xs| ==> Reads(buf, q, enc(xs[i]), p(q, i), xs[i])
    ensures Reads(buf, pos, EncodeAll(enc, xs), ParseFirst(p, pos, |xs|), xs)
  {
    var w := EncodeAll(enc, xs);
    if xs != [] && w.Ok? && At(buf, pos, w.value) {
      var n := |xs| - 1;
      var before := EncodeAll(enc, xs[..n]);
      AtParts(buf, pos, before.value, enc(xs[n]).value);
      AllReads(buf, pos, enc, p, xs[..n]);
      assert Reads(buf, pos + |before.value|, enc(xs[n]), p(pos + |before.value|, n), xs[n]);
      assert xs == xs[..n] + [xs[n]];
    }
  }

  lemma {:induction false} ListReads<T>(buf: seq<byte>, pos: nat, enc: T -> Written, p: Parser<T>, xs: seq<T>)
    requires forall i: nat, q: nat :: i < |xs| ==> Reads(buf, q, enc(xs[i]), p(q, i), xs[i])
    ensures Reads(buf, pos, EncodeList(enc, xs), ListAt(buf, pos, p), xs)
  {
    var w := EncodeList(enc, xs);
    if w.Ok? && At(buf, pos, w.value) {
      AtParts(buf, pos, EncodeLen(|xs|).value, EncodeAll(enc, xs).value);
      LenReads(buf, pos, |xs|);
      AllReads(buf, pos + |EncodeLen(|xs|).value|, enc, p, xs);
    }
  }
}
