/** Parameter values, parameter maps and their operator-token encoding (src/param.rs). */
module Params {
  import opened Collections
  import opened Text

  type int64 = x: int | -0x8000_0000_0000_0000 <= x < 0x8000_0000_0000_0000

  type uint64 = x: int | 0 <= x < 0x1_0000_0000_0000_0000

  const CANON_NAN: uint64 := 0x7ff8_0000_0000_0000

  predicate IsNan(bits: uint64) {
    bits % 0x8000_0000_0000_0000 > 0x7ff0_0000_0000_0000
  }

  /** The bits a float is compared, hashed and tokenized by: every NaN has the same ones. */
  function FloatKey(bits: uint64): (key: uint64) {
    if IsNan(bits) then CANON_NAN else bits
  }

  type FloatBits = b: uint64 | b == FloatKey(b)

  /** A float is its key, so that the source's float equality is equality here. */
  datatype ParamValue =
    | Int(value: int64)
    | Float(bits: FloatBits)
    | Bool(flag: bool)
    | Str(text: string)

  /** The pattern is a NaN's: an exponent of all ones and a fraction that is not zero, whatever the sign. */
  predicate NanPattern(bits: uint64) {
    bits / 0x10_0000_0000_0000 % 0x800 == 0x7ff && bits % 0x10_0000_0000_0000 != 0
  }

  lemma NanBits(bits: uint64)
    ensures IsNan(bits) <==> NanPattern(bits)
  {
    var low := bits % 0x8000_0000_0000_0000;
    var exponent, fraction := low / 0x10_0000_0000_0000, bits % 0x10_0000_0000_0000;
    assert 0x8000_0000_0000_0000 == 0x800 * 0x10_0000_0000_0000;
    assert bits == bits / 0x8000_0000_0000_0000 * 0x8000_0000_0000_0000 + low;
    assert low == exponent * 0x10_0000_0000_0000 + low % 0x10_0000_0000_0000;
    assert bits / 0x10_0000_0000_0000 == bits / 0x8000_0000_0000_0000 * 0x800 + exponent;
    assert low % 0x10_0000_0000_0000 == fraction;
    assert exponent < 0x800;
  }

  /** Two floats are one key exactly when their bits are the same, or both are NaNs; 0.0 and -0.0 are two. */
  lemma FloatKeysAgree(a: uint64, b: uint64)
    ensures FloatKey(a) == FloatKey(b) <==>
      (a == b
       || (a / 0x10_0000_0000_0000 % 0x800 == 0x7ff && a % 0x10_0000_0000_0000 != 0
           && b / 0x10_0000_0000_0000 % 0x800 == 0x7ff && b % 0x10_0000_0000_0000 != 0))
    ensures FloatKey(FloatKey(a)) == FloatKey(a)
  {
    NanBits(a);
    NanBits(b);
    assert IsNan(CANON_NAN);
  }

  // ---- escaping ---------------------------------------------------------------------------------

  function EscapeToken(s: string): string {
    ReplaceChar(ReplaceChar(ReplaceChar(ReplaceChar(s, '%', "%25"), ';', "%3B"), '=', "%3D"), '|', "%7C")
  }

  function UnescapeToken(s: string): string {
    ReplaceText(ReplaceText(ReplaceText(ReplaceText(s, "%7C", "|"), "%3D", "="), "%3B", ";"), "%25", "%")
  }

  function Code(c: char): (code: string)
    requires c in SEPARATORS
    ensures |code| == 3 && code[0] == '%' && code[1] != '%' && code[2] != '%'
    ensures forall d <- code :: d !in {';', '=', '|'}
  {
    match c
    case '%' => "%25"
    case ';' => "%3B"
    case '=' => "%3D"
    case _ => "%7C"
  }

  const SEPARATORS: set<char> := {'%', ';', '=', '|'}

  /** `s` with the characters of `cs`, and no others, written as their codes. */
  ghost function Coded(cs: set<char>, s: string): string
    requires cs <= SEPARATORS
  {
    if s == "" then "" else (if s[0] in cs then Code(s[0]) else [s[0]]) + Coded(cs, s[1..])
  }

  lemma {:induction false} CodeMore(cs: set<char>, c: char, s: string)
    requires cs <= SEPARATORS && c in SEPARATORS - cs - {'%'}
    ensures ReplaceChar(Coded(cs, s), c, Code(c)) == Coded(cs + {c}, s)
  {
    if s != "" {
      CodeMore(cs, c, s[1..]);
      var e := Coded(cs, s);
      var rest := Coded(cs, s[1..]);
      if s[0] in cs {
        ReplaceCharSkips(Code(s[0]), rest, c, Code(c));
      } else {
        assert e[1..] == rest;
      }
    }
  }

  lemma {:induction false} CodePercent(s: string)
    ensures ReplaceChar(s, '%', "%25") == Coded({'%'}, s)
  {
    if s != "" { CodePercent(s[1..]); }
  }

  lemma EscapeCodes(s: string)
    ensures EscapeToken(s) == Coded(SEPARATORS, s)
  {
    CodePercent(s);
    CodeMore({'%'}, ';', s);
    CodeMore({'%', ';'}, '=', s);
    CodeMore({'%', ';', '='}, '|', s);
    assert {'%'} + {';'} == {'%', ';'};
    assert {'%', ';'} + {'='} == {'%', ';', '='};
    assert {'%', ';', '='} + {'|'} == SEPARATORS;
  }

  lemma CodesDiffer(c: char, d: char)
    requires c in SEPARATORS && d in SEPARATORS && c != d
    ensures Code(c)[1] != Code(d)[1] || Code(c)[2] != Code(d)[2]
  {
  }

  /** Another character's code is copied whole. */
  lemma {:induction false} DecodeSkips(d: char, rest: string, c: char)
    requires c in SEPARATORS && d in SEPARATORS && c != d
    ensures ReplaceText(Code(d) + rest, Code(c), [c]) == Code(d) + ReplaceText(rest, Code(c), [c])
  {
    hide Code;
    var code, e := Code(d), Code(d) + rest;
    CodesDiffer(c, d);
    var tail := code[1..];
    assert code == ['%'] + tail;
    assert e[0] == '%' && e[1] == code[1] && e[2] == code[2] && e[1..] == tail + rest;
    NotPrefix(Code(c), e);
    ReplaceTextSkips(tail, rest, Code(c), [c]);
    ReplaceCopies(e, Code(c), [c]);
    assert ['%'] + (tail + ReplaceText(rest, Code(c), [c])) == code + ReplaceText(rest, Code(c), [c]);
  }

  lemma NotPrefix(pat: string, e: string)
    requires |pat| == 3 && |e| >= 3 && (pat[1] != e[1] || pat[2] != e[2])
    ensures !(pat <= e)
  {
  }

  lemma ReplaceCopies(e: string, pat: string, sub: string)
    requires e != "" && pat != "" && !(pat <= e)
    ensures ReplaceText(e, pat, sub) == [e[0]] + ReplaceText(e[1..], pat, sub)
  {
  }

  lemma {:induction false} DecodeHit(rest: string, c: char)
    requires c in SEPARATORS
    ensures ReplaceText(Code(c) + rest, Code(c), [c]) == [c] + ReplaceText(rest, Code(c), [c])
  {
    var e := Code(c) + rest;
    assert Code(c) <= e && e[3..] == rest;
  }

  lemma {:induction false} DecodeCopies(x: char, rest: string, c: char)
    requires c in SEPARATORS && x != '%'
    ensures ReplaceText([x] + rest, Code(c), [c]) == [x] + ReplaceText(rest, Code(c), [c])
  {
    var e := [x] + rest;
    assert e[1..] == rest;
    assert !(Code(c) <= e) by { assert e[0] != '%'; }
  }

  /** Undoing one code never reads across a unit, as long as `%` itself is still coded. */
  lemma {:induction false} DecodeOne(cs: set<char>, c: char, s: string)
    requires cs <= SEPARATORS && c in SEPARATORS - cs && '%' in cs + {c}
    ensures ReplaceText(Coded(cs + {c}, s), Code(c), [c]) == Coded(cs, s)
  {
    hide Code, ReplaceText;
    if s == "" {
      NothingToReplace(Code(c), [c]);
    } else {
      DecodeOne(cs, c, s[1..]);
      var rest := Coded(cs + {c}, s[1..]);
      if s[0] == c {
        DecodeHit(rest, c);
      } else if s[0] in cs {
        DecodeSkips(s[0], rest, c);
      } else {
        DecodeCopies(s[0], rest, c);
      }
    }
  }

  lemma NothingToReplace(pat: string, sub: string)
    requires pat != ""
    ensures ReplaceText("", pat, sub) == ""
  {
  }

  lemma {:induction false} CodedNothing(s: string)
    ensures Coded({}, s) == s
  {
    if s != "" { CodedNothing(s[1..]); }
  }

  /** `unescape_token` is the exact inverse of `escape_token`, on every string. */
  lemma UnescapeEscape(s: string)
    ensures UnescapeToken(EscapeToken(s)) == s
  {
    EscapeCodes(s);
    var a, b, c := {'%', ';', '='}, {'%', ';'}, {'%'};
    assert a + {'|'} == SEPARATORS && b + {'='} == a && c + {';'} == b && {} + {'%'} == c;
    DecodeOne(a, '|', s);
    DecodeOne(b, '=', s);
    DecodeOne(c, ';', s);
    DecodeOne({}, '%', s);
    CodedNothing(s);
  }

  lemma EscapedIsSeparatorFree(s: string, c: char)
    requires c in {';', '=', '|'}
    ensures c !in EscapeToken(s)
  {
    EscapeCodes(s);
    CodedIsSeparatorFree(s, c);
  }

  lemma {:induction false} CodedIsSeparatorFree(s: string, c: char)
    requires c in {';', '=', '|'}
    ensures c !in Coded(SEPARATORS, s)
  {
    if s != "" { CodedIsSeparatorFree(s[1..], c); }
  }

  lemma EscapeInjective(s: string, t: string)
    requires EscapeToken(s) == EscapeToken(t)
    ensures s == t
  {
    UnescapeEscape(s);
    UnescapeEscape(t);
  }

  // ---- one value --------------------------------------------------------------------------------

  function FormatInt(a: int): string {
    var m: int := a;
    if m < 0 then "-" + Numeral(-m, 10) else Numeral(m, 10)
  }

  function SignedValue(negative: bool, digits: string): Option<int64> {
    if !IsNumeral(digits, 10) then None
    else
      var m: int := NumeralValue(digits, 10);
      var n := if negative then -m else m;
      if -0x8000_0000_0000_0000 <= n < 0x8000_0000_0000_0000 then Some(n) else None
  }

  /** An optional sign and at least one digit, within 64 bits. */
  function ParseInt(s: string): Option<int64> {
    if s != "" && (s[0] == '-' || s[0] == '+') then SignedValue(s[0] == '-', s[1..]) else SignedValue(false, s)
  }

  function ParseHex(s: string): Option<uint64> {
    var digits := if s != "" && s[0] == '+' then s[1..] else s;
    if IsNumeral(digits, 16) && NumeralValue(digits, 16) < 0x1_0000_0000_0000_0000
    then Some(NumeralValue(digits, 16)) else None
  }

  function ValueToken(v: ParamValue): string {
    match v
    case Int(a) => "i" + FormatInt(a)
    case Float(b) => "f" + Padded(b, 16, 16)
    case Bool(b) => "b" + if b then "true" else "false"
    case Str(t) => "s" + EscapeToken(t)
  }

  function ValueFromToken(tok: string): Option<ParamValue> {
    if tok == "" then None
    else
      var rest := tok[1..];
      match tok[0]
      case 'i' => (match ParseInt(rest) case Some(n) => Some(Int(n)) case None => None)
      case 'f' => (match ParseHex(rest) case Some(b) => Some(Float(FloatKey(b))) case None => None)
      case 'b' =>
        if rest == "true" then Some(Bool(true)) else if rest == "false" then Some(Bool(false)) else None
      case 's' => Some(Str(UnescapeToken(rest)))
      case _ => None
  }

  lemma SignedValueOf(a: int64, m: nat)
    requires m as int == a || m + a as int == 0
    ensures SignedValue(a < 0, Numeral(m, 10)) == Some(a)
  {
    NumeralRoundTrip(m, 10);
  }

  lemma IntRoundTrip(a: int64)
    ensures ParseInt(FormatInt(a)) == Some(a)
  {
    var n: int := a;
    var m := if n < 0 then -n else n;
    var digits := Numeral(m, 10);
    SignedValueOf(a, m);
    assert digits[0] in DIGITS;
    assert n < 0 ==> FormatInt(a)[1..] == digits;
  }

  lemma HexRoundTrip(b: uint64)
    ensures ParseHex(Padded(b, 16, 16)) == Some(b)
  {
    var s := Padded(b, 16, 16);
    assert s[0] in DIGITS;
    PaddedRoundTrip(b, 16, 16);
  }

  lemma ValueRoundTrip(v: ParamValue)
    ensures ValueFromToken(ValueToken(v)) == Some(v)
  {
    hide EscapeToken, UnescapeToken, FormatInt, Padded;
    var rest := ValueToken(v)[1..];
    match v
    case Int(a) => assert rest == FormatInt(a); IntRoundTrip(a);
    case Float(b) => assert rest == Padded(b, 16, 16); HexRoundTrip(b);
    case Bool(b) => assert rest == if b then "true" else "false";
    case Str(t) => assert rest == EscapeToken(t); UnescapeEscape(t);
  }

  lemma ValueIsSeparatorFree(v: ParamValue, c: char)
    requires c in {';', '=', '|'}
    ensures c !in ValueToken(v)
  {
    hide EscapeToken, Padded, Numeral;
    match v
    case Int(a) => assert c !in FormatInt(a);
    case Float(b) => assert c !in Padded(b, 16, 16);
    case Bool(b) => assert c !in "true" && c !in "false";
    case Str(t) => EscapedIsSeparatorFree(t, c);
  }

  // ---- a map ------------------------------------------------------------------------------------

  type Entry = (string, ParamValue)

  /** Lexicographic by code point, as the source compares strings. */
  predicate StringLeq(a: string, b: string) {
    a == "" || (b != "" && (a[0] < b[0] || (a[0] == b[0] && StringLeq(a[1..], b[1..]))))
  }

  lemma StringLeqTotal(a: string, b: string)
    ensures StringLeq(a, b) || StringLeq(b, a)
  {
  }

  predicate SortedByKey(es: seq<Entry>) {
    forall k :: 0 < k < |es| ==> StringLeq(es[k - 1].0, es[k].0)
  }

  type ParamMap = es: seq<Entry> | SortedByKey(es)

  /** `e` placed after every entry whose key is not greater. */
  function InsertEntry(es: seq<Entry>, e: Entry): (r: seq<Entry>)
    requires SortedByKey(es)
    ensures SortedByKey(r) && |r| == |es| + 1
    ensures r[|es|] == e || (es != [] && r[|es|] == es[|es| - 1])
  {
    if es == [] || StringLeq(es[|es| - 1].0, e.0) then es + [e]
    else
      StringLeqTotal(es[|es| - 1].0, e.0);
      InsertEntry(es[..|es| - 1], e) + [es[|es| - 1]]
  }

  /** The stable sort by key that `ParamMap::new` performs. */
  function NewMap(es: seq<Entry>): ParamMap {
    if es == [] then [] else InsertEntry(NewMap(es[..|es| - 1]), es[|es| - 1])
  }

  /** The entries of one key, in order. */
  function Under(es: seq<Entry>, key: string): (r: seq<Entry>) {
    if es == [] then [] else Under(es[..|es| - 1], key) + if es[|es| - 1].0 == key then [es[|es| - 1]] else []
  }

  lemma StringLeqSame(a: string)
    ensures StringLeq(a, a)
  {
  }

  lemma UnderMore(es: seq<Entry>, e: Entry, key: string)
    ensures Under(es + [e], key) == Under(es, key) + if e.0 == key then [e] else []
  {
    assert (es + [e])[..|es|] == es;
  }

  lemma {:induction false} InsertIsStable(es: seq<Entry>, e: Entry, key: string)
    requires SortedByKey(es)
    ensures Under(InsertEntry(es, e), key) == Under(es, key) + if e.0 == key then [e] else []
  {
    hide StringLeq, Under;
    UnderMore(es, e, key);
    if es != [] && !StringLeq(es[|es| - 1].0, e.0) {
      var m := |es| - 1;
      var last := es[m];
      StringLeqTotal(last.0, e.0);
      StringLeqSame(e.0);
      InsertIsStable(es[..m], e, key);
      UnderMore(InsertEntry(es[..m], e), last, key);
      UnderMore(es[..m], last, key);
      assert es == es[..m] + [last];
    }
  }

  lemma {:induction false} InsertKeepsAll(es: seq<Entry>, e: Entry)
    requires SortedByKey(es)
    ensures multiset(InsertEntry(es, e)) == multiset(es) + multiset{e}
  {
    hide StringLeq;
    if es != [] && !StringLeq(es[|es| - 1].0, e.0) {
      var m := |es| - 1;
      StringLeqTotal(es[m].0, e.0);
      InsertKeepsAll(es[..m], e);
      assert es == es[..m] + [es[m]];
    }
  }

  /** Making a map sorts its entries by key, keeps every one of them, and keeps those of one key in their order. */
  lemma {:induction false} NewMapIsStableSort(es: seq<Entry>, key: string)
    ensures Under(NewMap(es), key) == Under(es, key)
    ensures multiset(NewMap(es)) == multiset(es)
    ensures forall k :: 0 < k < |NewMap(es)| ==> StringLeq(NewMap(es)[k - 1].0, NewMap(es)[k].0)
  {
    hide StringLeq, InsertEntry, Under;
    if es == [] {
      assert NewMap(es) == es;
    } else {
      var m := |es| - 1;
      NewMapIsStableSort(es[..m], key);
      InsertIsStable(NewMap(es[..m]), es[m], key);
      InsertKeepsAll(NewMap(es[..m]), es[m]);
      UnderMore(es[..m], es[m], key);
      assert es == es[..m] + [es[m]];
    }
  }

  lemma {:induction false} NewMapOfSorted(es: ParamMap)
    ensures NewMap(es) == es
  {
    if es != [] {
      NewMapOfSorted(es[..|es| - 1]);
      assert es == es[..|es| - 1] + [es[|es| - 1]];
    }
  }

  function EntryToken(e: Entry): string {
    EscapeToken(e.0) + "=" + ValueToken(e.1)
  }

  function MapToken(p: ParamMap): string {
    Join(Map(EntryToken, p), ';')
  }

  /** Nothing when a part has no `=` or no readable value. */
  function EntriesFromParts(parts: seq<string>): Option<seq<Entry>> {
    if parts == [] then Some([])
    else
      var (k, v) := Cut(parts[0], '=');
      match v
      case None => None
      case Some(tok) =>
        match (ValueFromToken(tok), EntriesFromParts(parts[1..]))
        case (Some(value), Some(rest)) => Some([(UnescapeToken(k), value)] + rest)
        case _ => None
  }

  function MapFromToken(s: string): Option<ParamMap> {
    if s == "" then Some(NewMap([]))
    else
      match EntriesFromParts(Split(s, ';'))
      case Some(es) => Some(NewMap(es))
      case None => None
  }

  lemma {:induction false} EntriesRoundTrip(es: seq<Entry>)
    ensures EntriesFromParts(Map(EntryToken, es)) == Some(es)
  {
    if es != [] {
      var e := es[0];
      assert Map(EntryToken, es)[1..] == Map(EntryToken, es[1..]);
      EntriesRoundTrip(es[1..]);
      EscapedIsSeparatorFree(e.0, '=');
      CutAt(EscapeToken(e.0), '=', ValueToken(e.1));
      UnescapeEscape(e.0);
      ValueRoundTrip(e.1);
      assert es == [e] + es[1..];
    }
  }

  lemma EntryIsSeparatorFree(e: Entry, c: char)
    requires c in {';', '|'}
    ensures c !in EntryToken(e)
  {
    EscapedIsSeparatorFree(e.0, c);
    ValueIsSeparatorFree(e.1, c);
  }

  lemma {:induction false} EmptyMapTokenIsEmptyMap(p: ParamMap)
    ensures MapToken(p) == "" <==> p == []
  {
    if p != [] {
      assert '=' in EntryToken(p[0]);
      var parts := Map(EntryToken, p);
      assert |parts| > 1 ==> Join(parts, ';') == parts[0] + [';'] + Join(parts[1..], ';');
    }
  }

  /** Decoding a map's token gives the map back, whatever its keys and strings hold. */
  lemma MapRoundTrip(p: ParamMap)
    ensures MapFromToken(MapToken(p)) == Some(p)
  {
    EmptyMapTokenIsEmptyMap(p);
    if p != [] {
      forall k | 0 <= k < |p| ensures ';' !in Map(EntryToken, p)[k] { EntryIsSeparatorFree(p[k], ';'); }
      SplitJoin(Map(EntryToken, p), ';');
      EntriesRoundTrip(p);
      NewMapOfSorted(p);
    }
  }

  lemma MapTokenInjective(p: ParamMap, q: ParamMap)
    requires MapToken(p) == MapToken(q)
    ensures p == q
  {
    MapRoundTrip(p);
    MapRoundTrip(q);
  }

  lemma MapTokenOmitsBar(p: ParamMap)
    ensures '|' !in MapToken(p)
  {
    forall k | 0 <= k < |p| ensures '|' !in Map(EntryToken, p)[k] { EntryIsSeparatorFree(p[k], '|'); }
    JoinOmits(Map(EntryToken, p), ';', '|');
  }
}
