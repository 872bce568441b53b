/** The token text, told in its own characters: graphs written by one version are matched by another on it
    (src/param.rs and src/node.rs). */
module Tokens {
  import opened Collections
  import opened Params
  import opened Nodes
  import opened Graph
  import Text

  /** A separator is escaped as a percent sign and the two hexadecimal digits of its code, in capitals (section 2.1 of
      RFC 3986). */
  lemma CodeIsPercentEncoding(c: char)
    requires c in SEPARATORS
    ensures Code(c)[0] == '%' && Text.IsNumeral(Code(c)[1..], 16) && Text.NumeralValue(Code(c)[1..], 16) == c as int
    ensures |Code(c)| == 3 && forall d <- Code(c) :: !('a' <= d <= 'f')
    ensures c in {'%', ';', '=', '|'}
  {
    var digits := Code(c)[1..];
    assert |digits| == 2 && digits[..1][..0] == "";
    assert Text.NumeralValue(digits[..1], 16) == Text.NumeralValue(digits[..1][..0], 16) * 16 + Text.DigitOf(digits[0]).value;
  }

  /** Escaping one character. */
  lemma EscapedChar(c: char)
    ensures EscapeToken([c]) == if c in {'%', ';', '=', '|'} then Code(c) else [c]
  {
    EscapeCodes([c]);
    assert [c][1..] == "";
    assert Coded(SEPARATORS, "") == "";
  }

  /** A value's token starts with its kind's letter. */
  lemma KindLetter(v: ParamValue)
    ensures ValueToken(v) != ""
    ensures ValueToken(v)[0] == match v case Int(_) => 'i' case Float(_) => 'f' case Bool(_) => 'b' case Str(_) => 's'
  {
    hide EscapeToken, FormatInt, Text.Padded;
  }

  /** After it, an integer stands in decimal with a minus sign if it is negative, a float's bits in sixteen
      hexadecimal digits, a boolean in words, and a text escaped. */
  lemma ValueText(v: ParamValue)
    ensures ValueToken(v) != ""
    ensures var rest := ValueToken(v)[1..];
      match v
      case Int(a) =>
        if a < 0
        then rest != "" && rest[0] == '-' && Text.IsNumeral(rest[1..], 10) && a as int + Text.NumeralValue(rest[1..], 10) == 0
        else Text.IsNumeral(rest, 10) && Text.NumeralValue(rest, 10) == a as int
      case Float(b) => |rest| == 16 && Text.IsNumeral(rest, 16) && Text.NumeralValue(rest, 16) == b as int
      case Bool(b) => rest == if b then "true" else "false"
      case Str(t) => UnescapeToken(rest) == t && forall c <- rest :: c !in {';', '=', '|'}
  {
    hide EscapeToken, UnescapeToken, Text.Numeral, Text.NumeralValue;
    var rest := ValueToken(v)[1..];
    match v
    case Int(a) =>
      var n: int := a;
      var digits := Text.Numeral(if n < 0 then -n else n, 10);
      Text.NumeralRoundTrip(if n < 0 then -n else n, 10);
      assert rest == if n < 0 then "-" + digits else digits;
      assert n < 0 ==> rest[1..] == digits;
    case Float(b) =>
      assert rest == Text.Padded(b, 16, 16);
      Text.PaddedRoundTrip(b, 16, 16);
      assert Sixteens(4) == 0x1_0000 && Sixteens(8) == 0x1_0000_0000 && Sixteens(12) == 0x1_0000_0000_0000;
      assert Sixteens(16) == 0x1_0000_0000_0000_0000;
      FewDigits(b, 16);
    case Bool(b) =>
      assert rest == if b then "true" else "false";
    case Str(t) =>
      assert rest == EscapeToken(t);
      UnescapeEscape(t);
      EscapedIsSeparatorFree(t, ';');
      EscapedIsSeparatorFree(t, '=');
      EscapedIsSeparatorFree(t, '|');
  }

  /** `16` to the power of `width`. */
  function Sixteens(width: nat): nat {
    if width == 0 then 1 else 16 * Sixteens(width - 1)
  }

  lemma {:induction false} FewDigits(n: nat, width: nat)
    requires width > 0 && n < Sixteens(width)
    ensures |Text.Numeral(n, 16)| <= width
  {
    if n >= 16 {
      FewDigits(n / 16, width - 1);
    }
  }

  /** A node's token is its kind's word, alone or before a bar. */
  lemma KindWord(key: NodeKey)
    ensures var word := match key
        case Source(_, _) => "src"
        case Op(_, _, _) => "op"
        case Reduction(_, _, _) => "red"
        case External(_, _, _) => "ext"
        case Stage(_, _) => "stage"
        case Exchange(_, _) => "exch"
        case Join(_, _) => "join";
      key.Token() == word || word + "|" <= key.Token()
  {
    hide NodeKey.Token, EscapeToken, MapToken, MemberToken;
    TokenIsFields(key);
    var fs := Fields(key);
    if |fs| == 1 {
      assert Text.Join(fs, '|') == fs[0];
    } else {
      assert Text.Join(fs, '|') == fs[0] + ['|'] + Text.Join(fs[1..], '|');
      assert fs[0] + ['|'] <= Text.Join(fs, '|');
    }
  }

  /** The token of a stage of one member that reads one slot: the member's token escaped, and its references. */
  lemma StageExample(ids: seq<NodeId>, member: StageOp)
    requires member.token == "op|inc" && member.refs == [Input(0)]
    ensures Stage(ids, [member]).Token() == "stage|op%7Cinc=i0"
  {
    hide EscapeToken;
    EscapedPieces(member.token);
    var digits := Text.Numeral(member.refs[0].slot, 10);
    assert digits == "0";
    OneJoined("i" + digits, ',');
    assert Map(StageRefToken, member.refs) == ["i" + digits];
    var token := "op%7Cinc" + "=" + ("i" + digits);
    assert MemberToken(member) == token;
    assert token == "op%7Cinc=i0";
    assert Map(MemberToken, [member]) == [token];
    OneJoined(token, ';');
    assert "stage|" + token == "stage|op%7Cinc=i0";
  }

  lemma OneJoined(part: string, sep: char)
    ensures Text.Join([part], sep) == part
  {
  }

  lemma EscapedPieces(token: string)
    requires token == "op|inc"
    ensures EscapeToken(token) == "op%7Cinc"
  {
    EscapeCodes(token);
    var rest := token[3..];
    assert rest == "inc";
    PlainIsUncoded(SEPARATORS, rest);
    assert token == ['o'] + (['p'] + (['|'] + rest));
    CodedStep('|', rest);
    CodedStep('p', ['|'] + rest);
    CodedStep('o', ['p'] + (['|'] + rest));
  }

  lemma CodedStep(c: char, s: string)
    ensures Coded(SEPARATORS, [c] + s) == (if c in SEPARATORS then Code(c) else [c]) + Coded(SEPARATORS, s)
  {
    assert ([c] + s)[1..] == s;
  }
}
