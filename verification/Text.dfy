/** Plain string operations the token codecs are written with. */
module Text {
  import opened Collections

  /** Every occurrence of the character `c` replaced by `sub`. */
  function ReplaceChar(s: string, c: char, sub: string): string {
    if s == "" then ""
    else (if s[0] == c then sub else [s[0]]) + ReplaceChar(s[1..], c, sub)
  }

  /** Every leftmost, non-overlapping occurrence of `pat` replaced by `sub`. */
  function ReplaceText(s: string, pat: string, sub: string): string
    requires pat != ""
  {
    if s == "" then ""
    else if pat <= s then sub + ReplaceText(s[|pat|..], pat, sub)
    else [s[0]] + ReplaceText(s[1..], pat, sub)
  }

  lemma {:induction false} ReplaceCharSkips(u: string, s: string, c: char, sub: string)
    requires c !in u
    ensures ReplaceChar(u + s, c, sub) == u + ReplaceChar(s, c, sub)
  {
    if u == "" {
      assert u + s == s;
    } else {
      assert (u + s)[1..] == u[1..] + s;
      ReplaceCharSkips(u[1..], s, c, sub);
    }
  }

  /** Characters a pattern cannot start at are copied. */
  lemma {:induction false} ReplaceTextSkips(u: string, s: string, pat: string, sub: string)
    requires pat != "" && pat[0] !in u
    ensures ReplaceText(u + s, pat, sub) == u + ReplaceText(s, pat, sub)
  {
    if u == "" {
      assert u + s == s;
    } else {
      assert (u + s)[1..] == u[1..] + s;
      ReplaceTextSkips(u[1..], s, pat, sub);
    }
  }

  /** `s` cut at the first `sep`: what precedes it, and what follows it if it is there. */
  function Cut(s: string, sep: char): (r: (string, Option<string>)) {
    if s == "" then ("", None)
    else if s[0] == sep then ("", Some(s[1..]))
    else var (head, rest) := Cut(s[1..], sep); ([s[0]] + head, rest)
  }

  lemma {:induction false} CutAt(a: string, sep: char, b: string)
    requires sep !in a
    ensures Cut(a + [sep] + b, sep) == (a, Some(b))
  {
    var s := a + [sep] + b;
    if a == "" {
      assert s[1..] == b;
    } else {
      assert s[1..] == a[1..] + [sep] + b;
      CutAt(a[1..], sep, b);
      assert a == [a[0]] + a[1..];
    }
  }

  lemma {:induction false} CutNone(a: string, sep: char)
    requires sep !in a
    ensures Cut(a, sep) == (a, None)
  {
    if a != "" {
      CutNone(a[1..], sep);
      assert a == [a[0]] + a[1..];
    }
  }

  lemma {:induction false} CutShrinks(s: string, sep: char)
    ensures Cut(s, sep).1.Some? ==> |Cut(s, sep).1.value| < |s|
  {
    if s != "" && s[0] != sep { CutShrinks(s[1..], sep); }
  }

  /** The parts of `s` between its `sep`s; one empty part for the empty string. */
  function Split(s: string, sep: char): (parts: seq<string>)
    decreases |s|
  {
    CutShrinks(s, sep);
    var (head, rest) := Cut(s, sep);
    match rest
    case None => [head]
    case Some(tail) => [head] + Split(tail, sep)
  }

  function Join(parts: seq<string>, sep: char): string {
    if parts == [] then ""
    else if |parts| == 1 then parts[0]
    else parts[0] + [sep] + Join(parts[1..], sep)
  }

  lemma {:induction false} SplitJoin(parts: seq<string>, sep: char)
    requires parts != []
    requires forall k :: 0 <= k < |parts| ==> sep !in parts[k]
    ensures Split(Join(parts, sep), sep) == parts
  {
    if |parts| == 1 {
      CutNone(parts[0], sep);
    } else {
      SplitJoin(parts[1..], sep);
      CutAt(parts[0], sep, Join(parts[1..], sep));
    }
  }

  lemma {:induction false} JoinOmits(parts: seq<string>, sep: char, c: char)
    requires c != sep
    requires forall k :: 0 <= k < |parts| ==> c !in parts[k]
    ensures c !in Join(parts, sep)
  {
    if |parts| > 1 { JoinOmits(parts[1..], sep, c); }
  }

  // Numbers in base `b`, most significant digit first.

  const DIGITS := "0123456789abcdef"

  function DigitOf(c: char): (d: Option<nat>) {
    if '0' <= c <= '9' then Some(c as int - '0' as int)
    else if 'a' <= c <= 'f' then Some(c as int - 'a' as int + 10)
    else if 'A' <= c <= 'F' then Some(c as int - 'A' as int + 10)
    else None
  }

  predicate IsNumeral(s: string, b: nat) {
    s != "" && forall k :: 0 <= k < |s| ==> DigitOf(s[k]).Some? && DigitOf(s[k]).value < b
  }

  lemma DigitRoundTrip(d: nat)
    requires d < 16
    ensures DigitOf(DIGITS[d]) == Some(d)
  {
    assert d < 10 ==> DIGITS[d] == '0' + d as char;
    assert d >= 10 ==> DIGITS[d] == 'a' + (d - 10) as char;
  }

  function Numeral(n: nat, b: nat): (s: string)
    requires b == 10 || b == 16
    ensures IsNumeral(s, b)
    ensures forall c <- s :: c in DIGITS
  {
    DigitRoundTrip(n % b);
    (if n < b then "" else Numeral(n / b, b)) + [DIGITS[n % b]]
  }

  function NumeralValue(s: string, b: nat): nat
    requires s == "" || IsNumeral(s, b)
  {
    if s == "" then 0 else NumeralValue(s[..|s| - 1], b) * b + DigitOf(s[|s| - 1]).value
  }

  lemma {:induction false} NumeralRoundTrip(n: nat, b: nat)
    requires b == 10 || b == 16
    ensures NumeralValue(Numeral(n, b), b) == n
  {
    var s := Numeral(n, b);
    var high := if n < b then "" else Numeral(n / b, b);
    DigitRoundTrip(n % b);
    assert s == high + [DIGITS[n % b]] && s[..|s| - 1] == high;
    var q := n / b;
    assert NumeralValue(high, b) == q by {
      if n >= b { NumeralRoundTrip(q, b); } else { DivMod(n, b); }
    }
    assert NumeralValue(s, b) == q * b + n % b;
    DivMod(n, b);
  }

  lemma DivMod(n: nat, b: nat)
    requires b > 0
    ensures n == (n / b) * b + n % b
    ensures n < b ==> n / b == 0
  {
  }

  /** `Numeral` left-padded with zeros to `width`. */
  function Padded(n: nat, b: nat, width: nat): (s: string)
    requires b == 10 || b == 16
    ensures IsNumeral(s, b)
    ensures forall c <- s :: c in DIGITS
  {
    var s := Numeral(n, b);
    (if |s| < width then seq(width - |s|, _ => '0') else "") + s
  }

  lemma {:induction false} LeadingZeros(k: nat, s: string, b: nat)
    requires (b == 10 || b == 16) && IsNumeral(s, b)
    ensures IsNumeral(seq(k, _ => '0') + s, b)
    ensures NumeralValue(seq(k, _ => '0') + s, b) == NumeralValue(s, b)
    decreases |s|
  {
    var t := seq(k, _ => '0') + s;
    var cut := t[..|t| - 1];
    assert cut == seq(k, _ => '0') + s[..|s| - 1];
    if |s| == 1 {
      Zeros(cut, b);
    } else {
      LeadingZeros(k, s[..|s| - 1], b);
    }
  }

  lemma {:induction false} Zeros(z: string, b: nat)
    requires (b == 10 || b == 16) && forall i :: 0 <= i < |z| ==> z[i] == '0'
    ensures (z == "" || IsNumeral(z, b)) && NumeralValue(z, b) == 0
  {
    if z != "" { Zeros(z[..|z| - 1], b); }
  }

  lemma PaddedRoundTrip(n: nat, b: nat, width: nat)
    requires b == 10 || b == 16
    ensures NumeralValue(Padded(n, b, width), b) == n
  {
    NumeralRoundTrip(n, b);
    var s := Numeral(n, b);
    if |s| < width { LeadingZeros(width - |s|, s, b); } else { assert "" + s == s; }
  }
}
