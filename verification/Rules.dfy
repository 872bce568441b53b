/** What the shared rules are rules about, told on recorded nodes (src/optimizer/engine.rs). */
module Rules {
  import opened Collections
  import opened Params
  import opened Nodes
  import opened Graph
  import Text

  // ---- the identity rules ------------------------------------------------------------------------

  lemma PlainEscape(s: string)
    requires forall k :: 0 <= k < |s| ==> s[k] !in SEPARATORS
    ensures EscapeToken(s) == s
  {
    EscapeCodes(s);
    PlainIsUncoded(SEPARATORS, s);
  }

  lemma LastDigit(n: nat, d: nat)
    requires d < 16
    ensures Text.Numeral(n * 16 + d, 16) == (if n == 0 then "" else Text.Numeral(n, 16)) + [Text.DIGITS[d]]
  {
    assert (n * 16 + d) / 16 == n && (n * 16 + d) % 16 == d;
  }

  /** A numeral times a power of sixteen. */
  function Scaled(n: nat, zeros: nat): (m: nat)
    ensures n > 0 ==> m > 0
  {
    if zeros == 0 then n else Scaled(n, zeros - 1) * 16
  }

  lemma {:induction false} ScaledNumeral(n: nat, zeros: nat)
    requires n > 0
    ensures Text.Numeral(Scaled(n, zeros), 16) == Text.Numeral(n, 16) + seq(zeros, _ => '0')
  {
    hide Text.Numeral;
    if zeros > 0 {
      ScaledNumeral(n, zeros - 1);
      LastDigit(Scaled(n, zeros - 1), 0);
      assert seq(zeros, _ => '0') == seq(zeros - 1, _ => '0') + ['0'];
    }
  }

  lemma BitsOfZero(bits: nat)
    requires bits == 0
    ensures Text.Padded(bits, 16, 16) == "0000000000000000"
  {
    hide Text.Numeral;
    LastDigit(0, 0);
  }

  /** The digits of 1.0's bits: its exponent's, and zeros. */
  lemma BitsOfOne(bits: nat)
    requires bits == 0x3ff0_0000_0000_0000
    ensures Text.Padded(bits, 16, 16) == "3ff0000000000000"
  {
    hide Text.Numeral;
    LastDigit(0, 3);
    LastDigit(3, 15);
    LastDigit(0x3f, 15);
    ScaledNumeral(0x3ff, 13);
    assert Scaled(0x3ff, 13) == bits;
    assert Text.Numeral(bits, 16) == "3ff0000000000000";
  }

  /** The op adds 0.0, or multiplies by 1.0, on either side. */
  predicate NeutralScalar(key: NodeKey) {
    && key.Op? && |key.params| == 2 && key.params[0].0 == "scalar" && key.params[1].0 == "side"
    && (key.params[1].1 == Str("l") || key.params[1].1 == Str("r"))
    && ((key.name == "add" && key.params[0].1 == Float(0))
        || (key.name == "mul" && key.params[0].1 == Float(0x3ff0_0000_0000_0000)))
  }

  lemma ScalarToken(key: NodeKey)
    requires NeutralScalar(key)
    ensures key.Token() == "op|" + key.name + "|scalar=f" + Text.Padded(key.params[0].1.bits, 16, 16) + ";side=s" + key.params[1].1.text
  {
    hide EscapeToken, Text.Padded;
    var side := key.params[1].1.text;
    var digits := Text.Padded(key.params[0].1.bits, 16, 16);
    PlainEscape(key.name);
    PlainEscape(side);
    PlainEscape(key.params[0].0);
    PlainEscape(key.params[1].0);
    var first, second := "scalar" + "=" + ("f" + digits), "side" + "=" + ("s" + side);
    var fields := Map(EntryToken, key.params);
    assert fields[0] == first && fields[1] == second;
    assert fields == [first, second];
    TwoJoined(first, second);
    assert key.Token() == "op|" + key.name + "|" + (first + [';'] + second);
  }

  lemma TwoJoined(a: string, b: string)
    ensures Text.Join([a, b], ';') == a + [';'] + b
  {
    assert [a, b][1..] == [b];
  }

  /** The text of a neutral op's token. */
  function NeutralText(add: bool, side: string): string {
    "op|" + (if add then "add" else "mul") + "|scalar=f" + (if add then "0000000000000000" else "3ff0000000000000") + ";side=s" + side
  }

  lemma AddText(side: string)
    requires side == "l" || side == "r"
    ensures NeutralText(true, side) == if side == "r" then IDENTITY_TOKENS[0] else IDENTITY_TOKENS[1]
  {
    assert "op|" + "add" == "op|add";
    assert "op|add" + "|scalar=f" == "op|add|scalar=f";
    assert "op|add|scalar=f" + "0000000000000000" == "op|add|scalar=f0000000000000000";
    assert "op|add|scalar=f0000000000000000" + ";side=s" == "op|add|scalar=f0000000000000000;side=s";
    if side == "r" {
      assert "op|add|scalar=f0000000000000000;side=s" + "r" == "op|add|scalar=f0000000000000000;side=sr";
    } else {
      assert "op|add|scalar=f0000000000000000;side=s" + "l" == "op|add|scalar=f0000000000000000;side=sl";
    }
  }

  lemma MulText(side: string)
    requires side == "l" || side == "r"
    ensures NeutralText(false, side) == if side == "r" then IDENTITY_TOKENS[2] else IDENTITY_TOKENS[3]
  {
    assert "op|" + "mul" == "op|mul";
    assert "op|mul" + "|scalar=f" == "op|mul|scalar=f";
    assert "op|mul|scalar=f" + "3ff0000000000000" == "op|mul|scalar=f3ff0000000000000";
    assert "op|mul|scalar=f3ff0000000000000" + ";side=s" == "op|mul|scalar=f3ff0000000000000;side=s";
    if side == "r" {
      assert "op|mul|scalar=f3ff0000000000000;side=s" + "r" == "op|mul|scalar=f3ff0000000000000;side=sr";
    } else {
      assert "op|mul|scalar=f3ff0000000000000;side=s" + "l" == "op|mul|scalar=f3ff0000000000000;side=sl";
    }
  }

  lemma IdentityText(token: string) returns (add: bool, side: string)
    requires IsIdentity(token)
    ensures (side == "l" || side == "r") && token == NeutralText(add, side)
  {
    hide NeutralText;
    AddText("l");
    AddText("r");
    MulText("l");
    MulText("r");
    add := token == IDENTITY_TOKENS[0] || token == IDENTITY_TOKENS[1];
    side := if token == IDENTITY_TOKENS[0] || token == IDENTITY_TOKENS[2] then "r" else "l";
  }

  lemma NeutralTexts(add: bool, side: string)
    requires side == "l" || side == "r"
    ensures IsIdentity(NeutralText(add, side))
  {
    hide NeutralText;
    if add { AddText(side); } else { MulText(side); }
  }

  lemma NeutralToken(key: NodeKey)
    requires NeutralScalar(key)
    ensures key.Token() == NeutralText(key.name == "add", key.params[1].1.text)
  {
    hide NodeKey.Token, Text.Padded;
    ScalarToken(key);
    if key.name == "add" { BitsOfZero(key.params[0].1.bits); } else { BitsOfOne(key.params[0].1.bits); }
  }

  function ScalarOp(name: string, scalar: FloatBits, side: string): (key: NodeKey) {
    assert StringLeq("calar", "ide");
    Op(name, [("scalar", Float(scalar)), ("side", Str(side))], [])
  }

  /** Every identity token is some neutral scalar op's. */
  lemma IdentityHasOp(token: string) returns (key: NodeKey)
    requires IsIdentity(token)
    ensures NeutralScalar(key) && key.Token() == token
  {
    hide NodeKey.Token, Text.Padded, NeutralText, IsIdentity;
    var add, side := IdentityText(token);
    key := if add then ScalarOp("add", 0, side) else ScalarOp("mul", 0x3ff0_0000_0000_0000, side);
    NeutralToken(key);
  }

  /** The identity rules apply to exactly the ops that add 0.0, or multiply by 1.0, on either side. */
  lemma IdentityIsNeutralScalar(key: NodeKey)
    ensures IsIdentity(key.Token()) <==>
      (&& key.Op? && |key.params| == 2 && key.params[0].0 == "scalar" && key.params[1].0 == "side"
       && (key.params[1].1 == Str("l") || key.params[1].1 == Str("r"))
       && ((key.name == "add" && key.params[0].1 == Float(0))
           || (key.name == "mul" && key.params[0].1 == Float(0x3ff0_0000_0000_0000))))
  {
    hide NodeKey.Token, IsIdentity, NeutralText;
    if IsIdentity(key.Token()) {
      var neutral := IdentityHasOp(key.Token());
      TokenIsOperator(key, neutral);
    }
    if NeutralScalar(key) {
      NeutralToken(key);
      NeutralTexts(key.name == "add", key.params[1].1.text);
    }
  }

  // ---- the commute rules -------------------------------------------------------------------------

  /** The commute rules apply to exactly the parameterless ops of eight names. */
  lemma CommutingIsNamed(key: NodeKey)
    ensures Commutes(key.Token()) <==>
      (key.Op? && key.params == []
       && (key.name == "add" || key.name == "mul" || key.name == "and" || key.name == "or"
           || key.name == "eq" || key.name == "ne" || key.name == "maximum" || key.name == "minimum"))
  {
    hide NodeKey.Token;
    if Commutes(key.Token()) { CommutingIsPlain(key); }
    if key.Op? && key.params == [] && key.name in SYMMETRIC_OPS {
      SymmetricCommutes(key.WithInputs([0, 0]));
      SameOperatorSameToken(key, [0, 0]);
    }
  }

  /** And the reducer's own test asks for two inputs besides. */
  lemma SymmetricIsNamed(key: NodeKey)
    ensures IsSymmetric(key) <==>
      (key.Op? && |key.inputs| == 2 && key.params == []
       && (key.name == "add" || key.name == "mul" || key.name == "and" || key.name == "or"
           || key.name == "eq" || key.name == "ne" || key.name == "maximum" || key.name == "minimum"))
  {
    hide NodeKey.Token;
    SymmetricIsCommuting(key);
    CommutingIsNamed(key);
  }
}
