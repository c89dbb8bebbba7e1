/** The value of integer literals, by the characters of their texts. */
module LiteralTexts {
  import opened Prelude
  import opened Ast
  import opened Decimal

  const DECIMAL: string := "0123456789"
  const LOWER: string := "abcdef"
  const UPPER: string := "ABCDEF"

  /** The character writes the digit. */
  predicate Writes(c: char, d: nat) {
    if d < 10 then c == DECIMAL[d] else d < 16 && (c == LOWER[d - 10] || c == UPPER[d - 10])
  }

  /** The text writes the digits, most significant first. */
  predicate Spelled(text: string, digits: seq<nat>, radix: nat) {
    && |text| == |digits| && digits != []
    && forall k :: 0 <= k < |digits| ==> digits[k] < radix && Writes(text[k], digits[k])
  }

  function Power(radix: nat, n: nat): nat { if n == 0 then 1 else radix * Power(radix, n - 1) }

  /** Each digit times the power of its place. */
  function PlaceValue(digits: seq<nat>, radix: nat): nat {
    if digits == [] then 0 else digits[0] * Power(radix, |digits| - 1) + PlaceValue(digits[1..], radix)
  }

  lemma {:induction false} LastPlace(digits: seq<nat>, radix: nat)
    requires digits != []
    ensures PlaceValue(digits, radix) == radix * PlaceValue(digits[..|digits| - 1], radix) + digits[|digits| - 1]
    decreases |digits|
  {
    var n := |digits|;
    if n == 1 {
      assert digits[1..] == [] && digits[..0] == [];
    } else {
      LastPlace(digits[1..], radix);
      assert digits[1..][..n - 2] == digits[..n - 1][1..];
      var p := Power(radix, n - 2);
      Distribute(digits[0], radix, p, PlaceValue(digits[1..n - 1], radix));
      assert digits[..n - 1][1..] == digits[1..n - 1];
    }
  }

  lemma Distribute(d: nat, radix: nat, p: nat, rest: nat)
    ensures radix * (d * p + rest) == d * (radix * p) + radix * rest
  {
  }

  lemma WrittenDigit(c: char, d: nat)
    requires Writes(c, d)
    ensures DigitValue(c) == d && c != '_' && c != '-' && c != '+' && c != 'x' && c != 'X'
  {
  }

  lemma {:induction false} DigitsValue(text: string, digits: seq<nat>, radix: nat)
    requires Spelled(text, digits, radix)
    ensures Digits(text, radix) == Some(PlaceValue(digits, radix))
    decreases |text|
  {
    hide PlaceValue, DigitValue, Writes;
    var n := |text|;
    WrittenDigit(text[n - 1], digits[n - 1]);
    LastPlace(digits, radix);
    if n > 1 {
      DigitsValue(text[..n - 1], digits[..n - 1], radix);
    } else {
      assert digits[..0] == [];
      PlaceNone(radix);
    }
  }

  lemma PlaceNone(radix: nat)
    ensures PlaceValue([], radix) == 0
  {
  }

  /** A digit that the radix does not have, or a character that is none, spoils the text. */
  lemma {:induction false} StrayCharacter(text: string, k: nat, radix: nat)
    requires k < |text| && radix <= 16 && forall d: nat :: d < radix ==> !Writes(text[k], d)
    ensures Digits(text, radix) == None
    decreases |text|
  {
    var n := |text|;
    if k == n - 1 {
      NoDigit(text[k], radix);
    } else {
      StrayCharacter(text[..n - 1], k, radix);
    }
  }

  lemma NoDigit(c: char, radix: nat)
    requires radix <= 16 && forall d: nat :: d < radix ==> !Writes(c, d)
    ensures DigitValue(c) >= radix
  {
    if DigitValue(c) < radix {
      assert Writes(c, DigitValue(c));
    }
  }

  /** 128 bits, signed. */
  function Bounded(n: nat): Option<int> {
    if n <= 0x7FFF_FFFF_FFFF_FFFF_FFFF_FFFF_FFFF_FFFF then Some(n) else None
  }

  lemma {:induction false} NoUnderscoreIn(text: string, digits: seq<nat>, radix: nat)
    requires Spelled(text, digits, radix)
    ensures '_' !in text && '-' !in text && '+' !in text
  {
    hide Writes;
    forall k | 0 <= k < |text| ensures text[k] != '_' && text[k] != '-' && text[k] != '+' {
      WrittenDigit(text[k], digits[k]);
    }
  }

  lemma DecimalDigits(text: string, digits: seq<nat>)
    requires Spelled(text, digits, 10)
    ensures |text| > 2 ==> text[1] != 'x' && text[1] != 'X' && text[1] != 'b' && text[1] != 'B'
  {
  }

  /** Decimal text has its decimal value, within 128 bits. */
  lemma {:induction false} DecimalLiteral(text: string, digits: seq<nat>)
    requires Spelled(text, digits, 10)
    ensures ParseIntLiteral(text) == Bounded(PlaceValue(digits, 10))
  {
    hide Digits, PlaceValue, Spelled;
    NoUnderscoreIn(text, digits, 10);
    NoUnderscores(text);
    DecimalDigits(text, digits);
    DigitsValue(text, digits, 10);
    SpelledSome(text, digits, 10);
    assert |text| > 2 ==> text[..2][1] == text[1];
  }

  lemma SpelledSome(text: string, digits: seq<nat>, radix: nat)
    requires Spelled(text, digits, radix)
    ensures text != [] && text[0] in text
  {
  }

  /** `0x` or `0X` and hexadecimal digits of either case. */
  lemma {:induction false} HexLiteral(mark: char, text: string, digits: seq<nat>)
    requires (mark == 'x' || mark == 'X') && Spelled(text, digits, 16)
    ensures ParseIntLiteral(['0', mark] + text) == Bounded(PlaceValue(digits, 16))
  {
    hide Digits, PlaceValue, Spelled;
    MarkedText(mark, text, digits, 16);
    DigitsValue(text, digits, 16);
  }

  /** `0b` or `0B` and binary digits. */
  lemma {:induction false} BinaryLiteral(mark: char, text: string, digits: seq<nat>)
    requires (mark == 'b' || mark == 'B') && Spelled(text, digits, 2)
    ensures ParseIntLiteral(['0', mark] + text) == Bounded(PlaceValue(digits, 2))
  {
    hide Digits, PlaceValue, Spelled;
    MarkedText(mark, text, digits, 2);
    DigitsValue(text, digits, 2);
  }

  lemma MarkedText(mark: char, text: string, digits: seq<nat>, radix: nat)
    requires Spelled(text, digits, radix) && mark != '_'
    ensures var raw := ['0', mark] + text;
            WithoutUnderscores(raw) == raw && |raw| > 2 && raw[..2] == ['0', mark] && raw[2..] == text && text[0] != '-' && text[0] != '+'
  {
    hide Spelled;
    NoUnderscoreIn(text, digits, radix);
    SpelledSome(text, digits, radix);
    NoUnderscores(['0', mark] + text);
  }

  /** An underscore anywhere changes nothing. */
  lemma {:induction false} UnderscoreIgnored(a: string, b: string)
    ensures ParseIntLiteral(a + "_" + b) == ParseIntLiteral(a + b)
  {
    UnderscoreDropped(a, b);
  }

  lemma {:induction false} UnderscoreDropped(a: string, b: string)
    ensures WithoutUnderscores(a + "_" + b) == WithoutUnderscores(a + b)
    decreases |a|
  {
    if a == [] {
      assert a + "_" + b == "_" + b && a + b == b;
      assert ("_" + b)[1..] == b;
    } else {
      assert (a + "_" + b)[1..] == a[1..] + "_" + b && (a + b)[1..] == a[1..] + b;
      UnderscoreDropped(a[1..], b);
    }
  }

  lemma Examples()
    ensures ParseIntLiteral("1_000") == Some(1000) && ParseIntLiteral("0xFf") == Some(255) && ParseIntLiteral("0b101") == Some(5)
  {
    hide ParseIntLiteral, PlaceValue;
    UnderscoreIgnored("1", "000");
    assert "1" + "_" + "000" == "1_000" && "1" + "000" == "1000";
    DecimalLiteral("1000", [1, 0, 0, 0]);
    HexLiteral('x', "Ff", [15, 15]);
    BinaryLiteral('b', "101", [1, 0, 1]);
    assert ['0', 'x'] + "Ff" == "0xFf" && ['0', 'b'] + "101" == "0b101";
    Places();
  }

  lemma Places()
    ensures PlaceValue([1, 0, 0, 0], 10) == 1000 && PlaceValue([15, 15], 16) == 255 && PlaceValue([1, 0, 1], 2) == 5
  {
    hide PlaceValue;
    OneDigit(1, 10);
    Shifted([1], 0, 10);
    Shifted([1, 0], 0, 10);
    Shifted([1, 0, 0], 0, 10);
    OneDigit(15, 16);
    Shifted([15], 15, 16);
    OneDigit(1, 2);
    Shifted([1], 0, 2);
    Shifted([1, 0], 1, 2);
    assert [1] + [0] == [1, 0] && [1, 0] + [0] == [1, 0, 0] && [1, 0, 0] + [0] == [1, 0, 0, 0];
    assert [15] + [15] == [15, 15] && [1, 0] + [1] == [1, 0, 1];
  }

  lemma OneDigit(d: nat, radix: nat)
    ensures PlaceValue([d], radix) == d
  {
  }

  lemma Shifted(digits: seq<nat>, d: nat, radix: nat)
    ensures PlaceValue(digits + [d], radix) == radix * PlaceValue(digits, radix) + d
  {
    hide PlaceValue;
    LastPlace(digits + [d], radix);
    assert (digits + [d])[..|digits|] == digits;
  }
}
