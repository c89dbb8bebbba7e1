/** Decimal text: printing an integer and reading it back (`to_string`, `i64::from_str`). */
module Decimal {
  import opened Prelude
  import opened Ast

  function DigitChar(d: nat): char
    requires d < 10
  {
    '0' + d as char
  }

  function NatText(n: nat): (s: string)
    ensures s != [] && forall c :: c in s ==> '0' <= c <= '9'
  {
    if n < 10 then [DigitChar(n)] else NatText(n / 10) + [DigitChar(n % 10)]
  }

  function ToDecimal(n: int): string {
    if n < 0 then ['-'] + NatText(-n) else NatText(n)
  }

  /** `str::parse::<i64>`. */
  function ParseI64(s: string): Option<int> {
    var n := ParseSigned(s, 10);
    if n.Some? && FitsI64(n.value) then n else None
  }

  predicate AllDigits(s: string) { forall c :: c in s ==> '0' <= c <= '9' }

  lemma {:induction false} DigitsOfText(n: nat)
    ensures Digits(NatText(n), 10) == Some(n)
  {
    var s := NatText(n);
    if n >= 10 {
      DigitsOfText(n / 10);
      assert s[..|s| - 1] == NatText(n / 10) && |NatText(n / 10)| > 0;
    }
  }

  lemma {:induction false} DigitsAreDigits(s: string)
    requires Digits(s, 10).Some?
    ensures AllDigits(s) && s != []
  {
    if |s| > 1 {
      DigitsAreDigits(s[..|s| - 1]);
      forall c | c in s ensures '0' <= c <= '9' {
        assert s == s[..|s| - 1] + [s[|s| - 1]];
      }
    }
  }

  lemma {:induction false} NoUnderscores(s: string)
    requires '_' !in s
    ensures WithoutUnderscores(s) == s
  {
    if s != [] {
      assert s == [s[0]] + s[1..];
      NoUnderscores(s[1..]);
    }
  }

  /** Decimal text with an optional sign: what `from_str_radix` reads in radix 10. */
  predicate SignedDigits(s: string) {
    s != [] && AllDigits(s[1..]) && (s[0] == '-' || s[0] == '+' || '0' <= s[0] <= '9')
  }

  lemma {:induction false} ParsedShape(s: string)
    requires ParseSigned(s, 10).Some?
    ensures SignedDigits(s)
  {
    hide Digits;
    if s != [] && (s[0] == '-' || s[0] == '+') {
      DigitsAreDigits(s[1..]);
    } else {
      DigitsAreDigits(s);
      assert s[0] in s && forall c :: c in s[1..] ==> c in s;
    }
  }

  /** On plain decimal text the literal parser and the signed parser agree. */
  lemma {:induction false} LiteralIsSigned(s: string)
    requires SignedDigits(s)
    ensures ParseIntLiteral(s) ==
            (var n := ParseSigned(s, 10); if n.Some? && FitsI128(n.value) then n else None)
  {
    hide ParseSigned;
    assert '_' !in s by {
      assert s == [s[0]] + s[1..];
    }
    NoUnderscores(s);
    if |s| > 2 {
      assert s[1] in s[1..];
      assert s[..2][1] == s[1];
    }
  }

  lemma ParsedLiteral(s: string)
    requires ParseI64(s).Some?
    ensures ParseIntLiteral(s) == ParseI64(s)
  {
    hide ParseSigned;
    ParsedShape(s);
    LiteralIsSigned(s);
  }

  /** Printing is undone by reading. */
  lemma {:induction false} PrintedLiteral(n: int)
    requires FitsI128(n)
    ensures ParseIntLiteral(ToDecimal(n)) == Some(n)
  {
    hide Digits, NatText;
    var s := ToDecimal(n);
    DigitsOfText(if n < 0 then -n else n);
    if n < 0 {
      assert s[1..] == NatText(-n);
    } else {
      assert s[0] in s && forall c :: c in s[1..] ==> c in s;
    }
    LiteralIsSigned(s);
  }

  /** Digits in radix 10 fail on anything that is not a digit. */
  lemma {:induction false} NotDigits(s: string, k: nat)
    requires k < |s| && !('0' <= s[k] <= '9')
    ensures Digits(s, 10) == None
  {
    assert s[k] in s;
    if Digits(s, 10).Some? {
      DigitsAreDigits(s);
    }
  }

  predicate HasRadixPrefix(raw: string) {
    |raw| > 2 && (raw[..2] == "0x" || raw[..2] == "0X" || raw[..2] == "0b" || raw[..2] == "0B")
  }

  /** Text with a minus in front is never read in another radix. */
  lemma MinusIsDecimal(raw: string)
    ensures !HasRadixPrefix(['-'] + raw) && ParseSigned(['-'] + raw, 10) == (var m := Digits(raw, 10); if m.Some? then Some(-(m.value as int)) else None)
  {
    var t := ['-'] + raw;
    assert t[1..] == raw;
    assert |t| > 2 ==> t[..2][0] == '-';
  }

  /** Prefixing a literal with a minus negates it exactly when it is unsigned decimal. */
  lemma {:induction false} NegatedLiteral(s: string, n: int)
    requires ParseIntLiteral(s) == Some(n)
    ensures ParseIntLiteral(['-'] + s) == Some(-n) <==> AllDigits(WithoutUnderscores(s))
  {
    hide Digits;
    var raw := WithoutUnderscores(s);
    assert (['-'] + s)[1..] == s;
    assert WithoutUnderscores(['-'] + s) == ['-'] + raw;
    MinusIsDecimal(raw);
    if HasRadixPrefix(raw) {
      assert raw[..2][1] == raw[1];
      assert raw[1] in raw;
      NotDigits(raw, 1);
    } else {
      ParsedShape(raw);
      assert raw[0] in raw;
      if raw[0] == '-' || raw[0] == '+' {
        NotDigits(raw, 0);
      } else {
        assert raw == [raw[0]] + raw[1..];
      }
    }
  }

  // ----- canonical spelling -----

  /** Decimal digits without a leading zero, with a minus for a negative number; zero is "0". */
  predicate Canonical(s: string) {
    var digits := if s != [] && s[0] == '-' then s[1..] else s;
    digits != [] && AllDigits(digits) && (digits[0] == '0' ==> s == "0")
  }

  /** Digits without a leading zero are what printing their value gives. */
  lemma {:induction false} TextOfDigits(s: string)
    requires s != [] && AllDigits(s) && (|s| > 1 ==> s[0] != '0')
    ensures Digits(s, 10).Some? && NatText(Digits(s, 10).value) == s
    ensures s[0] != '0' ==> Digits(s, 10).value > 0
    decreases |s|
  {
    var n := |s| - 1;
    assert s[n] in s;
    if n > 0 {
      var front := s[..n];
      assert forall c :: c in front ==> c in s;
      TextOfDigits(front);
      var high, d := Digits(front, 10).value, DigitValue(s[n]);
      LastDigit(high, d);
      assert front + [DigitChar(d)] == s;
    }
  }

  lemma LastDigit(high: nat, d: nat)
    requires d < 10
    ensures (10 * high + d) / 10 == high && (10 * high + d) % 10 == d
  {
  }

  /** Canonical text is exactly what printing gives. */
  lemma {:induction false} CanonicalIsPrinted(s: string)
    ensures Canonical(s) <==> exists n: int :: s == ToDecimal(n)
  {
    hide Digits, NatText;
    if Canonical(s) {
      var negative := s[0] == '-';
      var digits := if negative then s[1..] else s;
      TextOfDigits(digits);
      var n := Digits(digits, 10).value;
      if negative {
        assert n > 0 && s == ['-'] + digits == ToDecimal(-(n as int));
      } else {
        assert s == ToDecimal(n);
      }
    }
    if n: int :| s == ToDecimal(n) {
      PrintedCanonical(n);
    }
  }

  lemma {:induction false} PrintedCanonical(n: int)
    ensures Canonical(ToDecimal(n))
  {
    hide NatText;
    var m: nat := if n < 0 then -n else n;
    NoLeadingZero(m);
    if n < 0 {
      assert ToDecimal(n)[1..] == NatText(m);
    } else {
      assert NatText(m)[0] in NatText(m);
    }
  }

  lemma {:induction false} NoLeadingZero(n: nat)
    ensures NatText(n)[0] == '0' ==> n == 0 && NatText(n) == "0"
  {
    if n >= 10 {
      NoLeadingZero(n / 10);
      assert NatText(n)[0] == NatText(n / 10)[0];
    }
  }

  /** A number has one canonical spelling. */
  lemma {:induction false} CanonicalUnique(x: string, y: string)
    requires Canonical(x) && Canonical(y) && ParseIntLiteral(x).Some? && ParseIntLiteral(x) == ParseIntLiteral(y)
    ensures x == y
  {
    hide ParseIntLiteral, Canonical, ToDecimal;
    CanonicalIsPrinted(x);
    CanonicalIsPrinted(y);
    var m: int :| x == ToDecimal(m);
    var n: int :| y == ToDecimal(n);
    ReadBack(x, m);
    ReadBack(y, n);
  }

  lemma ReadBack(s: string, n: int)
    requires s == ToDecimal(n) && ParseIntLiteral(s).Some?
    ensures ParseIntLiteral(s) == Some(n)
  {
    hide Digits, NatText;
    DigitsOfText(if n < 0 then -n else n);
    if n < 0 {
      assert s[1..] == NatText(-n);
    } else {
      assert s[0] in s && forall c :: c in s[1..] ==> c in s;
    }
    LiteralIsSigned(s);
  }
}
