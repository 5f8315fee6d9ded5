/**
 * The parts of PHP's scalar semantics the field record relies on: the range
 * of a 64-bit integer and the `(int)` cast of a string, which PHP 5 performs
 * like C's `strtol` in base 10 (leading white space, an optional sign, the
 * longest run of decimal digits, and saturation at the bounds of the type).
 */
module PhpValues {

  const PhpIntMin: int := -0x8000_0000_0000_0000
  const PhpIntMax: int := 0x7FFF_FFFF_FFFF_FFFF

  /** A PHP integer on a 64-bit build. */
  type PhpInt = i: int | PhpIntMin <= i <= PhpIntMax

  /** Saturation of an exact value into the integer range, as `strtol` does on overflow. */
  function Clamp(x: int): PhpInt
  {
    if x > PhpIntMax then PhpIntMax else if x < PhpIntMin then PhpIntMin else x
  }

  /** The characters C's `isspace` accepts: blank, tab, newline, vertical tab, form feed, return. */
  predicate IsSpace(c: char)
  {
    c == ' ' || '\t' <= c <= '\r'
  }

  predicate IsDigit(c: char)
  {
    '0' <= c <= '9'
  }

  predicate AllDigits(s: string)
  {
    forall i :: 0 <= i < |s| ==> IsDigit(s[i])
  }

  function SkipSpace(s: string): string
  {
    if s != [] && IsSpace(s[0]) then SkipSpace(s[1..]) else s
  }

  /** The length of the longest run of digits at the start of `s`. */
  function LeadingDigits(s: string): (k: nat)
    ensures k <= |s|
    ensures AllDigits(s[..k])
    ensures k < |s| ==> !IsDigit(s[k])
  {
    if s != [] && IsDigit(s[0]) then
      var k := 1 + LeadingDigits(s[1..]);
      assert s[..k] == [s[0]] + s[1..][..k - 1];
      k
    else 0
  }

  /** The value of a string of decimal digits, most significant first. */
  function DigitsValue(s: string): nat
    requires AllDigits(s)
  {
    if s == [] then 0
    else 10 * DigitsValue(s[..|s| - 1]) + (s[|s| - 1] as int - '0' as int)
  }

  function DigitRunValue(t: string): nat
  {
    DigitsValue(t[..LeadingDigits(t)])
  }

  /** PHP 5's `(int)` cast of a string. */
  function StrToInt(s: string): PhpInt
  {
    var t := SkipSpace(s);
    if t != [] && (t[0] == '-' || t[0] == '+') then
      var m: int := DigitRunValue(t[1..]);
      Clamp(if t[0] == '-' then -m else m)
    else
      Clamp(DigitRunValue(t))
  }

  function DigitChar(d: nat): char
    requires d < 10
  {
    ('0' as int + d) as char
  }

  /** The decimal digits of `n`, without leading zeros. */
  function Digits(n: nat): (s: string)
    ensures |s| > 0 && AllDigits(s)
  {
    if n < 10 then [DigitChar(n)] else Digits(n / 10) + [DigitChar(n % 10)]
  }

  /** The way PHP renders an integer as a string. */
  function DecimalString(n: int): string
  {
    if n < 0 then "-" + Digits(-n) else Digits(n)
  }

  lemma {:induction false} DigitsValueOfDigits(n: nat)
    ensures DigitsValue(Digits(n)) == n
  {
    if n >= 10 {
      var s := Digits(n / 10) + [DigitChar(n % 10)];
      assert s[..|s| - 1] == Digits(n / 10);
      DigitsValueOfDigits(n / 10);
    }
  }

  lemma {:induction false} SkipSpacePrefix(ws: string, t: string)
    requires forall i :: 0 <= i < |ws| ==> IsSpace(ws[i])
    requires t == [] || !IsSpace(t[0])
    ensures SkipSpace(ws + t) == t
  {
    if ws == [] {
      assert ws + t == t;
    } else {
      assert (ws + t)[1..] == ws[1..] + t;
      SkipSpacePrefix(ws[1..], t);
    }
  }

  lemma LeadingDigitsOfRun(d: string, rest: string)
    requires AllDigits(d)
    requires rest == [] || !IsDigit(rest[0])
    ensures LeadingDigits(d + rest) == |d|
    ensures (d + rest)[..|d|] == d
  {
  }

  predicate IsSign(sign: string)
  {
    sign == "" || sign == "+" || sign == "-"
  }

  /** The value a sign gives to a magnitude. */
  function Signed(sign: string, m: int): int
  {
    if sign == "-" then -m else m
  }

  predicate AllZeros(z: string)
  {
    forall i :: 0 <= i < |z| ==> z[i] == '0'
  }

  /**
   * White space, an optional sign, a non-empty run of digits and then a
   * non-digit cast to the signed value of the digits, saturated to the PHP range.
   */
  lemma StrToIntOfIntegerString(ws: string, sign: string, d: string, rest: string)
    requires forall i :: 0 <= i < |ws| ==> IsSpace(ws[i])
    requires IsSign(sign)
    requires d != [] && AllDigits(d)
    requires rest == [] || !IsDigit(rest[0])
    ensures StrToInt(ws + sign + d + rest) == Clamp(Signed(sign, DigitsValue(d)))
  {
    var t := sign + d + rest;
    assert ws + sign + d + rest == ws + t;
    assert t[0] == if sign == "" then d[0] else sign[0];
    SkipSpacePrefix(ws, t);
    assert SkipSpace(t) == t;
    StrToIntIgnoresSpace(ws + t, t);
    StrToIntOfSigned(sign, d, rest);
  }

  /** The cast looks only at what follows the leading white space. */
  lemma StrToIntIgnoresSpace(s: string, t: string)
    requires SkipSpace(s) == SkipSpace(t)
    ensures StrToInt(s) == StrToInt(t)
  {
  }

  /** The cast of a string that starts with a sign or a digit. */
  lemma StrToIntOfSigned(sign: string, d: string, rest: string)
    requires IsSign(sign)
    requires d != [] && AllDigits(d)
    requires rest == [] || !IsDigit(rest[0])
    ensures StrToInt(sign + d + rest) == Clamp(Signed(sign, DigitsValue(d)))
  {
    if sign == "" {
      assert sign + d + rest == d + rest;
      StrToIntOfUnsigned(d, rest);
    } else {
      var c := sign[0];
      assert sign == [c];
      assert sign + d + rest == [c] + (d + rest);
      StrToIntOfSignChar(c, d, rest);
    }
  }

  lemma StrToIntOfUnsigned(d: string, rest: string)
    requires d != [] && AllDigits(d)
    requires rest == [] || !IsDigit(rest[0])
    ensures StrToInt(d + rest) == Clamp(DigitsValue(d))
  {
    assert (d + rest)[0] == d[0];
    DigitRunOfRun(d, rest);
  }

  lemma StrToIntOfSignChar(c: char, d: string, rest: string)
    requires c == '+' || c == '-'
    requires AllDigits(d)
    requires rest == [] || !IsDigit(rest[0])
    ensures StrToInt([c] + (d + rest)) == Clamp(Signed([c], DigitsValue(d)))
  {
    var t := [c] + (d + rest);
    assert t[1..] == d + rest;
    DigitRunOfRun(d, rest);
  }

  lemma DigitRunOfRun(d: string, rest: string)
    requires AllDigits(d)
    requires rest == [] || !IsDigit(rest[0])
    ensures DigitRunValue(d + rest) == DigitsValue(d)
  {
    LeadingDigitsOfRun(d, rest);
  }

  /**
   * White space and an optional sign followed by anything but a digit cast
   * to 0. Without a sign, what follows must not itself be white space or a sign.
   */
  lemma StrToIntOfNoDigits(ws: string, sign: string, rest: string)
    requires forall i :: 0 <= i < |ws| ==> IsSpace(ws[i])
    requires IsSign(sign)
    requires rest == [] || !IsDigit(rest[0])
    requires sign == "" && rest != [] ==> !IsSpace(rest[0]) && rest[0] != '+' && rest[0] != '-'
    ensures StrToInt(ws + sign + rest) == 0
  {
    var t := sign + rest;
    assert ws + sign + rest == ws + t;
    SkipSpacePrefix(ws, t);
    StrToIntIgnoresSpace(ws + t, t);
    if sign == "" {
      assert t == rest;
      assert DigitRunValue(rest) == 0 by {
        assert rest[..LeadingDigits(rest)] == [];
      }
    } else {
      assert t[1..] == rest;
      assert DigitRunValue(rest) == 0 by {
        assert rest[..LeadingDigits(rest)] == [];
      }
    }
  }

  lemma {:induction false} DigitsValueOfZeros(z: string)
    requires AllZeros(z)
    ensures AllDigits(z) && DigitsValue(z) == 0
  {
    if z != [] {
      DigitsValueOfZeros(z[..|z| - 1]);
    }
  }

  /** Leading zeros do not change the value of a run of digits. */
  lemma {:induction false} DigitsValueLeadingZeros(z: string, d: string)
    requires AllZeros(z) && AllDigits(d)
    ensures AllDigits(z + d) && DigitsValue(z + d) == DigitsValue(d)
    decreases |d|
  {
    DigitsValueOfZeros(z);
    if d == [] {
      assert z + d == z;
    } else {
      var init := d[..|d| - 1];
      assert (z + d)[..|z + d| - 1] == z + init;
      assert (z + d)[|z + d| - 1] == d[|d| - 1];
      DigitsValueLeadingZeros(z, init);
    }
  }

  /**
   * White space, an optional sign, any number of zeros, the digits of `n`
   * and then a non-digit cast to the signed `n`, saturated to the PHP range.
   */
  lemma StrToIntOfPaddedInteger(ws: string, sign: string, zeros: string, n: nat, rest: string)
    requires forall i :: 0 <= i < |ws| ==> IsSpace(ws[i])
    requires IsSign(sign) && AllZeros(zeros)
    requires rest == [] || !IsDigit(rest[0])
    ensures StrToInt(ws + sign + zeros + Digits(n) + rest) == Clamp(Signed(sign, n))
  {
    DigitsValueLeadingZeros(zeros, Digits(n));
    DigitsValueOfDigits(n);
    assert ws + sign + zeros + Digits(n) + rest == ws + sign + (zeros + Digits(n)) + rest;
    StrToIntOfIntegerString(ws, sign, zeros + Digits(n), rest);
  }

  /**
   * A decimal rendering of any integer, after white space and before a
   * non-digit, casts back to that integer, saturated to the PHP range.
   */
  lemma StrToIntOfDecimal(ws: string, n: int, rest: string)
    requires forall i :: 0 <= i < |ws| ==> IsSpace(ws[i])
    requires rest == [] || !IsDigit(rest[0])
    ensures StrToInt(ws + DecimalString(n) + rest) == Clamp(n)
  {
    if n < 0 {
      StrToIntOfNegativeDecimal(ws, n, rest);
    } else {
      StrToIntOfNonNegativeDecimal(ws, n, rest);
    }
  }

  lemma StrToIntOfNegativeDecimal(ws: string, n: int, rest: string)
    requires forall i :: 0 <= i < |ws| ==> IsSpace(ws[i])
    requires rest == [] || !IsDigit(rest[0])
    requires n < 0
    ensures StrToInt(ws + DecimalString(n) + rest) == Clamp(n)
  {
    var d := Digits(-n);
    DigitsValueOfDigits(-n);
    var x := ws + DecimalString(n) + rest;
    var y := ws + "-" + d + rest;
    assert DecimalString(n) == "-" + d;
    assert ws + ("-" + d) == ws + "-" + d;
    assert x == y;
    StrToIntOfIntegerString(ws, "-", d, rest);
  }

  lemma StrToIntOfNonNegativeDecimal(ws: string, n: nat, rest: string)
    requires forall i :: 0 <= i < |ws| ==> IsSpace(ws[i])
    requires rest == [] || !IsDigit(rest[0])
    ensures StrToInt(ws + DecimalString(n) + rest) == Clamp(n)
  {
    var d := Digits(n);
    DigitsValueOfDigits(n);
    assert DecimalString(n) == d;
    assert ws + "" == ws;
    assert ws + DecimalString(n) + rest == ws + "" + d + rest;
    StrToIntOfIntegerString(ws, "", d, rest);
  }

  /** Every PHP integer survives rendering and casting back. */
  lemma DecimalRoundTrip(n: PhpInt)
    ensures StrToInt(DecimalString(n)) == n
  {
    StrToIntOfDecimal([], n, []);
    assert [] + DecimalString(n) + [] == DecimalString(n);
  }
}
