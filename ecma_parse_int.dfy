/**
 * The global `parseInt(string, 10)` of JavaScript (section 19.2.5 of ECMA-262),
 * which the list proxy applies to its `page` query parameter, together with
 * the decimal rendering of an integer that serves as its inverse.
 *
 * The function is layered as the standard describes it: trim the leading
 * white space (`TrimStart`), take at most one sign (`ParseSigned`), then read
 * the longest run of decimal digits (`ParseDigits`).
 */
module EcmaParseInt {

  /**
   * A JavaScript Number as far as the list proxy can observe it. Finite
   * values are kept exact; see `ToNumber` for what that leaves out.
   */
  datatype Number = NaN | PositiveInfinity | NegativeInfinity | Finite(value: int)

  /**
   * 2^1024 - 2^970: the least integer that rounds to +Infinity under
   * round-to-nearest-even, halfway between Number.MAX_VALUE and 2^1024.
   */
  const OverflowThreshold: int :=
    0xFFFF_FFFF_FFFF_FC00_0000_0000_0000_0000_0000_0000_0000_0000_0000_0000_0000_0000_0000_0000_0000_0000_0000_0000_0000_0000_0000_0000_0000_0000_0000_0000_0000_0000_0000_0000_0000_0000_0000_0000_0000_0000_0000_0000_0000_0000_0000_0000_0000_0000_0000_0000_0000_0000_0000_0000_0000_0000_0000_0000_0000_0000_0000_0000_0000_0000

  /**
   * The Number value of a mathematical integer (the operation written 𝔽 in
   * ECMA-262): magnitudes from OverflowThreshold up become infinities. The
   * rounding of large finite values to 53 significant bits is not applied;
   * it is monotone and exact on small integers, so no comparison the list
   * proxy makes against 0, 1 or 500 can tell the difference.
   */
  function ToNumber(n: int): (x: Number)
    ensures x != NaN
    ensures x == PositiveInfinity <==> n >= OverflowThreshold
    ensures x == NegativeInfinity <==> n <= -OverflowThreshold
    ensures x.Finite? <==> -OverflowThreshold < n < OverflowThreshold
    ensures x.Finite? ==> x.value == n
  {
    if n >= OverflowThreshold then PositiveInfinity
    else if n <= -OverflowThreshold then NegativeInfinity
    else Finite(n)
  }

  /** StrWhiteSpaceChar: the WhiteSpace and LineTerminator code points of ECMA-262. */
  predicate IsStrWhiteSpace(c: char)
    ensures IsStrWhiteSpace(c) ==> !IsDigit(c) && c != '+' && c != '-'
  {
    || c == '\t' || c == '\n' || c == '\U{000B}' || c == '\U{000C}' || c == '\r'
    || c == ' ' || c == '\U{00A0}' || c == '\U{1680}'
    || ('\U{2000}' <= c <= '\U{200A}')
    || c == '\U{2028}' || c == '\U{2029}' || c == '\U{202F}' || c == '\U{205F}'
    || c == '\U{3000}' || c == '\U{FEFF}'
  }

  predicate IsDigit(c: char) {
    '0' <= c <= '9'
  }

  predicate AllDigits(s: string) {
    forall i :: 0 <= i < |s| ==> IsDigit(s[i])
  }

  predicate AllZeros(s: string) {
    forall i :: 0 <= i < |s| ==> s[i] == '0'
  }

  predicate AllWhiteSpace(s: string) {
    forall i :: 0 <= i < |s| ==> IsStrWhiteSpace(s[i])
  }

  /** The signs parseInt accepts in front of the digits: none, "+" or "-". */
  predicate IsSign(sign: string) {
    sign == "" || sign == "+" || sign == "-"
  }

  /** What may follow the digits parseInt reads: nothing, or a non-digit. */
  predicate EndsDigits(tail: string) {
    tail == [] || !IsDigit(tail[0])
  }

  /**
   * `w + sign + rest` is split where parseInt splits it: `w` is all of the
   * leading white space and `sign` all of the sign, so `rest` is what the
   * digit scan starts on.
   */
  predicate SignParts(w: string, sign: string, rest: string) {
    && AllWhiteSpace(w)
    && IsSign(sign)
    && (sign == "" ==> rest == [] || (!IsStrWhiteSpace(rest[0]) && rest[0] != '+' && rest[0] != '-'))
  }

  /** The signed value of a magnitude read after `sign`. */
  function Signed(sign: string, m: nat): int {
    if sign == "-" then -(m as int) else m
  }

  function DigitValue(c: char): (d: nat)
    requires IsDigit(c)
    ensures d < 10
    ensures d == 0 <==> c == '0'
  {
    c as int - '0' as int
  }

  function DigitChar(d: nat): (c: char)
    requires d < 10
    ensures IsDigit(c) && DigitValue(c) == d
  {
    ('0' as int + d) as char
  }

  /** TrimString(S, start): drops the leading white space and nothing else. */
  function TrimStart(s: string): (r: string)
    ensures |r| <= |s| && r == s[|s| - |r|..]
    ensures AllWhiteSpace(s[..|s| - |r|])
    ensures r == [] || !IsStrWhiteSpace(r[0])
  {
    if s != [] && IsStrWhiteSpace(s[0]) then TrimStart(s[1..]) else s
  }

  /** The longest prefix of `s` made of decimal digits (radix 10). */
  function LeadingDigits(s: string): (d: string)
    ensures |d| <= |s| && d == s[..|d|]
    ensures AllDigits(d)
    ensures |d| == |s| || !IsDigit(s[|d|])
  {
    if s != [] && IsDigit(s[0]) then [s[0]] + LeadingDigits(s[1..]) else []
  }

  /** The mathematical value of a string of decimal digits, most significant first. */
  function DigitsValue(d: string): (n: nat)
    requires AllDigits(d)
    ensures n == 0 <==> AllZeros(d)
  {
    if d == [] then 0
    else
      var init := d[..|d| - 1];
      assert AllZeros(d) <==> AllZeros(init) && d[|d| - 1] == '0' by {
        assert d == init + [d[|d| - 1]];
      }
      10 * DigitsValue(init) + DigitValue(d[|d| - 1])
  }

  /**
   * parseInt(s, 10): skip leading white space, take one optional sign, then
   * the longest run of decimal digits; NaN when that run is empty. With the
   * radix fixed at 10 no "0x" prefix is stripped.
   */
  function ParseInt(s: string): (x: Number)
    ensures x.Finite? ==> -OverflowThreshold < x.value < OverflowThreshold
  {
    ParseSigned(TrimStart(s))
  }

  /** The sign step of parseInt, on text whose white space is already trimmed. */
  function ParseSigned(t: string): Number {
    if t != [] && t[0] == '-' then ParseDigits(t[1..], true)
    else if t != [] && t[0] == '+' then ParseDigits(t[1..], false)
    else ParseDigits(t, false)
  }

  /** The digit step of parseInt, on the text after the sign. */
  function ParseDigits(u: string, negative: bool): Number {
    var z := LeadingDigits(u);
    if z == [] then NaN
    else
      var magnitude: int := DigitsValue(z);
      ToNumber(if negative then -magnitude else magnitude)
  }

  /** Number::toString for a non-negative integer: its shortest decimal digits. */
  function NatDecimal(n: nat): (s: string)
    ensures s != [] && AllDigits(s)
    ensures s[0] == '0' ==> n == 0
  {
    if n < 10 then [DigitChar(n)] else NatDecimal(n / 10) + [DigitChar(n % 10)]
  }

  /** Number::toString for an integer: a minus sign, if negative, before the digits. */
  function Decimal(n: int): (s: string)
    ensures s != [] && !IsStrWhiteSpace(s[0])
  {
    if n < 0 then "-" + NatDecimal(-n) else NatDecimal(n)
  }

  /**
   * The text parseInt reads as a number: white space, a sign, leading zeros,
   * the shortest digits of a magnitude, then text that does not start with a digit.
   */
  function Numeral(w: string, sign: string, zeros: string, m: nat, tail: string): string {
    w + sign + zeros + NatDecimal(m) + tail
  }

  predicate NumeralParts(w: string, sign: string, zeros: string, tail: string) {
    AllWhiteSpace(w) && IsSign(sign) && AllZeros(zeros) && EndsDigits(tail)
  }

  /** The digits of a number read back give the number. */
  lemma {:induction false} DigitsValueOfNatDecimal(n: nat)
    ensures DigitsValue(NatDecimal(n)) == n
  {
    if n >= 10 {
      var d := NatDecimal(n);
      assert d[..|d| - 1] == NatDecimal(n / 10);
      DigitsValueOfNatDecimal(n / 10);
    }
  }

  /** Leading zeros do not change the value of a digit string. */
  lemma {:induction false} DigitsValueSkipsZeros(zeros: string, d: string)
    requires AllZeros(zeros) && AllDigits(d)
    ensures AllDigits(zeros + d)
    ensures DigitsValue(zeros + d) == DigitsValue(d)
  {
    if d == [] {
      assert zeros + d == zeros;
    } else {
      var init := d[..|d| - 1];
      assert (zeros + d)[..|zeros + d| - 1] == zeros + init;
      DigitsValueSkipsZeros(zeros, init);
    }
  }

  /** A digit string without leading zero is the shortest decimal text of its value. */
  lemma {:induction false} NatDecimalOfDigits(d: string)
    requires AllDigits(d) && d != [] && d[0] != '0'
    ensures NatDecimal(DigitsValue(d)) == d
  {
    if |d| > 1 {
      var init := d[..|d| - 1];
      NatDecimalOfDigits(init);
      assert d == init + [d[|d| - 1]];
    }
  }

  /** Every non-empty digit string is some leading zeros and the shortest digits of a number. */
  lemma {:induction false} SplitLeadingZeros(z: string) returns (zeros: string, m: nat)
    requires AllDigits(z) && z != []
    ensures AllZeros(zeros) && z == zeros + NatDecimal(m)
  {
    if z[0] != '0' {
      zeros, m := [], DigitsValue(z);
      NatDecimalOfDigits(z);
    } else if |z| == 1 {
      zeros, m := [], 0;
    } else {
      var zs;
      zs, m := SplitLeadingZeros(z[1..]);
      zeros := ['0'] + zs;
      assert z == [z[0]] + z[1..];
    }
  }

  /** A run of digits followed by anything but a digit is exactly the run that parseInt takes. */
  lemma {:induction false} LeadingDigitsOfDigits(d: string, tail: string)
    requires AllDigits(d)
    requires EndsDigits(tail)
    ensures LeadingDigits(d + tail) == d
  {
    if d != [] {
      assert (d + tail)[1..] == d[1..] + tail;
      LeadingDigitsOfDigits(d[1..], tail);
    }
  }

  /** Leading white space does not change what TrimStart keeps. */
  lemma {:induction false} TrimStartSkipsWhiteSpace(w: string, s: string)
    requires AllWhiteSpace(w)
    ensures TrimStart(w + s) == TrimStart(s)
  {
    if w != [] {
      assert (w + s)[0] == w[0];
      assert (w + s)[1..] == w[1..] + s;
      TrimStartSkipsWhiteSpace(w[1..], s);
    } else {
      assert w + s == s;
    }
  }

  /** parseInt ignores leading white space. */
  lemma ParseIntSkipsWhiteSpace(w: string, s: string)
    requires AllWhiteSpace(w)
    ensures ParseInt(w + s) == ParseInt(s)
  {
    TrimStartSkipsWhiteSpace(w, s);
  }

  /** The sign step takes the sign off and scans the rest for digits. */
  lemma ParseSignedOfParts(sign: string, rest: string)
    requires IsSign(sign)
    requires sign == "" ==> rest == [] || (rest[0] != '+' && rest[0] != '-')
    ensures ParseSigned(sign + rest) == ParseDigits(rest, sign == "-")
  {
    if sign != "" {
      assert (sign + rest)[0] == sign[0] && (sign + rest)[1..] == rest;
    } else {
      assert sign + rest == rest;
    }
  }

  /** Once the white space and the sign are split off, parseInt scans the rest for digits. */
  lemma ParseIntOfParts(w: string, sign: string, rest: string)
    requires SignParts(w, sign, rest)
    ensures ParseInt(w + sign + rest) == ParseDigits(rest, sign == "-")
  {
    var t := sign + rest;
    assert w + sign + rest == w + t;
    ParseIntSkipsWhiteSpace(w, t);
    assert TrimStart(t) == t by {
      assert t == [] || !IsStrWhiteSpace(t[0]) by {
        if sign != "" {
          assert t[0] == sign[0];
        } else {
          assert t == rest;
        }
      }
    }
    ParseSignedOfParts(sign, rest);
  }

  /** The digit scan reads back leading zeros, a number's digits and a non-digit tail. */
  lemma ParseDigitsOfNumeral(zeros: string, m: nat, tail: string, negative: bool)
    requires AllZeros(zeros) && EndsDigits(tail)
    ensures ParseDigits(zeros + NatDecimal(m) + tail, negative) == ToNumber(if negative then -(m as int) else m)
  {
    var d := NatDecimal(m);
    DigitsValueSkipsZeros(zeros, d);
    DigitsValueOfNatDecimal(m);
    LeadingDigitsOfDigits(zeros + d, tail);
  }

  /**
   * parseInt reads every numeral as its signed value: white space, an
   * optional sign, any leading zeros, the digits of m and a tail that does
   * not start with a digit ("3", " +03", "-7px", "3.9", "0009999").
   */
  lemma ParseIntOfNumeral(w: string, sign: string, zeros: string, m: nat, tail: string)
    requires NumeralParts(w, sign, zeros, tail)
    ensures ParseInt(Numeral(w, sign, zeros, m, tail)) == ToNumber(Signed(sign, m))
  {
    var rest := zeros + NatDecimal(m) + tail;
    assert rest[0] == (zeros + NatDecimal(m))[0];
    assert IsDigit(rest[0]);
    assert Numeral(w, sign, zeros, m, tail) == w + sign + rest;
    ParseIntOfParts(w, sign, rest);
    ParseDigitsOfNumeral(zeros, m, tail, sign == "-");
  }

  /**
   * Round trip: parseInt reads back the decimal text of any integer, whatever
   * white space precedes it and whatever non-digit text follows it.
   */
  lemma ParseIntOfDecimal(w: string, n: int, tail: string)
    requires AllWhiteSpace(w) && EndsDigits(tail)
    ensures ParseInt(w + Decimal(n) + tail) == ToNumber(n)
  {
    var sign := if n < 0 then "-" else "";
    var m: nat := if n < 0 then -n else n;
    assert w + Decimal(n) + tail == Numeral(w, sign, "", m, tail);
    ParseIntOfNumeral(w, sign, "", m, tail);
  }

  /**
   * parseInt gives NaN exactly when, after the white space and the sign,
   * the text is empty or starts with something other than a digit
   * ("", "abc3", ".5", "- 3", "+").
   */
  lemma ParseIntNaNIff(w: string, sign: string, rest: string)
    requires SignParts(w, sign, rest)
    ensures ParseInt(w + sign + rest) == NaN <==> !(rest != [] && IsDigit(rest[0]))
  {
    ParseIntOfParts(w, sign, rest);
  }

  /** Every text splits into white space, a sign and the rest, where parseInt splits it. */
  lemma {:induction false} SplitSign(s: string) returns (w: string, sign: string, rest: string)
    ensures SignParts(w, sign, rest) && s == w + sign + rest
  {
    if s != [] && IsStrWhiteSpace(s[0]) {
      var w';
      w', sign, rest := SplitSign(s[1..]);
      w := [s[0]] + w';
      assert s == [s[0]] + s[1..];
      assert AllWhiteSpace(w);
    } else if s != [] && (s[0] == '+' || s[0] == '-') {
      w, sign, rest := "", [s[0]], s[1..];
      assert s == [s[0]] + s[1..];
    } else {
      w, sign, rest := "", "", s;
    }
  }

  /** Text that starts with a digit splits into leading zeros, the digits of a number and a non-digit tail. */
  lemma SplitDigits(rest: string) returns (zeros: string, m: nat, tail: string)
    requires rest != [] && IsDigit(rest[0])
    ensures AllZeros(zeros) && EndsDigits(tail)
    ensures rest == zeros + NatDecimal(m) + tail
  {
    var z := LeadingDigits(rest);
    tail := rest[|z|..];
    assert rest == z + tail && z != [];
    zeros, m := SplitLeadingZeros(z);
  }

  /** Text whose digit scan finds digits is a numeral. */
  lemma NumeralOfParts(w: string, sign: string, rest: string) returns (zeros: string, m: nat, tail: string)
    requires SignParts(w, sign, rest) && rest != [] && IsDigit(rest[0])
    ensures NumeralParts(w, sign, zeros, tail) && w + sign + rest == Numeral(w, sign, zeros, m, tail)
  {
    zeros, m, tail := SplitDigits(rest);
    assert w + sign + rest == Numeral(w, sign, zeros, m, tail);
  }

  /**
   * Every text that parseInt reads as a number (finite or not) is a numeral,
   * so ParseIntOfNumeral covers all of them.
   */
  lemma NumeralOfNumber(s: string) returns (w: string, sign: string, zeros: string, m: nat, tail: string)
    requires ParseInt(s) != NaN
    ensures NumeralParts(w, sign, zeros, tail) && s == Numeral(w, sign, zeros, m, tail)
    ensures ParseInt(s) == ToNumber(Signed(sign, m))
  {
    var rest;
    w, sign, rest := SplitSign(s);
    ParseIntNaNIff(w, sign, rest);
    zeros, m, tail := NumeralOfParts(w, sign, rest);
    ParseIntOfNumeral(w, sign, zeros, m, tail);
  }
}
