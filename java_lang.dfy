/** The parts of the Java platform and of Spring's `StringUtils` that the
    authentication code relies on: the 64-bit `long`, `String.valueOf(long)`,
    `Long.parseLong`, `Character.isWhitespace` and `StringUtils.hasText`. */
module JavaLang {
  import opened Results

  const MinLong: int := -0x8000_0000_0000_0000
  const MaxLong: int := 0x7fff_ffff_ffff_ffff
  const LongModulus: int := 0x1_0000_0000_0000_0000

  /** A Java `long`. */
  type Long = x: int | -0x8000_0000_0000_0000 <= x <= 0x7fff_ffff_ffff_ffff

  /** Two's-complement wrap-around of Java `long` arithmetic: the result of
      an addition whose mathematical value is `x`. */
  function WrapLong(x: int): (r: Long)
    ensures MinLong <= x <= MaxLong ==> r == x
    ensures MaxLong < x <= MaxLong + LongModulus ==> r == x - LongModulus
    ensures MinLong - LongModulus <= x < MinLong ==> r == x + LongModulus
  {
    (x - MinLong) % LongModulus + MinLong
  }

  // ---------- decimal digits ----------

  predicate IsDigit(c: char) { '0' <= c <= '9' }

  predicate AllDigits(s: string) { forall i :: 0 <= i < |s| ==> IsDigit(s[i]) }

  function DigitValue(c: char): (d: nat)
    requires IsDigit(c)
    ensures d < 10
  {
    c as int - '0' as int
  }

  function DigitChar(d: nat): (c: char)
    requires d < 10
    ensures IsDigit(c) && DigitValue(c) == d
  {
    ('0' as int + d) as char
  }

  /** The decimal digits of a natural number, most significant first, with no
      leading zero. */
  function NatDigits(n: nat): (s: string)
    ensures |s| > 0 && AllDigits(s)
    ensures s[0] == '0' <==> n == 0
    ensures |s| == 1 <==> n < 10
  {
    if n < 10 then [DigitChar(n)] else NatDigits(n / 10) + [DigitChar(n % 10)]
  }

  /** The value of a string of decimal digits (0 for the empty string). */
  function DigitsValue(s: string): nat
    requires AllDigits(s)
  {
    if s == [] then 0 else DigitsValue(s[..|s| - 1]) * 10 + DigitValue(s[|s| - 1])
  }

  /** `String.valueOf(long)`: an optional minus sign followed by the digits of
      the magnitude, with no leading zero and no plus sign. */
  function ToDecimal(n: int): (s: string)
    ensures |s| > 0
    ensures s[0] == '-' <==> n < 0
    ensures AllDigits(if n < 0 then s[1..] else s)
    ensures CanonicalDecimal(s)
  {
    if n < 0 then "-" + NatDigits(-n) else NatDigits(n)
  }

  /** The strings that `String.valueOf(long)` can produce: an optional minus
      sign, then digits without a leading zero, and "0" written only as "0". */
  predicate CanonicalDecimal(s: string) {
    var digits := if |s| > 0 && s[0] == '-' then s[1..] else s;
    |digits| > 0 && AllDigits(digits) && (digits[0] == '0' ==> s == "0")
  }

  /** `Long.parseLong(s)`: an optional '-' or '+', then at least one decimal
      digit, and the value must fit in a `long`; anything else throws
      `NumberFormatException`, modelled as `None`. */
  function ParseLong(s: string): (r: Option<Long>)
    ensures r.Some? ==> |s| > 0 && (IsDigit(s[0]) || s[0] == '-' || s[0] == '+')
    ensures r.Some? ==> forall i :: 0 < i < |s| ==> IsDigit(s[i])
    ensures r.Some? ==> (r.value < 0 ==> s[0] == '-')
  {
    if |s| == 0 then None
    else
      var negative := s[0] == '-';
      var digits := if s[0] == '-' || s[0] == '+' then s[1..] else s;
      if |digits| == 0 || !AllDigits(digits) then None
      else
        var magnitude: int := DigitsValue(digits);
        var v := if negative then -magnitude else magnitude;
        if MinLong <= v <= MaxLong then Some(v) else None
  }

  lemma {:induction false} NatDigitsValue(n: nat)
    ensures DigitsValue(NatDigits(n)) == n
  {
    if n >= 10 {
      NatDigitsValue(n / 10);
      var s := NatDigits(n);
      assert s[..|s| - 1] == NatDigits(n / 10);
    }
  }

  /** A digit string whose first digit is not zero has at least that digit's value. */
  lemma {:induction false} LeadingDigitBound(s: string)
    requires |s| > 0 && AllDigits(s)
    ensures DigitsValue(s) >= DigitValue(s[0])
  {
    if |s| > 1 {
      var p := s[..|s| - 1];
      assert p[0] == s[0];
      LeadingDigitBound(p);
    }
  }

  lemma {:induction false} DigitsValueDigits(s: string)
    requires |s| > 0 && AllDigits(s)
    requires s[0] == '0' ==> |s| == 1
    ensures NatDigits(DigitsValue(s)) == s
  {
    if |s| > 1 {
      var p := s[..|s| - 1];
      assert p[0] == s[0];
      LeadingDigitBound(p);
      DigitsValueDigits(p);
      assert s == p + [s[|s| - 1]];
    }
  }

  /** `Long.parseLong(String.valueOf(n)) == n` for every `long`. */
  lemma ParseToDecimal(n: Long)
    ensures ParseLong(ToDecimal(n)) == Some(n)
  {
    var s := ToDecimal(n);
    if n < 0 {
      var m: nat := -(n as int);
      NatDigitsValue(m);
      assert s == "-" + NatDigits(m);
      assert s[1..] == NatDigits(m);
      assert DigitsValue(s[1..]) == m;
    } else {
      NatDigitsValue(n);
      assert s == NatDigits(n);
      assert IsDigit(s[0]);
    }
  }

  /** The converse: a canonical decimal that parses to `n` is exactly
      `String.valueOf(n)`. */
  lemma ToDecimalOfParse(s: string)
    requires CanonicalDecimal(s) && ParseLong(s).Some?
    ensures ToDecimal(ParseLong(s).value) == s
  {
    if s[0] == '-' {
      var digits := s[1..];
      LeadingDigitBound(digits);
      DigitsValueDigits(digits);
      assert s == "-" + digits;
    } else {
      DigitsValueDigits(s);
    }
  }

  /** `k` zero digits. */
  function Zeros(k: nat): (s: string)
    ensures |s| == k && AllDigits(s)
    ensures forall i :: 0 <= i < k ==> s[i] == '0'
  {
    seq(k, _ => '0')
  }

  /** Leading zeros do not change the value of a digit string. */
  lemma {:induction false} LeadingZerosValue(k: nat, s: string)
    requires AllDigits(s)
    ensures AllDigits(Zeros(k) + s) && DigitsValue(Zeros(k) + s) == DigitsValue(s)
  {
    var t := Zeros(k) + s;
    if s == [] {
      assert t == Zeros(k);
      if k > 0 {
        assert t[..|t| - 1] == Zeros(k - 1);
        LeadingZerosValue(k - 1, []);
        assert Zeros(k - 1) + [] == Zeros(k - 1);
      }
    } else {
      var p := s[..|s| - 1];
      assert t[..|t| - 1] == Zeros(k) + p;
      assert t[|t| - 1] == s[|s| - 1];
      LeadingZerosValue(k, p);
    }
  }

  /** Every optional sign followed by at least one digit is accepted exactly
      when its value fits a `long`, and then yields that value. */
  lemma ParseLongAccepts(sign: string, digits: string)
    requires sign == "" || sign == "+" || sign == "-"
    requires |digits| > 0 && AllDigits(digits)
    ensures var v: int := if sign == "-" then 0 - DigitsValue(digits) as int else DigitsValue(digits);
      ParseLong(sign + digits) == if MinLong <= v <= MaxLong then Some(v) else None
  {
    var s := sign + digits;
    if sign == "" {
      assert s == digits;
      assert IsDigit(s[0]);
    } else {
      assert s[1..] == digits;
    }
  }

  /** Non-canonical spellings of a value parse to that value: leading zeros,
      a '+' sign, and a '-' before a zero-padded magnitude (so "-0" is 0). */
  lemma ParseLongLeadingZeros(k: nat, n: nat)
    requires n <= MaxLong
    ensures ParseLong(Zeros(k) + NatDigits(n)) == Some(n)
  {
    var digits := Zeros(k) + NatDigits(n);
    NatDigitsValue(n);
    LeadingZerosValue(k, NatDigits(n));
    ParseLongAccepts("", digits);
    assert "" + digits == digits;
  }

  lemma ParseLongPlusSign(k: nat, n: nat)
    requires n <= MaxLong
    ensures ParseLong("+" + Zeros(k) + NatDigits(n)) == Some(n)
  {
    var digits := Zeros(k) + NatDigits(n);
    NatDigitsValue(n);
    LeadingZerosValue(k, NatDigits(n));
    ParseLongAccepts("+", digits);
    assert "+" + Zeros(k) + NatDigits(n) == "+" + digits;
  }

  lemma ParseLongMinusSign(k: nat, m: nat)
    requires m <= -MinLong
    ensures ParseLong("-" + Zeros(k) + NatDigits(m)) == Some(-(m as int))
  {
    var digits := Zeros(k) + NatDigits(m);
    NatDigitsValue(m);
    LeadingZerosValue(k, NatDigits(m));
    ParseLongAccepts("-", digits);
    assert "-" + Zeros(k) + NatDigits(m) == "-" + digits;
  }

  /** Distinct `long`s have distinct decimal strings. */
  lemma ToDecimalInjective(a: Long, b: Long)
    requires ToDecimal(a) == ToDecimal(b)
    ensures a == b
  {
    ParseToDecimal(a);
    ParseToDecimal(b);
  }

  // ---------- whitespace ----------

  /** `Character.isWhitespace`: the ASCII controls TAB, LF, VT, FF, CR and
      U+001C..U+001F, and the Unicode space, line and paragraph separators
      except the non-breaking ones (U+00A0, U+2007, U+202F). */
  predicate IsWhitespace(c: char) {
    || c == ' '
    || '\t' <= c <= '\r'
    || '\U{1C}' <= c <= '\U{1F}'
    || c == '\U{1680}'
    || '\U{2000}' <= c <= '\U{2006}'
    || '\U{2008}' <= c <= '\U{200A}'
    || c == '\U{2028}' || c == '\U{2029}'
    || c == '\U{205F}'
    || c == '\U{3000}'
  }

  /** `StringUtils.hasText` on a non-null string: some character is not whitespace. */
  predicate HasText(s: string) {
    exists i :: 0 <= i < |s| && !IsWhitespace(s[i])
  }
}
