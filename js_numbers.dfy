/**
 * JavaScript number <-> string conversions as the backend uses them on integers:
 * template-literal interpolation of an integer (`${n}`) and `Number.parseInt(s)`
 * with no radix argument. `Number.parseInt` yields NaN, modelled as `None`, when no
 * digit can be read.
 */
module JsNumbers {
  import opened Wrappers
  import opened JsStrings

  /** The value of `c` as a digit in radices up to 36, or 36 when `c` is not `[0-9A-Za-z]`. */
  function DigitValue(c: char): (v: nat)
    ensures v <= 36
    ensures v < 10 <==> IsDigit(c)
  {
    if '0' <= c <= '9' then c as int - '0' as int
    else if 'a' <= c <= 'z' then c as int - 'a' as int + 10
    else if 'A' <= c <= 'Z' then c as int - 'A' as int + 10
    else 36
  }

  /** `c` is an ASCII letter or digit. */
  predicate IsAlphanumeric(c: char)
  {
    DigitValue(c) < 36
  }

  /** The decimal digit character for `d`. */
  function DigitChar(d: nat): (c: char)
    requires d < 10
    ensures IsDigit(c) && DigitValue(c) == d
  {
    ('0' as int + d) as char
  }

  /** The shortest decimal numeral of `n`: no sign and no leading zero. */
  function NatToDecimal(n: nat): (r: string)
    ensures r != []
    ensures forall k :: 0 <= k < |r| ==> IsDigit(r[k])
    ensures |r| > 1 ==> r[0] != '0'
  {
    if n < 10 then [DigitChar(n)] else NatToDecimal(n / 10) + [DigitChar(n % 10)]
  }

  /** `${n}` for an integer `n` (JavaScript writes integers below 10^21 in plain decimal). */
  function IntToString(n: int): (r: string)
    ensures r != [] && (r[0] == '-' <==> n < 0)
    ensures forall k :: (if n < 0 then 1 else 0) <= k < |r| ==> IsDigit(r[k])
  {
    if n < 0 then "-" + NatToDecimal(-n) else NatToDecimal(n)
  }

  /** The number of leading characters of `s` that are digits of `radix`. */
  function DigitRun(s: string, radix: nat): (n: nat)
    ensures n <= |s|
    ensures forall k :: 0 <= k < n ==> DigitValue(s[k]) < radix
    ensures n < |s| ==> DigitValue(s[n]) >= radix
  {
    if s == [] || DigitValue(s[0]) >= radix then 0 else 1 + DigitRun(s[1..], radix)
  }

  /** The value of the numeral `ds`, most significant digit first. */
  function NumeralValue(ds: string, radix: nat): (v: nat)
  {
    if ds == [] then 0
    else NumeralValue(ds[..|ds| - 1], radix) * radix + DigitValue(ds[|ds| - 1])
  }

  /**
   * `Number.parseInt(s)`: skip leading white space, read an optional sign, switch to
   * radix 16 after a `0x`/`0X` prefix, then read the longest run of digits; NaN
   * (`None`) when that run is empty. Whatever follows the digits is ignored.
   */
  function ParseInt(s: string): (r: Option<int>)
    ensures var t := TrimStart(s);
            r.Some? ==> t != [] && (IsDigit(t[0]) || t[0] == '-' || t[0] == '+')
  {
    ParseSigned(TrimStart(s))
  }

  /** The sign step of `Number.parseInt`, after the leading white space is gone. */
  function ParseSigned(t: string): (r: Option<int>)
  {
    if t != [] && t[0] == '-' then Negate(ParseUnsigned(t[1..]))
    else if t != [] && t[0] == '+' then ParseUnsigned(t[1..])
    else ParseUnsigned(t)
  }

  /** `-x`, with `-NaN` still NaN. */
  function Negate(x: Option<int>): (r: Option<int>)
    ensures r.Some? <==> x.Some?
  {
    if x.None? then None else Some(-x.value)
  }

  /** The radix step of `Number.parseInt`, after the sign: a `0x`/`0X` prefix selects radix 16. */
  function ParseUnsigned(u: string): (r: Option<int>)
    ensures r.Some? ==> r.value >= 0
  {
    if HasHexPrefix(u) then ParseDigits(u[2..], 16) else ParseDigits(u, 10)
  }

  predicate HasHexPrefix(u: string)
  {
    |u| >= 2 && u[0] == '0' && (u[1] == 'x' || u[1] == 'X')
  }

  /** The digit step of `Number.parseInt`: the value of the longest run of digits, NaN if none. */
  function ParseDigits(body: string, radix: nat): (r: Option<int>)
    ensures r.Some? ==> r.value >= 0
  {
    var n := DigitRun(body, radix);
    if n == 0 then None else Some(NumeralValue(body[..n], radix))
  }

  lemma {:induction false} DigitRunOfNumeral(ds: string, rest: string)
    requires forall k :: 0 <= k < |ds| ==> IsDigit(ds[k])
    requires rest == [] || !IsDigit(rest[0])
    ensures DigitRun(ds + rest, 10) == |ds|
  {
    if ds != [] {
      assert (ds + rest)[1..] == ds[1..] + rest;
      DigitRunOfNumeral(ds[1..], rest);
    }
  }

  lemma {:induction false} NumeralValueOfDecimal(n: nat)
    ensures NumeralValue(NatToDecimal(n), 10) == n
  {
    if n >= 10 {
      var ds := NatToDecimal(n);
      assert ds[..|ds| - 1] == NatToDecimal(n / 10);
      NumeralValueOfDecimal(n / 10);
    }
  }

  /**
   * Reading back an interpolated integer: `Number.parseInt` of `${n}` followed by any
   * text that does not begin with a letter or digit gives `n` again.
   */
  lemma {:induction false} ParseIntOfIntToString(n: int, rest: string)
    requires rest == [] || !IsAlphanumeric(rest[0])
    ensures ParseInt(IntToString(n) + rest) == Some(n)
  {
    if n < 0 {
      ParseIntOfNegative(n, rest);
    } else {
      var s := NatToDecimal(n) + rest;
      assert IsDigit(s[0]);
      TrimStartKeeps(s);
      ParseUnsignedOfDecimal(n, rest);
    }
  }

  lemma {:induction false} ParseIntOfNegative(n: int, rest: string)
    requires n < 0
    requires rest == [] || !IsAlphanumeric(rest[0])
    ensures ParseInt(IntToString(n) + rest) == Some(n)
  {
    var m: nat := -n;
    var u := NatToDecimal(m) + rest;
    NegativeNumeral(n, rest);
    ParseIntUntrimmed("-" + u);
    ParseSignedMinus(u);
    ParseUnsignedOfDecimal(m, rest);
  }

  lemma NegativeNumeral(n: int, rest: string)
    requires n < 0
    ensures ParseInt(IntToString(n) + rest) == ParseInt("-" + (NatToDecimal(-n) + rest))
  {
    assert IntToString(n) + rest == "-" + (NatToDecimal(-n) + rest);
  }

  lemma ParseSignedMinus(u: string)
    ensures ParseSigned("-" + u) == Negate(ParseUnsigned(u))
  {
    assert ("-" + u)[1..] == u;
  }

  lemma ParseIntUntrimmed(s: string)
    requires s != [] && !IsWhitespace(s[0])
    ensures ParseInt(s) == ParseSigned(s)
  {
  }

  lemma TrimStartKeeps(s: string)
    requires s != [] && (s[0] == '-' || IsDigit(s[0]))
    ensures TrimStart(s) == s
  {
  }

  lemma {:induction false} ParseUnsignedOfDecimal(m: nat, rest: string)
    requires rest == [] || !IsAlphanumeric(rest[0])
    ensures ParseUnsigned(NatToDecimal(m) + rest) == Some(m)
  {
    var ds := NatToDecimal(m);
    var u := ds + rest;
    assert !HasHexPrefix(u) by {
      if |ds| > 1 {
        assert u[0] == ds[0];
      } else if rest != [] {
        assert u[1] == rest[0];
      }
    }
    DigitRunOfNumeral(ds, rest);
    NumeralValueOfDecimal(m);
    assert u[..|ds|] == ds;
  }

  /** `Number.parseInt` yields NaN on text with no leading digit, such as `undefined` or `N/A`. */
  lemma ParseIntNaN(s: string)
    requires s != [] && !IsWhitespace(s[0]) && !IsDigit(s[0]) && s[0] != '-' && s[0] != '+'
    ensures ParseInt(s) == None
  {
  }

  /** A missing form field reaches `Number.parseInt` as `undefined`, which reads as NaN. */
  lemma ParseIntUndefined()
    ensures ParseInt("undefined") == None
  {
    ParseIntNaN("undefined");
  }
}
