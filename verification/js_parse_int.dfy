/** ECMAScript's global `parseInt(string)` with no radix argument, as the
    settings page calls it: leading white space is skipped, one optional sign is
    read, a `0x`/`0X` prefix selects base 16 (otherwise base 10), and the longest
    run of digits of that base is read. No digits at all is `NaN`, modelled as
    `None`. */
module JsParseInt {
  import opened Wrappers
  import Text

  /** The value of a digit character in bases up to 36; 36 for anything else. */
  function DigitValue(c: char): (v: nat)
    ensures v <= 36
  {
    if '0' <= c <= '9' then c as int - '0' as int
    else if 'a' <= c <= 'z' then c as int - 'a' as int + 10
    else if 'A' <= c <= 'Z' then c as int - 'A' as int + 10
    else 36
  }

  predicate IsDigitOf(c: char, radix: nat) {
    DigitValue(c) < radix
  }

  /** The longest prefix of `s` made of digits of base `radix`. */
  function DigitPrefix(s: string, radix: nat): (ds: string)
    ensures |ds| <= |s| && ds == s[..|ds|]
    ensures forall i :: 0 <= i < |ds| ==> IsDigitOf(ds[i], radix)
    ensures |ds| < |s| ==> !IsDigitOf(s[|ds|], radix)
  {
    if |s| > 0 && IsDigitOf(s[0], radix) then [s[0]] + DigitPrefix(s[1..], radix) else []
  }

  /** The number a digit string denotes, most significant digit first. */
  function DigitsValue(ds: string, radix: nat): nat {
    if |ds| == 0 then 0
    else DigitsValue(ds[..|ds| - 1], radix) * radix + DigitValue(ds[|ds| - 1])
  }

  /** `parseInt(s)`; `None` stands for `NaN`. Text without a decimal digit
      has no number to read, not even behind a `0x` prefix, which starts with
      the digit `0`. */
  function ParseInt(s: string): (r: Option<int>)
    ensures NoDecimalDigit(s) ==> r == None
  {
    var t := Text.TrimStart(s);
    NoDecimalDigitSuffix(s, |s| - |t|);
    SignedNoDigits(t);
    ParseSigned(t)
  }

  /** After the white space: one optional sign, then the magnitude. */
  function ParseSigned(t: string): Option<int> {
    if |t| > 0 && t[0] == '-' then Negate(ParseMagnitude(t[1..]))
    else if |t| > 0 && t[0] == '+' then ParseMagnitude(t[1..])
    else ParseMagnitude(t)
  }

  function Negate(v: Option<nat>): Option<int> {
    match v
    case None => None
    case Some(k) => Some(-(k as int))
  }

  /** The unsigned part of `parseInt`: a `0x`/`0X` prefix selects base 16,
      otherwise base 10, then the longest run of digits is read. */
  function ParseMagnitude(u: string): Option<nat> {
    var hex := |u| >= 2 && u[0] == '0' && (u[1] == 'x' || u[1] == 'X');
    var radix := if hex then 16 else 10;
    var ds := DigitPrefix(if hex then u[2..] else u, radix);
    if |ds| == 0 then None else Some(DigitsValue(ds, radix))
  }

  /** The decimal digit for `d`. */
  function DigitChar(d: nat): (c: char)
    requires d < 10
    ensures IsDigitOf(c, 10) && DigitValue(c) == d
  {
    ('0' as int + d) as char
  }

  /** The plain decimal digits of a natural number, without leading zeros. */
  function NatToDecimal(n: nat): (s: string)
    ensures |s| >= 1
    ensures forall i :: 0 <= i < |s| ==> IsDigitOf(s[i], 10)
    ensures n > 0 ==> s[0] != '0'
  {
    if n < 10 then [DigitChar(n)] else NatToDecimal(n / 10) + [DigitChar(n % 10)]
  }

  /** The decimal rendering of an integer, with a leading `-` when negative. */
  function IntToDecimal(n: int): string {
    if n < 0 then "-" + NatToDecimal(-n) else NatToDecimal(n)
  }

  /** Reading back the digits of a decimal rendering gives the number. */
  lemma {:induction false} DecimalValue(n: nat)
    ensures DigitsValue(NatToDecimal(n), 10) == n
  {
    if n >= 10 {
      DecimalValue(n / 10);
      var s := NatToDecimal(n);
      assert s[..|s| - 1] == NatToDecimal(n / 10);
    }
  }

  /** The digit prefix stops exactly where the digits stop. */
  lemma {:induction false} DigitPrefixOfDigits(ds: string, rest: string, radix: nat)
    requires forall i :: 0 <= i < |ds| ==> IsDigitOf(ds[i], radix)
    requires rest == [] || !IsDigitOf(rest[0], radix)
    ensures DigitPrefix(ds + rest, radix) == ds
  {
    if ds != [] {
      assert (ds + rest)[1..] == ds[1..] + rest;
      DigitPrefixOfDigits(ds[1..], rest, radix);
      assert ds == [ds[0]] + ds[1..];
    } else {
      assert ds + rest == rest;
    }
  }

  /** `parseInt` reads back any integer from its decimal rendering, and ignores
      whatever follows it as long as that does not continue the number (a
      further digit, or an `x` turning a lone `0` into a hexadecimal prefix). */
  lemma {:induction false} ParseIntOfDecimal(n: int, suffix: string)
    requires suffix == [] || (!IsDigitOf(suffix[0], 10) && suffix[0] != 'x' && suffix[0] != 'X')
    ensures ParseInt(IntToDecimal(n) + suffix) == Some(n)
  {
    if n < 0 {
      NegativeRoundTrip(n, suffix);
    } else {
      NonNegativeRoundTrip(n, suffix);
      assert IntToDecimal(n) == NatToDecimal(n);
    }
  }

  lemma NegativeRoundTrip(n: int, suffix: string)
    requires n < 0
    requires suffix == [] || (!IsDigitOf(suffix[0], 10) && suffix[0] != 'x' && suffix[0] != 'X')
    ensures ParseInt(IntToDecimal(n) + suffix) == Some(n)
  {
    var s := IntToDecimal(n) + suffix;
    NegativeSigned(n, suffix);
    ParseIntOfTrimmed(s);
  }

  /** Below `ParseInt`'s trimming: the sign and the digits of a negative number. */
  lemma NegativeSigned(n: int, suffix: string)
    requires n < 0
    requires suffix == [] || (!IsDigitOf(suffix[0], 10) && suffix[0] != 'x' && suffix[0] != 'X')
    ensures var s := IntToDecimal(n) + suffix;
            |s| > 0 && s[0] == '-' && ParseSigned(s) == Some(n)
  {
    var s := IntToDecimal(n) + suffix;
    var k: nat := -n;
    assert |s| > 0 && s[0] == '-' && s[1..] == NatToDecimal(k) + suffix by {
      NegativeShape(n, suffix);
    }
    assert ParseMagnitude(s[1..]) == Some(k) by {
      ParseMagnitudeOfDecimal(k, suffix);
    }
  }

  /** Text that does not start with white space goes straight to the sign. */
  lemma ParseIntOfTrimmed(s: string)
    requires s == [] || !Text.IsWhiteSpace(s[0])
    ensures ParseInt(s) == ParseSigned(s)
  {
    Text.TrimStartKeeps(s);
  }

  lemma NegativeShape(n: int, suffix: string)
    requires n < 0
    ensures var s := IntToDecimal(n) + suffix;
            |s| > 0 && s[0] == '-' && s[1..] == NatToDecimal(-n) + suffix
  {
    var s := IntToDecimal(n) + suffix;
    assert s == "-" + (NatToDecimal(-n) + suffix);
  }

  lemma NonNegativeRoundTrip(m: nat, suffix: string)
    requires suffix == [] || (!IsDigitOf(suffix[0], 10) && suffix[0] != 'x' && suffix[0] != 'X')
    ensures ParseInt(NatToDecimal(m) + suffix) == Some(m as int)
  {
    var u := NatToDecimal(m) + suffix;
    ParseMagnitudeOfDecimal(m, suffix);
    assert u[0] == NatToDecimal(m)[0];
    ParseIntUnsigned(u);
  }

  lemma ParseIntUnsigned(u: string)
    requires |u| > 0 && IsDigitOf(u[0], 10)
    ensures ParseInt(u) == ParseMagnitude(u)
  {
    Text.TrimStartKeeps(u);
  }

  lemma {:induction false} ParseMagnitudeOfDecimal(m: nat, suffix: string)
    requires suffix == [] || (!IsDigitOf(suffix[0], 10) && suffix[0] != 'x' && suffix[0] != 'X')
    ensures ParseMagnitude(NatToDecimal(m) + suffix) == Some(m)
  {
    var digits := NatToDecimal(m);
    var u := digits + suffix;
    DecimalValue(m);
    DigitPrefixOfDigits(digits, suffix, 10);
    assert !(|u| >= 2 && u[0] == '0' && (u[1] == 'x' || u[1] == 'X')) by {
      if m == 0 {
        assert |digits| == 1;
        if |u| >= 2 {
          assert u[1] == suffix[0];
        }
      } else {
        assert u[0] == digits[0];
      }
    }
  }

  /** No character of `u` is a decimal digit. */
  predicate NoDecimalDigit(u: string) {
    forall i :: 0 <= i < |u| ==> !IsDigitOf(u[i], 10)
  }

  lemma NoDecimalDigitSuffix(u: string, k: nat)
    requires k <= |u|
    ensures NoDecimalDigit(u) ==> NoDecimalDigit(u[k..])
  {
    if NoDecimalDigit(u) {
      forall i | 0 <= i < |u[k..]| ensures !IsDigitOf(u[k..][i], 10) {
        assert u[k..][i] == u[k + i];
      }
    }
  }

  lemma SignedNoDigits(t: string)
    ensures NoDecimalDigit(t) ==> ParseSigned(t) == None
  {
    if |t| > 0 && (t[0] == '-' || t[0] == '+') {
      NoDecimalDigitSuffix(t, 1);
      MagnitudeNoDigits(t[1..]);
    } else {
      MagnitudeNoDigits(t);
    }
  }

  lemma MagnitudeNoDigits(u: string)
    ensures NoDecimalDigit(u) ==> ParseMagnitude(u) == None
  {
    if |u| > 0 && NoDecimalDigit(u) {
      assert !IsDigitOf(u[0], 10);
      assert u[0] != '0';
      assert DigitPrefix(u, 10) == [];
    }
  }
}
