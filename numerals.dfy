/** Numerals as the assembler reads them: Python's `int(a)` (decimal) and
    `int(a, 16)` (hexadecimal, with an optional `0x` prefix), and the test
    `is_str_10or16based_num` built from the two. Only plain digit strings
    are modelled: signs, underscores and surrounding blanks are not. */
module Numerals {
  import opened Outcome

  predicate IsDecDigit(c: char)
  {
    '0' <= c <= '9'
  }

  predicate IsHexDigit(c: char)
  {
    '0' <= c <= '9' || 'a' <= c <= 'f' || 'A' <= c <= 'F'
  }

  /** A non-empty string of decimal digits. */
  predicate IsDecimal(s: string)
  {
    |s| > 0 && forall i :: 0 <= i < |s| ==> IsDecDigit(s[i])
  }

  /** A non-empty string of hexadecimal digits, either case. */
  predicate IsHexDigits(s: string)
  {
    |s| > 0 && forall i :: 0 <= i < |s| ==> IsHexDigit(s[i])
  }

  /** The base prefix `int(a, 16)` accepts. */
  predicate HasHexPrefix(s: string)
  {
    |s| >= 2 && s[0] == '0' && (s[1] == 'x' || s[1] == 'X')
  }

  function DigitValue(c: char): (d: nat)
    requires IsHexDigit(c)
    ensures d < 16
    ensures IsDecDigit(c) ==> d < 10
  {
    if '0' <= c <= '9' then c as int - '0' as int
    else if 'a' <= c <= 'f' then c as int - 'a' as int + 10
    else c as int - 'A' as int + 10
  }

  /** Value of a digit string read in base 10. */
  function DecValue(s: string): nat
    requires forall i :: 0 <= i < |s| ==> IsDecDigit(s[i])
  {
    if s == [] then 0
    else
      assert IsDecDigit(s[|s| - 1]);
      10 * DecValue(s[..|s| - 1]) + (s[|s| - 1] as int - '0' as int)
  }

  /** Value of a digit string read in base 16. */
  function HexValue(s: string): nat
    requires forall i :: 0 <= i < |s| ==> IsHexDigit(s[i])
  {
    if s == [] then 0 else 16 * HexValue(s[..|s| - 1]) + DigitValue(s[|s| - 1])
  }

  function Pow10(n: nat): (p: nat)
    ensures p >= 1
  {
    if n == 0 then 1 else 10 * Pow10(n - 1)
  }

  /** Decimal digit strings are closed under concatenation. */
  lemma DigitsConcat(a: string, b: string)
    requires forall i :: 0 <= i < |a| ==> IsDecDigit(a[i])
    requires forall i :: 0 <= i < |b| ==> IsDecDigit(b[i])
    ensures forall i :: 0 <= i < |a + b| ==> IsDecDigit((a + b)[i])
  {
    forall i | 0 <= i < |a + b|
      ensures IsDecDigit((a + b)[i])
    {
      if i < |a| {
        assert (a + b)[i] == a[i];
      } else {
        assert (a + b)[i] == b[i - |a|];
      }
    }
  }

  lemma ShiftDecimal(x: int, p: int, c: int, d: int)
    ensures 10 * (x * p + c) + d == x * (10 * p) + (10 * c + d)
  {
  }

  /** Positional reading: the digits of a count Pow10(|b|) times as much
      in front of b. */
  lemma {:induction false} DecValueAppend(a: string, b: string)
    requires forall i :: 0 <= i < |a| ==> IsDecDigit(a[i])
    requires forall i :: 0 <= i < |b| ==> IsDecDigit(b[i])
    ensures forall i :: 0 <= i < |a + b| ==> IsDecDigit((a + b)[i])
    ensures DecValue(a + b) == DecValue(a) * Pow10(|b|) + DecValue(b)
  {
    DigitsConcat(a, b);
    if b == [] {
      assert a + b == a;
    } else {
      var c := b[..|b| - 1];
      var d := b[|b| - 1] as int - '0' as int;
      assert (a + b)[..|a + b| - 1] == a + c;
      assert (a + b)[|a + b| - 1] == b[|b| - 1];
      DecValueAppend(a, c);
      assert DecValue(a + b) == 10 * DecValue(a + c) + d;
      assert DecValue(b) == 10 * DecValue(c) + d;
      ShiftDecimal(DecValue(a), Pow10(|c|), DecValue(c), d);
    }
  }

  /** The character of a decimal digit. */
  function DigitChar(k: nat): (c: char)
    requires k < 10
    ensures IsDecDigit(c) && c as int - '0' as int == k
  {
    (k + '0' as int) as char
  }

  /** A value's decimal digits, most significant first: Python's `str(n)`. */
  function DecimalText(n: nat): (s: string)
    ensures IsDecimal(s)
    decreases n
  {
    if n < 10 then [DigitChar(n)] else DecimalText(n / 10) + [DigitChar(n % 10)]
  }

  /** `int(str(n)) == n`. */
  lemma {:induction false} DecimalTextValue(n: nat)
    ensures ParseDec(DecimalText(n)) == Ok(n)
    decreases n
  {
    var s := DecimalText(n);
    if n >= 10 {
      DecimalTextValue(n / 10);
      assert s[..|s| - 1] == DecimalText(n / 10);
      assert DecValue(s) == 10 * DecValue(DecimalText(n / 10)) + n % 10;
    } else {
      assert s[..0] == [];
    }
  }

  /** `int(a)`: a decimal numeral, or a ValueError. */
  function ParseDec(a: string): (r: Result<nat>)
    ensures r.Ok? <==> IsDecimal(a)
    ensures r.Ok? ==> r.value == DecValue(a)
    ensures r.Err? ==> r.error == BadNumeral(a)
  {
    if IsDecimal(a) then Ok(DecValue(a)) else Err(BadNumeral(a))
  }

  /** `int(a, 16)`: hexadecimal digits, optionally after `0x`, or a ValueError. */
  function ParseHex(a: string): (r: Result<nat>)
    ensures r.Ok? <==> IsHexDigits(a) || (HasHexPrefix(a) && IsHexDigits(a[2..]))
    ensures r.Ok? && IsHexDigits(a) ==> r.value == HexValue(a)
    ensures r.Ok? && !IsHexDigits(a) ==> r.value == HexValue(a[2..])
    ensures r.Err? ==> r.error == BadNumeral(a)
  {
    if IsHexDigits(a) then Ok(HexValue(a))
    else if HasHexPrefix(a) && IsHexDigits(a[2..]) then Ok(HexValue(a[2..]))
    else Err(BadNumeral(a))
  }

  /** is_str_10or16based_num: true when either `int(a)` or `int(a, 16)`
      succeeds. Since every decimal numeral is also a string of hex digits,
      this is exactly "hex digits, optionally after 0x": a bare hex word
      such as `beef` counts as a numeral. */
  function IsNumeral(a: string): (b: bool)
    ensures b <==> IsHexDigits(a) || (HasHexPrefix(a) && IsHexDigits(a[2..]))
    ensures IsDecimal(a) ==> b
  {
    ParseDec(a).Ok? || ParseHex(a).Ok?
  }

  /** On a decimal numeral `int(a)` and `int(a, 16)` both succeed, so the
      numeral test cannot tell which base the later parse will use. */
  lemma DecimalIsAlsoHex(a: string)
    requires IsDecimal(a)
    ensures ParseDec(a).Ok? && ParseHex(a).Ok?
  {
  }
}
