/** The 8-byte field of an instruction word: `bige2lite` formats a number as
    16 hex digits ("%0.16x") and writes its byte pairs in reverse order,
    giving the little-endian byte order of the target machine. */
module HexField {
  import opened Tables
  import opened Numerals

  function Pow16(n: nat): (p: nat)
    ensures p >= 1
  {
    if n == 0 then 1 else 16 * Pow16(n - 1)
  }

  /** The lower-case digit `%x` prints for d. */
  function HexDigit(d: nat): (c: char)
    requires d < 16
    ensures IsLowerHexChar(c) && IsHexDigit(c) && DigitValue(c) == d
  {
    if d < 10 then ('0' as int + d) as char else ('a' as int + d - 10) as char
  }

  predicate IsLowerHex(s: string)
  {
    forall i :: 0 <= i < |s| ==> IsLowerHexChar(s[i])
  }

  /** Lower-case hex text is hex text, as `int(_, 16)` reads it. */
  lemma LowerHexIsHex(s: string)
    requires IsLowerHex(s)
    ensures forall i :: 0 <= i < |s| ==> IsHexDigit(s[i])
  {
  }

  /** The last n hex digits of a, most significant first. */
  function FixedHex(a: nat, n: nat): (r: string)
    ensures |r| == n && IsLowerHex(r)
  {
    if n == 0 then [] else FixedHex(a / 16, n - 1) + [HexDigit(a % 16)]
  }

  /** Reading n digits back gives a, when a fits in n digits. */
  lemma {:induction false} FixedHexValue(a: nat, n: nat)
    requires a < Pow16(n)
    ensures HexValue(FixedHex(a, n)) == a
  {
    if n > 0 {
      var r := FixedHex(a, n);
      assert r[..n - 1] == FixedHex(a / 16, n - 1);
      FixedHexValue(a / 16, n - 1);
    }
  }

  /** Digits `%x` needs for a (one for zero). */
  function NumHexDigits(a: nat): (n: nat)
    ensures 1 <= n && a < Pow16(n)
    ensures n > 1 ==> Pow16(n - 1) <= a
  {
    if a < 16 then 1 else 1 + NumHexDigits(a / 16)
  }

  lemma {:induction false} NumHexDigitsBound(a: nat, n: nat)
    requires 1 <= n && a < Pow16(n)
    ensures NumHexDigits(a) <= n
  {
    if a >= 16 {
      NumHexDigitsBound(a / 16, n - 1);
    }
  }

  /** "%0.16x" % a: the hex digits of a, zero-padded on the left to at
      least 16 characters; a number of 2^64 or more keeps all its digits. */
  function FormatHex16(a: nat): (r: string)
    ensures |r| >= 16 && IsLowerHex(r)
  {
    FixedHex(a, if NumHexDigits(a) < 16 then 16 else NumHexDigits(a))
  }

  /** "%0.16x" loses nothing: its digits read back as a, and a text longer
      than 16 characters has no leading zero. */
  lemma FormatHex16Value(a: nat)
    ensures HexValue(FormatHex16(a)) == a
    ensures |FormatHex16(a)| > 16 ==> FormatHex16(a)[0] != '0'
  {
    var n := NumHexDigits(a);
    if n < 16 {
      assert a < Pow16(16) by { PowMonotone(n, 16); }
      FixedHexValue(a, 16);
    } else {
      FixedHexValue(a, n);
      if n > 16 {
        FixedHexLeadingDigit(a, n);
      }
    }
  }

  lemma {:induction false} PowMonotone(m: nat, n: nat)
    requires m <= n
    ensures Pow16(m) <= Pow16(n)
  {
    if m < n {
      PowMonotone(m, n - 1);
    }
  }

  /** The first of n digits is non-zero when a needs all n of them. */
  lemma {:induction false} FixedHexLeadingDigit(a: nat, n: nat)
    requires 1 < n && Pow16(n - 1) <= a < Pow16(n)
    ensures FixedHex(a, n)[0] != '0'
  {
    if n == 2 {
      assert 1 <= a / 16 < 16;
      assert FixedHex(a / 16, 1) == [HexDigit(a / 16 % 16)];
    } else {
      FixedHexLeadingDigit(a / 16, n - 1);
    }
  }

  /** Below 2^64, "%0.16x" is exactly 16 digits. */
  lemma FormatHex16Small(a: nat)
    requires a < Pow16(16)
    ensures FormatHex16(a) == FixedHex(a, 16)
  {
    NumHexDigitsBound(a, 16);
  }

  /** The two-character groups of t in reverse order. */
  function ReversePairs(t: string): (r: string)
    requires |t| % 2 == 0
    ensures |r| == |t|
  {
    if t == [] then [] else ReversePairs(t[2..]) + t[..2]
  }

  /** Reordering the groups keeps the text lower-case hex. */
  lemma {:induction false} ReversePairsLowerHex(t: string)
    requires |t| % 2 == 0 && IsLowerHex(t)
    ensures IsLowerHex(ReversePairs(t))
  {
    if t != [] {
      ReversePairsLowerHex(t[2..]);
    }
  }

  lemma {:induction false} ReversePairsAppend(x: string, y: string)
    requires |x| % 2 == 0 && |y| % 2 == 0
    ensures ReversePairs(x + y) == ReversePairs(y) + ReversePairs(x)
  {
    if x == [] {
      assert x + y == y;
    } else {
      assert (x + y)[2..] == x[2..] + y;
      assert (x + y)[..2] == x[..2];
      ReversePairsAppend(x[2..], y);
    }
  }

  /** The field bige2lite returns: the first 16 characters of "%0.16x" % a
      with their two-character groups in reverse order. */
  function LittleEndianHex(a: nat): (r: string)
    ensures |r| == 16 && IsLowerHex(r)
  {
    ReversePairsLowerHex(FormatHex16(a)[..16]);
    ReversePairs(FormatHex16(a)[..16])
  }

  /** Reference serialisation: n bytes of a, least significant first, each
      as two lower-case hex digits. */
  function LeBytes(a: nat, n: nat): (r: string)
    ensures |r| == 2 * n && IsLowerHex(r)
  {
    if n == 0 then [] else FixedHex(a % 256, 2) + LeBytes(a / 256, n - 1)
  }

  /** a >> 8k: a shifted right by k bytes. */
  function ShiftRight8(a: nat, k: nat): nat
  {
    if k == 0 then a else ShiftRight8(a / 256, k - 1)
  }

  /** Reads a little-endian hex text back: pair k is byte k. */
  function DecodeLe(s: string): nat
    requires |s| % 2 == 0 && IsLowerHex(s)
  {
    if s == [] then 0 else HexValue(s[..2]) + 256 * DecodeLe(s[2..])
  }

  lemma ByteArithmetic(a: nat)
    ensures a / 16 / 16 == a / 256
    ensures a / 16 % 16 == a % 256 / 16 && a % 16 == a % 256 % 16
  {
    var q, r := a / 256, a % 256;
    assert a == 256 * q + r;
    assert a / 16 == 16 * q + r / 16;
    assert a % 16 == r % 16;
  }

  /** Splitting off the low byte: n + 2 digits are n digits of a / 256
      followed by the two digits of a % 256. */
  lemma FixedHexSplit(a: nat, n: nat)
    ensures FixedHex(a, n + 2) == FixedHex(a / 256, n) + FixedHex(a % 256, 2)
  {
    ByteArithmetic(a);
    assert FixedHex(a, n + 2) == FixedHex(a / 16 / 16, n) + [HexDigit(a / 16 % 16)] + [HexDigit(a % 16)];
    assert FixedHex(a % 256, 2) == FixedHex(a % 256 / 16 / 16, 0) + [HexDigit(a % 256 / 16 % 16)] + [HexDigit(a % 256 % 16)];
  }

  /** Reversing the byte pairs of 2n big-endian digits gives the
      little-endian serialisation of n bytes. */
  lemma {:induction false} ReversePairsFixedHex(a: nat, n: nat)
    ensures ReversePairs(FixedHex(a, 2 * n)) == LeBytes(a, n)
  {
    if n > 0 {
      FixedHexSplit(a, 2 * (n - 1));
      ReversePairsAppend(FixedHex(a / 256, 2 * (n - 1)), FixedHex(a % 256, 2));
      ReversePairsFixedHex(a / 256, n - 1);
      var t := FixedHex(a % 256, 2);
      assert t[2..] == [] && t[..2] == t;
    }
  }

  /** Below 2^64 the field is the 8-byte little-endian serialisation. */
  lemma LittleEndianHexIsLeBytes(a: nat)
    requires a < Pow16(16)
    ensures LittleEndianHex(a) == LeBytes(a, 8)
  {
    FormatHex16Small(a);
    assert FixedHex(a, 16)[..16] == FixedHex(a, 16);
    ReversePairsFixedHex(a, 8);
  }

  /** Decoding n little-endian bytes gives back a number below 256^n. */
  lemma {:induction false} DecodeLeBytes(a: nat, n: nat)
    requires a < Pow16(2 * n)
    ensures DecodeLe(LeBytes(a, n)) == a
  {
    if n > 0 {
      var s := LeBytes(a, n);
      assert s[..2] == FixedHex(a % 256, 2) && s[2..] == LeBytes(a / 256, n - 1);
      assert Pow16(2) == 256;
      FixedHexValue(a % 256, 2);
      assert Pow16(2 * n) == 256 * Pow16(2 * (n - 1));
      DecodeLeBytes(a / 256, n - 1);
    }
  }

  /** Pair k of the serialisation is byte k, (a >> 8k) & 0xff. */
  lemma {:induction false} LeBytesByte(a: nat, n: nat, k: nat)
    requires k < n
    ensures LeBytes(a, n)[2 * k..2 * k + 2] == FixedHex(ShiftRight8(a, k) % 256, 2)
  {
    if k > 0 {
      LeBytesByte(a / 256, n - 1, k - 1);
      var s := LeBytes(a, n);
      assert s[2 * k..2 * k + 2] == s[2..][2 * (k - 1)..2 * (k - 1) + 2];
    }
  }

  /** Below 2^64 the field is a's eight bytes, least significant first:
      pair k is byte k, and decoding the pairs gives a back. */
  lemma LittleEndianHexRoundTrip(a: nat)
    requires a < Pow16(16)
    ensures LittleEndianHex(a) == LeBytes(a, 8) && DecodeLe(LittleEndianHex(a)) == a
    ensures forall k :: 0 <= k < 8 ==> LittleEndianHex(a)[2 * k..2 * k + 2] == FixedHex(ShiftRight8(a, k) % 256, 2)
  {
    LittleEndianHexIsLeBytes(a);
    DecodeLeBytes(a, 8);
    forall k | 0 <= k < 8
      ensures LittleEndianHex(a)[2 * k..2 * k + 2] == FixedHex(ShiftRight8(a, k) % 256, 2)
    {
      LeBytesByte(a, 8, k);
    }
  }

  /** One more pair taken from the left extends the reversal on the right. */
  lemma ReversePairsStep(t: string, j: nat)
    requires j + 2 <= |t| && (|t| - j) % 2 == 0
    ensures ReversePairs(t[j..]) == ReversePairs(t[j + 2..]) + t[j..j + 2]
  {
    assert t[j..][2..] == t[j + 2..] && t[j..][..2] == t[j..j + 2];
  }

  /** The loop of bige2lite over the formatted text: the slices
      `tmp[14 - i:16 - i]` for i = 0, 2, ..., 14, appended in turn. */
  method CollectPairs(tmp: string) returns (res: string)
    requires |tmp| >= 16
    ensures res == ReversePairs(tmp[..16])
  {
    res := "";
    var i := 0;
    while i < 16
      invariant 0 <= i <= 16 && i % 2 == 0
      invariant res == ReversePairs(tmp[..16][16 - i..])
    {
      ReversePairsStep(tmp[..16], 14 - i);
      assert tmp[14 - i..16 - i] == tmp[..16][14 - i..16 - i];
      res := res + tmp[14 - i..16 - i];
      i := i + 2;
    }
    assert tmp[..16][0..] == tmp[..16];
  }

  /** bige2lite: format a as "%0.16x" and collect its byte pairs from the
      last to the first. For a below 2^64 the result is a's eight bytes,
      least significant first, and decodes back to a (byte by byte:
      LittleEndianHexRoundTrip). */
  method Bige2lite(a: nat) returns (res: string)
    ensures res == LittleEndianHex(a)
    ensures a < Pow16(16) ==> res == LeBytes(a, 8) && DecodeLe(res) == a
  {
    var tmp := FormatHex16(a);
    res := CollectPairs(tmp);
    if a < Pow16(16) {
      LittleEndianHexIsLeBytes(a);
      DecodeLeBytes(a, 8);
    }
  }
}
