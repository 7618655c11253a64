/**
 * Number-to-text conversions the scripts rely on: JavaScript's `Number.prototype.toString`
 * in base 10 and base 16, `String.prototype.toUpperCase` on hex digits, and the
 * zero padding that luxon applies to date fields.
 */
module Numbers {

  predicate IsDigit(c: char) {
    '0' <= c <= '9'
  }

  predicate AllDigits(s: string) {
    forall i :: 0 <= i < |s| ==> IsDigit(s[i])
  }

  function DigitChar(d: nat): (c: char)
    requires d < 10
  {
    ('0' as int + d) as char
  }

  /** The value of a string of decimal digits, most significant first. */
  function DecValue(s: string): nat
    requires AllDigits(s)
  {
    if s == [] then 0 else DecValue(s[..|s| - 1]) * 10 + (s[|s| - 1] as int - '0' as int)
  }

  /** `n.toString()` for a non-negative integer. */
  function Decimal(n: nat): (s: string)
    ensures |s| >= 1 && AllDigits(s)
    ensures DecValue(s) == n
    ensures s[0] == '0' ==> n == 0
  {
    if n < 10 then [DigitChar(n)]
    else
      var s := Decimal(n / 10) + [DigitChar(n % 10)];
      assert s[..|s| - 1] == Decimal(n / 10);
      s
  }

  /** `i.toString()` for any integer: a '-' sign before the digits of a negative number. */
  function IntString(i: int): string {
    if i < 0 then "-" + Decimal(-i) else Decimal(i)
  }

  function Pow(base: nat, k: nat): nat {
    if k == 0 then 1 else base * Pow(base, k - 1)
  }

  /** A number below 10^w has at most w decimal digits. */
  lemma {:induction false} DecimalLength(n: nat, w: nat)
    requires 1 <= w && n < Pow(10, w)
    ensures |Decimal(n)| <= w
  {
    if n >= 10 {
      DecimalLength(n / 10, w - 1);
    }
  }

  function Zeros(k: nat): (z: string)
    ensures |z| == k && AllDigits(z) && DecValue(z) == 0
  {
    if k == 0 then ""
    else
      var z := Zeros(k - 1) + "0";
      assert z[..|z| - 1] == Zeros(k - 1);
      z
  }

  /** `s.padStart(w, '0')`. */
  function ZeroPad(s: string, w: nat): (r: string)
    ensures |r| == if |s| >= w then |s| else w
  {
    if |s| >= w then s else Zeros(w - |s|) + s
  }

  /** Leading zeros do not change the value of a digit string. */
  lemma {:induction false} LeadingZeros(k: nat, s: string)
    requires AllDigits(s)
    ensures AllDigits(Zeros(k) + s) && DecValue(Zeros(k) + s) == DecValue(s)
    decreases |s|
  {
    var t := Zeros(k) + s;
    if s != [] {
      LeadingZeros(k, s[..|s| - 1]);
      assert t[..|t| - 1] == Zeros(k) + s[..|s| - 1];
      assert t[|t| - 1] == s[|s| - 1];
    } else {
      assert t == Zeros(k);
    }
  }

  /**
   * luxon's `padStart(n, w)`: the digits of |n| padded with zeros to width w, after a
   * '-' sign when n is negative.
   */
  function PadStart(n: int, w: nat): string {
    if n < 0 then "-" + ZeroPad(Decimal(-n), w) else ZeroPad(Decimal(n), w)
  }

  /** A non-negative number below 10^w pads to exactly w digits that read back as the number. */
  lemma PadStartExact(n: int, w: nat)
    requires 1 <= w && 0 <= n < Pow(10, w)
    ensures |PadStart(n, w)| == w
    ensures AllDigits(PadStart(n, w)) && DecValue(PadStart(n, w)) == n
  {
    DecimalLength(n, w);
    LeadingZeros(w - |Decimal(n)|, Decimal(n));
  }

  // ---------------------------------------------------------------------------
  // Hexadecimal.
  // ---------------------------------------------------------------------------

  /** The digits `n.toString(16)` uses. */
  function LowerHexDigit(d: nat): char
    requires d < 16
  {
    if d < 10 then ('0' as int + d) as char else ('a' as int + d - 10) as char
  }

  function UpperHexDigit(d: nat): char
    requires d < 16
  {
    if d < 10 then ('0' as int + d) as char else ('A' as int + d - 10) as char
  }

  predicate IsUpperHexDigit(c: char) {
    '0' <= c <= '9' || 'A' <= c <= 'F'
  }

  function HexDigitValue(c: char): nat
    requires IsUpperHexDigit(c)
  {
    if c <= '9' then c as int - '0' as int else c as int - 'A' as int + 10
  }

  /** The value of a string of upper-case hex digits, most significant first. */
  function HexValue(s: string): nat
    requires forall i :: 0 <= i < |s| ==> IsUpperHexDigit(s[i])
  {
    if s == [] then 0 else HexValue(s[..|s| - 1]) * 16 + HexDigitValue(s[|s| - 1])
  }

  /** `n.toString(16)` for a non-negative integer: lower-case digits without leading zeros. */
  function LowerHex(n: nat): string {
    if n < 16 then [LowerHexDigit(n)] else LowerHex(n / 16) + [LowerHexDigit(n % 16)]
  }

  /** `c.toUpperCase()` for ASCII letters. */
  function UpperChar(c: char): char {
    if 'a' <= c <= 'z' then (c as int - 32) as char else c
  }

  /** `s.toUpperCase()` for ASCII text. */
  function Upper(s: string): (r: string)
    ensures |r| == |s|
    ensures forall i :: 0 <= i < |s| ==> r[i] == UpperChar(s[i])
  {
    if s == [] then [] else [UpperChar(s[0])] + Upper(s[1..])
  }

  /** `crc.toString(16).toUpperCase()`: the checksum text in a renamed file's name. */
  function ChecksumHex(n: nat): string {
    Upper(LowerHex(n))
  }

  /**
   * The checksum text is made of upper-case hex digits, has no leading zero (so it is
   * not padded), and reads back as the checksum.
   */
  lemma {:induction false} ChecksumHexRoundTrip(n: nat)
    ensures var s := ChecksumHex(n);
      && |s| >= 1
      && (forall i :: 0 <= i < |s| ==> IsUpperHexDigit(s[i]))
      && HexValue(s) == n
      && (s[0] == '0' ==> n == 0)
  {
    var s := ChecksumHex(n);
    if n < 16 {
      assert s == [UpperHexDigit(n)];
    } else {
      ChecksumHexRoundTrip(n / 16);
      var t := ChecksumHex(n / 16);
      assert s == t + [UpperHexDigit(n % 16)];
      assert s[..|s| - 1] == t;
      assert s[0] == t[0];
    }
  }

  /** A 32-bit checksum renders in at most eight hex digits. */
  lemma ChecksumHexLength(n: nat)
    requires n < 0x1_0000_0000
    ensures |ChecksumHex(n)| <= 8
  {
    assert Pow(16, 8) == 0x1_0000_0000 by {
      assert Pow(16, 4) == 65536;
    }
    LowerHexLength(n, 8);
  }

  lemma {:induction false} LowerHexLength(n: nat, k: nat)
    requires 1 <= k && n < Pow(16, k)
    ensures |LowerHex(n)| <= k
  {
    if n >= 16 {
      LowerHexLength(n / 16, k - 1);
    }
  }
}
