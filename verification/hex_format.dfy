/**
 * Python's integer formatting with the `x` and `X` presentation types and a
 * zero-padded minimum width (`f"{n:04x}"`, `f"{n:02X}"`), together with the
 * inverse reading of a run of hexadecimal digits.
 */
module HexFormat {

  function Max(a: nat, b: nat): nat { if a >= b then a else b }

  /** 16 to the power k. */
  function Pow16(k: nat): (p: nat)
    ensures p >= 1
  {
    if k == 0 then 1 else 16 * Pow16(k - 1)
  }

  /** A hexadecimal digit of the requested case (`X` is upper case, `x` lower case). */
  predicate IsDigitOf(c: char, upper: bool) {
    || ('0' <= c <= '9')
    || (upper && 'A' <= c <= 'F')
    || (!upper && 'a' <= c <= 'f')
  }

  /** The value of a hexadecimal digit of either case; any other character reads as 0. */
  function DigitValue(c: char): (d: nat)
    ensures d < 16
  {
    if '0' <= c <= '9' then c as int - '0' as int
    else if 'A' <= c <= 'F' then c as int - 'A' as int + 10
    else if 'a' <= c <= 'f' then c as int - 'a' as int + 10
    else 0
  }

  /** The digit that stands for d. */
  function Digit(d: nat, upper: bool): (c: char)
    requires d < 16
    ensures IsDigitOf(c, upper)
    ensures DigitValue(c) == d
  {
    if d < 10 then ('0' as int + d) as char
    else if upper then ('A' as int + d - 10) as char
    else ('a' as int + d - 10) as char
  }

  /** The digits of n in base 16 without leading zeros; zero is written "0". */
  function ToHex(n: nat, upper: bool): (s: string)
    ensures 1 <= |s|
    ensures forall i :: 0 <= i < |s| ==> IsDigitOf(s[i], upper)
    decreases n
  {
    if n < 16 then [Digit(n, upper)] else ToHex(n / 16, upper) + [Digit(n % 16, upper)]
  }

  /** k copies of the fill character of a format field. */
  function Fill(c: char, k: nat): (s: string)
    ensures |s| == k
    ensures forall i :: 0 <= i < k ==> s[i] == c
  {
    seq(k, _ => c)
  }

  /**
   * `format(n, "0<width>x")` (or `X`): the digits of n, left-padded with '0'
   * up to `width` characters; a number with more digits is never cut.
   */
  function Format(n: nat, width: nat, upper: bool): (s: string)
    ensures |s| == Max(width, |ToHex(n, upper)|)
    ensures forall i :: 0 <= i < |s| ==> IsDigitOf(s[i], upper)
  {
    var digits := ToHex(n, upper);
    if |digits| >= width then digits else Fill('0', width - |digits|) + digits
  }

  /** The number a string of hexadecimal digits denotes, most significant first. */
  function HexValue(s: string): (v: nat)
    ensures v < Pow16(|s|)
    decreases |s|
  {
    if |s| == 0 then 0 else HexValue(s[..|s| - 1]) * 16 + DigitValue(s[|s| - 1])
  }

  /** Reading back the digits of n gives n. */
  lemma {:induction false} ToHexRoundTrip(n: nat, upper: bool)
    ensures HexValue(ToHex(n, upper)) == n
    decreases n
  {
    if n >= 16 {
      ToHexRoundTrip(n / 16, upper);
      var s := ToHex(n, upper);
      assert s[..|s| - 1] == ToHex(n / 16, upper);
    }
  }

  /** Leading zeros do not change the value. */
  lemma {:induction false} LeadingZeros(k: nat, s: string)
    ensures HexValue(Fill('0', k) + s) == HexValue(s)
    decreases |s|
  {
    if |s| == 0 {
      assert Fill('0', k) + s == Fill('0', k);
      AllZeros(k);
    } else {
      var t := Fill('0', k) + s;
      assert t[..|t| - 1] == Fill('0', k) + s[..|s| - 1];
      LeadingZeros(k, s[..|s| - 1]);
    }
  }

  lemma {:induction false} AllZeros(k: nat)
    ensures HexValue(Fill('0', k)) == 0
  {
    if k > 0 {
      assert Fill('0', k)[..k - 1] == Fill('0', k - 1);
      AllZeros(k - 1);
    }
  }

  /** A number below 16^w needs at most w digits. */
  lemma {:induction false} ToHexLength(n: nat, w: nat, upper: bool)
    requires 1 <= w
    requires n < Pow16(w)
    ensures |ToHex(n, upper)| <= w
    decreases n
  {
    if n >= 16 {
      assert w >= 2;
      ToHexLength(n / 16, w - 1, upper);
    }
  }

  /** Zero-padded formatting reads back as the number it formats. */
  lemma FormatRoundTrip(n: nat, width: nat, upper: bool)
    ensures HexValue(Format(n, width, upper)) == n
  {
    ToHexRoundTrip(n, upper);
    var digits := ToHex(n, upper);
    if |digits| < width {
      LeadingZeros(width - |digits|, digits);
    }
  }

  /** A number below 16^width is formatted in exactly `width` digits. */
  lemma FormatWidth(n: nat, width: nat, upper: bool)
    requires 1 <= width
    requires n < Pow16(width)
    ensures |Format(n, width, upper)| == width
  {
    ToHexLength(n, width, upper);
  }

  /** A number of at least 16^w needs more than w digits: `ToHex` writes no leading zeros. */
  lemma {:induction false} ToHexLower(n: nat, w: nat, upper: bool)
    requires Pow16(w) <= n
    ensures |ToHex(n, upper)| > w
    decreases n
  {
    if w > 0 {
      assert n >= 16;
      assert Pow16(w - 1) <= n / 16;
      ToHexLower(n / 16, w - 1, upper);
    }
  }

  /**
   * The width of a formatted number is exact: the number fits in it, and a
   * field wider than requested has no room to spare (it is the least width
   * that holds the number).
   */
  lemma FormatExactWidth(n: nat, width: nat, upper: bool)
    ensures var w := |Format(n, width, upper)|;
            && n < Pow16(w)
            && (w > width && w > 1 ==> Pow16(w - 1) <= n)
  {
    var w := |Format(n, width, upper)|;
    FormatRoundTrip(n, width, upper);
    if w > width && w > 1 && n < Pow16(w - 1) {
      ToHexLength(n, w - 1, upper);
    }
  }
}
