/** The hours label of src/lib/utils.ts: `converMsToHString` renders a
    number of seconds (the "Ms" in its name notwithstanding; the board passes
    seconds worked) as the nearest whole number of hours followed by "h". */
module Utils {

  /** `Math.round(seconds / 3600)` for a whole number of seconds: the
      nearest whole hour, a half hour rounding up. */
  function Hours(seconds: nat): (h: nat)
    ensures 3600 * h <= seconds + 1800 < 3600 * h + 3600
  {
    (seconds + 1800) / 3600
  }

  predicate IsDigit(c: char) {
    '0' <= c <= '9'
  }

  predicate IsDecimal(s: string) {
    forall i :: 0 <= i < |s| ==> IsDigit(s[i])
  }

  function DigitChar(d: nat): (c: char)
    requires d < 10
    ensures IsDigit(c) && c as int - '0' as int == d
  {
    ('0' as int + d) as char
  }

  /** The decimal rendering of `n` that a template literal produces: no sign,
      no leading zeros, "0" for zero. */
  function DecimalString(n: nat): (s: string)
    ensures |s| >= 1 && IsDecimal(s)
    ensures n == 0 <==> s == "0"
    ensures n > 0 ==> s[0] != '0'
  {
    if n < 10 then [DigitChar(n)]
    else DecimalString(n / 10) + [DigitChar(n % 10)]
  }

  /** The number a string of decimal digits denotes. */
  function DecimalValue(s: string): nat
    requires IsDecimal(s)
  {
    if s == [] then 0
    else 10 * DecimalValue(s[..|s| - 1]) + (s[|s| - 1] as int - '0' as int)
  }

  /** Reading the rendering back gives the number rendered. */
  lemma {:induction false} DecimalRoundTrip(n: nat)
    ensures DecimalValue(DecimalString(n)) == n
  {
    if n >= 10 {
      var s := DecimalString(n);
      DecimalRoundTrip(n / 10);
      assert s[..|s| - 1] == DecimalString(n / 10);
    }
  }

  /** `converMsToHString`: the hour count in decimal, then "h". */
  function ConverMsToHString(seconds: nat): (r: string)
    ensures |r| >= 2 && r[|r| - 1] == 'h'
    ensures IsDecimal(r[..|r| - 1]) && DecimalValue(r[..|r| - 1]) == Hours(seconds)
    ensures |r| > 2 ==> r[0] != '0'
  {
    var digits := DecimalString(Hours(seconds));
    DecimalRoundTrip(Hours(seconds));
    assert (digits + "h")[..|digits|] == digits;
    digits + "h"
  }

  /** Whole hours are shown as they are. */
  lemma HoursOfWholeHours(k: nat)
    ensures Hours(3600 * k) == k
  {
  }

  /** Under half an hour shows "0h"; half an hour exactly shows "1h". */
  lemma HalfHourBoundary(seconds: nat)
    ensures seconds < 1800 ==> ConverMsToHString(seconds) == "0h"
    ensures ConverMsToHString(1800) == "1h"
  {
    assert DecimalString(0) == "0";
    assert DecimalString(1) == "1";
  }

  /** More seconds never show fewer hours. */
  lemma HoursMonotone(a: nat, b: nat)
    requires a <= b
    ensures Hours(a) <= Hours(b)
  {
  }
}
