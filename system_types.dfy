/** The .NET value types the application passes around: bytes, GUIDs and
    calendar dates, with the text formats the application prints them in. */
module SystemTypes {

  newtype byte = x: int | 0 <= x < 256

  const HexDigits := "0123456789abcdef"

  predicate IsGuidDigits(s: string) {
    |s| == 32 && forall i :: 0 <= i < |s| ==> s[i] in HexDigits
  }

  /** A `System.Guid`, identified with its 32 lower-case hexadecimal digits in
      the order its text form shows them. */
  type Guid = s: string | IsGuidDigits(s) witness "00000000000000000000000000000000"

  /** `Guid.ToString()` (format "D"): the digits in groups 8-4-4-4-12 joined by '-'. */
  function GuidText(g: Guid): (t: string)
    ensures |t| == 36
    ensures t[8] == '-' && t[13] == '-' && t[18] == '-' && t[23] == '-'
  {
    g[..8] + "-" + g[8..12] + "-" + g[12..16] + "-" + g[16..20] + "-" + g[20..]
  }

  /** Reads the digits back out of a "D"-format GUID text. */
  function GuidDigits(t: string): (s: string)
    requires |t| == 36
    ensures |s| == 32
  {
    t[..8] + t[9..13] + t[14..18] + t[19..23] + t[24..]
  }

  lemma GuidTextRoundTrip(g: Guid)
    ensures GuidDigits(GuidText(g)) == g
  {
    var t := GuidText(g);
    assert t[..8] == g[..8];
    assert t[9..13] == g[8..12];
    assert t[14..18] == g[12..16];
    assert t[19..23] == g[16..20];
    assert t[24..] == g[20..];
    assert g == g[..8] + g[8..12] + g[12..16] + g[16..20] + g[20..];
  }

  /** Distinct GUIDs print differently. */
  lemma GuidTextInjective(a: Guid, b: Guid)
    requires GuidText(a) == GuidText(b)
    ensures a == b
  {
    GuidTextRoundTrip(a);
    GuidTextRoundTrip(b);
  }

  /** The calendar part of a `System.DateTime`. */
  datatype Date = Date(year: nat, month: nat, day: nat)

  /** A `System.DateTime`: a date and the time elapsed since its midnight. */
  datatype DateTime = DateTime(date: Date, timeOfDay: nat)

  predicate IsLeapYear(y: nat) {
    y % 4 == 0 && (y % 100 != 0 || y % 400 == 0)
  }

  function DaysInMonth(y: nat, m: nat): nat {
    if m == 2 then (if IsLeapYear(y) then 29 else 28)
    else if m in {4, 6, 9, 11} then 30
    else 31
  }

  /** The dates `System.DateTime` can represent. */
  predicate ValidDate(d: Date) {
    1 <= d.year <= 9999 && 1 <= d.month <= 12 && 1 <= d.day <= DaysInMonth(d.year, d.month)
  }

  /** Chronological order on dates: `a` falls strictly after `b`. */
  predicate DateAfter(a: Date, b: Date) {
    a.year > b.year
    || (a.year == b.year && a.month > b.month)
    || (a.year == b.year && a.month == b.month && a.day > b.day)
  }

  lemma DateAfterIsStrictOrder(a: Date, b: Date, c: Date)
    ensures !DateAfter(a, a)
    ensures DateAfter(a, b) ==> !DateAfter(b, a)
    ensures DateAfter(a, b) && DateAfter(b, c) ==> DateAfter(a, c)
    ensures a != b ==> DateAfter(a, b) || DateAfter(b, a)
  {
  }

  predicate IsDecimalDigit(c: char) {
    '0' <= c <= '9'
  }

  function DigitChar(d: nat): (c: char)
    requires d < 10
    ensures IsDecimalDigit(c)
  {
    ('0' as int + d) as char
  }

  function Pow10(w: nat): (p: nat)
    ensures p >= 1
  {
    if w == 0 then 1 else 10 * Pow10(w - 1)
  }

  /** The last `width` decimal digits of `n`, padded with leading zeros: the
      custom format specifiers "yyyy", "MM" and "dd" for in-range values. */
  function FixedDigits(n: nat, width: nat): (s: string)
    ensures |s| == width
    ensures forall i :: 0 <= i < |s| ==> IsDecimalDigit(s[i])
  {
    if width == 0 then "" else FixedDigits(n / 10, width - 1) + [DigitChar(n % 10)]
  }

  /** `DateTime.ToString("yyyyMMdd")`. */
  function FormatYyyyMMdd(d: Date): (s: string)
    ensures |s| == 8
    ensures forall i :: 0 <= i < |s| ==> IsDecimalDigit(s[i])
  {
    FixedDigits(d.year, 4) + FixedDigits(d.month, 2) + FixedDigits(d.day, 2)
  }

  /** Below `10^width`, distinct numbers have distinct fixed-width digits. */
  lemma {:induction false} FixedDigitsInjective(x: nat, y: nat, width: nat)
    requires x < Pow10(width) && y < Pow10(width)
    requires FixedDigits(x, width) == FixedDigits(y, width)
    ensures x == y
    decreases width
  {
    if width > 0 {
      var sx, sy := FixedDigits(x, width), FixedDigits(y, width);
      assert sx[..width - 1] == FixedDigits(x / 10, width - 1);
      assert sy[..width - 1] == FixedDigits(y / 10, width - 1);
      assert DigitChar(x % 10) == sx[width - 1] == sy[width - 1] == DigitChar(y % 10);
      FixedDigitsInjective(x / 10, y / 10, width - 1);
    }
  }

  /** Distinct representable dates format differently, so the eight digits
      name the date. */
  lemma FormatYyyyMMddInjective(a: Date, b: Date)
    requires ValidDate(a) && ValidDate(b)
    requires FormatYyyyMMdd(a) == FormatYyyyMMdd(b)
    ensures a == b
  {
    var fa, fb := FormatYyyyMMdd(a), FormatYyyyMMdd(b);
    assert fa[..4] == FixedDigits(a.year, 4) && fb[..4] == FixedDigits(b.year, 4);
    assert fa[4..6] == FixedDigits(a.month, 2) && fb[4..6] == FixedDigits(b.month, 2);
    assert fa[6..] == FixedDigits(a.day, 2) && fb[6..] == FixedDigits(b.day, 2);
    assert Pow10(2) == 100 && Pow10(4) == 10000;
    FixedDigitsInjective(a.year, b.year, 4);
    FixedDigitsInjective(a.month, b.month, 2);
    FixedDigitsInjective(a.day, b.day, 2);
  }
}
