/**
 * Calendar dates, the instants the date window compares, and the "MMM YYYY" month label
 * that keys the projects-per-month dictionary.
 */
module Calendar {
  import opened Wrappers

  datatype Date = Date(year: int, month: int, day: int)

  /**
   * Year, month and day each in range; "YYYY" writes these years with exactly four digits.
   * Day-of-month validity is not checked (2024-02-31 is admitted, although moment rejects it):
   * parsing is abstracted, and nothing below depends on the day beyond the window's day order.
   */
  predicate IsCalendarDate(d: Date) {
    0 <= d.year <= 9999 && 1 <= d.month <= 12 && 1 <= d.day <= 31
  }

  type CalendarDate = d: Date | IsCalendarDate(d) witness Date(1970, 1, 1)

  /** Chronological order on dates: lexicographic on (year, month, day). */
  predicate DateLe(a: Date, b: Date) {
    a.year < b.year || (a.year == b.year && (a.month < b.month || (a.month == b.month && a.day <= b.day)))
  }

  /** A point in time: a date and the millisecond of that day. */
  datatype Instant = Instant(date: Date, millis: int)

  function Midnight(d: Date): Instant {
    Instant(d, 0)
  }

  /** Chronological order on instants: by date, then by time of day. */
  predicate InstantLe(a: Instant, b: Instant) {
    (DateLe(a.date, b.date) && a.date != b.date) || (a.date == b.date && a.millis <= b.millis)
  }

  const MonthAbbreviations: seq<string> :=
    ["Jan", "Feb", "Mar", "Apr", "May", "Jun", "Jul", "Aug", "Sep", "Oct", "Nov", "Dec"]

  /** What formatting an unparseable date yields. */
  const InvalidDateLabel: string := "Invalid date"

  function DigitChar(n: int): char
    requires 0 <= n <= 9
  {
    (48 + n) as char
  }

  function DigitValue(c: char): int {
    c as int - 48
  }

  function Pow10(w: nat): nat {
    if w == 0 then 1 else 10 * Pow10(w - 1)
  }

  /** `n` in decimal, zero-padded on the left to `width` digits. */
  function PaddedDecimal(n: nat, width: nat): (s: string)
    ensures |s| == width
  {
    if width == 0 then [] else PaddedDecimal(n / 10, width - 1) + [DigitChar(n % 10)]
  }

  /** Reads a string of decimal digits back as a number. */
  function DecimalValue(s: string): int {
    if s == [] then 0 else 10 * DecimalValue(s[..|s| - 1]) + DigitValue(s[|s| - 1])
  }

  /** Padding to `width` digits loses nothing for numbers below 10^width. */
  lemma {:induction false} PaddedDecimalRoundTrip(n: nat, width: nat)
    requires n < Pow10(width)
    ensures DecimalValue(PaddedDecimal(n, width)) == n
  {
    if width > 0 {
      var s := PaddedDecimal(n, width);
      assert s[..width - 1] == PaddedDecimal(n / 10, width - 1);
      PaddedDecimalRoundTrip(n / 10, width - 1);
    }
  }

  /** The "MMM YYYY" label of a month, e.g. "Mar 2024"; years are zero-padded to four digits. */
  function MonthLabel(start: Option<CalendarDate>): (text: string)
    ensures start.Some? ==> (|text| == 8 && text[3] == ' ')
    ensures start.None? ==> text == InvalidDateLabel
  {
    match start
    case None => InvalidDateLabel
    case Some(d) => MonthAbbreviations[d.month - 1] + " " + PaddedDecimal(d.year, 4)
  }

  /** The month a start date falls in, as a (year, month) pair. */
  function MonthOf(start: Option<CalendarDate>): Option<(int, int)> {
    match start
    case None => None
    case Some(d) => Some((d.year, d.month))
  }

  lemma AbbreviationsDistinct()
    ensures forall i, j :: 0 <= i < j < 12 ==> MonthAbbreviations[i] != MonthAbbreviations[j]
  {
    forall i, j | 0 <= i < j < 12 ensures MonthAbbreviations[i] != MonthAbbreviations[j] {
      var a, b := MonthAbbreviations[i], MonthAbbreviations[j];
      assert a[0] != b[0] || a[1] != b[1] || a[2] != b[2];
    }
  }

  /** Two start dates get the same label exactly when they fall in the same month of the same year. */
  lemma MonthLabelInjective(a: Option<CalendarDate>, b: Option<CalendarDate>)
    ensures MonthLabel(a) == MonthLabel(b) <==> MonthOf(a) == MonthOf(b)
  {
    if a.Some? && b.Some? && MonthLabel(a) == MonthLabel(b) {
      var la, lb := MonthLabel(a), MonthLabel(b);
      var ya, yb := PaddedDecimal(a.value.year, 4), PaddedDecimal(b.value.year, 4);
      assert la[..3] == MonthAbbreviations[a.value.month - 1];
      assert lb[..3] == MonthAbbreviations[b.value.month - 1];
      AbbreviationsDistinct();
      assert la[4..] == ya && lb[4..] == yb;
      PaddedDecimalRoundTrip(a.value.year, 4);
      PaddedDecimalRoundTrip(b.value.year, 4);
    }
  }
}
