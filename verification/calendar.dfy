/**
 * Proleptic Gregorian calendar dates as pandas sees them: which (year, month, day)
 * triples are dates, which of those a nanosecond Timestamp can hold, the weekday
 * (`.dt.weekday`, Monday = 0), and the ISO "YYYY-MM-DD" text the pipeline writes
 * and reads back.
 */
module Calendar {
  import opened Wrappers
  import opened Numbers

  datatype Date = Date(year: int, month: int, day: int)

  predicate IsLeapYear(y: int) {
    y % 4 == 0 && (y % 100 != 0 || y % 400 == 0)
  }

  function DaysInMonth(y: int, m: int): (n: int)
    requires 1 <= m <= 12
    ensures 28 <= n <= 31
    ensures n == 29 <==> m == 2 && IsLeapYear(y)
  {
    if m == 2 then (if IsLeapYear(y) then 29 else 28)
    else if m == 4 || m == 6 || m == 9 || m == 11 then 30
    else 31
  }

  /** A real calendar day: month 1..12 and a day that month has. */
  predicate ValidDate(d: Date) {
    1 <= d.month <= 12 && 1 <= d.day <= DaysInMonth(d.year, d.month)
  }

  /** Chronological order on dates. */
  predicate DateLe(a: Date, b: Date) {
    a.year < b.year
    || (a.year == b.year && (a.month < b.month || (a.month == b.month && a.day <= b.day)))
  }

  const FirstTimestampDay := Date(1677, 9, 22)
  const LastTimestampDay := Date(2262, 4, 11)

  /**
   * The midnight of `d` lies within pandas' nanosecond Timestamp range
   * (1677-09-21 00:12:43 .. 2262-04-11 23:47:16); outside it a coerced
   * conversion yields NaT.
   */
  predicate InTimestampRange(d: Date) {
    DateLe(FirstTimestampDay, d) && DateLe(d, LastTimestampDay)
  }

  /** Days in the years before `y`, counting from 0001-01-01. */
  function DaysBeforeYear(y: int): int {
    var p := y - 1;
    365 * p + p / 4 - p / 100 + p / 400
  }

  /** Days in the months of year `y` before month `m` (13 gives the whole year). */
  function DaysBeforeMonth(y: int, m: int): int
    requires 1 <= m <= 13
  {
    [0, 31, 59, 90, 120, 151, 181, 212, 243, 273, 304, 334, 365][m - 1]
    + (if m > 2 && IsLeapYear(y) then 1 else 0)
  }

  /** Days since 0001-01-01 (Python's `toordinal() - 1`). */
  function DayNumber(d: Date): int
    requires ValidDate(d)
  {
    DaysBeforeYear(d.year) + DaysBeforeMonth(d.year, d.month) + d.day - 1
  }

  /** `.dt.weekday`: Monday is 0 and Sunday is 6 (0001-01-01 was a Monday). */
  function Weekday(d: Date): (w: int)
    requires ValidDate(d)
    ensures 0 <= w <= 6
  {
    DayNumber(d) % 7
  }

  /** The calendar day after `d`. */
  function NextDay(d: Date): (n: Date)
    requires ValidDate(d)
    ensures ValidDate(n) && DateLe(d, n) && n != d
  {
    if d.day < DaysInMonth(d.year, d.month) then Date(d.year, d.month, d.day + 1)
    else if d.month < 12 then Date(d.year, d.month + 1, 1)
    else Date(d.year + 1, 1, 1)
  }

  /** Euclidean division is determined by its quotient-remainder equation. */
  lemma DivUnique(p: int, k: int, q: int, r: int)
    requires k > 0 && p == k * q + r && 0 <= r < k
    ensures p / k == q && p % k == r
  {
    var q', r' := p / k, p % k;
    assert k * (q - q') == r' - r;
    if q > q' {
      assert k * (q - q') >= k by { MulAtLeast(k, q - q'); }
    } else if q < q' {
      assert k * (q' - q) >= k by { MulAtLeast(k, q' - q); }
    }
  }

  lemma MulAtLeast(k: int, n: int)
    requires k > 0 && n >= 1
    ensures k * n >= k
  {
    assert k * n == k * (n - 1) + k;
  }

  lemma DivStep(p: int, k: int)
    requires k > 0
    ensures (p + 1) / k - p / k == if (p + 1) % k == 0 then 1 else 0
  {
    var q, r := p / k, p % k;
    DivUnique(p, k, q, r);
    if r + 1 < k {
      DivUnique(p + 1, k, q, r + 1);
    } else {
      DivUnique(p + 1, k, q + 1, 0);
    }
  }

  lemma YearLength(y: int)
    ensures DaysBeforeYear(y + 1) - DaysBeforeYear(y) == if IsLeapYear(y) then 366 else 365
  {
    DivStep(y - 1, 4);
    DivStep(y - 1, 100);
    DivStep(y - 1, 400);
    if y % 400 == 0 {
      assert y == 100 * (4 * (y / 400));
      assert y == 4 * (100 * (y / 400));
    } else if y % 100 == 0 {
      assert y == 4 * (25 * (y / 100));
    }
  }

  /** Consecutive calendar days have consecutive day numbers. */
  lemma NextDayNumber(d: Date)
    requires ValidDate(d)
    ensures DayNumber(NextDay(d)) == DayNumber(d) + 1
  {
    if d.day == DaysInMonth(d.year, d.month) && d.month == 12 {
      YearLength(d.year);
    }
  }

  /** The weekday advances by one, Sunday wrapping to Monday, from each day to the next. */
  lemma WeekdayOfNextDay(d: Date)
    requires ValidDate(d)
    ensures Weekday(NextDay(d)) == (Weekday(d) + 1) % 7
  {
    NextDayNumber(d);
    var n := DayNumber(d);
    DivUnique(n, 7, n / 7, n % 7);
    if n % 7 < 6 {
      DivUnique(n + 1, 7, n / 7, n % 7 + 1);
    } else {
      DivUnique(n + 1, 7, n / 7 + 1, 0);
    }
  }

  /** 2015-01-01, the first day of the flight data set, was a Thursday. */
  lemma NewYear2015IsThursday()
    ensures ValidDate(Date(2015, 1, 1)) && Weekday(Date(2015, 1, 1)) == 3
  {
  }

  /** The `w` low-order decimal digits of `n`, zero-padded on the left. */
  function Digits(n: nat, w: nat): (s: string)
    ensures |s| == w && AllDigits(s)
  {
    if w == 0 then "" else Digits(n / 10, w - 1) + [DigitChar(n % 10)]
  }

  lemma {:induction false} DigitsValueOf(n: nat, w: nat)
    requires n < Pow10(w)
    ensures DigitsValue(Digits(n, w)) == n
  {
    if w > 0 {
      DigitsValueOf(n / 10, w - 1);
      var s := Digits(n, w);
      assert s[..|s| - 1] == Digits(n / 10, w - 1);
    }
  }

  /** `str()` of a pandas date: "YYYY-MM-DD". */
  function IsoText(d: Date): (s: string)
    requires 0 <= d.year <= 9999 && 1 <= d.month <= 12 && 1 <= d.day <= 31
    ensures |s| == 10 && s[4] == '-' && s[7] == '-'
  {
    Digits(d.year, 4) + "-" + Digits(d.month, 2) + "-" + Digits(d.day, 2)
  }

  /**
   * Coercing text to a date: an ISO "YYYY-MM-DD" string naming a real day inside
   * the Timestamp range; anything else is NaT (None).
   */
  function ParseIsoDate(s: string): (r: Option<Date>)
    ensures r.Some? ==> ValidDate(r.value) && InTimestampRange(r.value)
  {
    if |s| == 10 && s[4] == '-' && s[7] == '-'
       && AllDigits(s[..4]) && AllDigits(s[5..7]) && AllDigits(s[8..])
    then
      var d := Date(DigitsValue(s[..4]), DigitsValue(s[5..7]), DigitsValue(s[8..]));
      if ValidDate(d) && InTimestampRange(d) then Some(d) else None
    else
      None
  }

  /** Writing a date as ISO text and coercing the text back gives the same date. */
  lemma IsoRoundTrip(d: Date)
    requires ValidDate(d) && InTimestampRange(d)
    ensures ParseIsoDate(IsoText(d)) == Some(d)
  {
    var s := IsoText(d);
    assert s[..4] == Digits(d.year, 4);
    assert s[5..7] == Digits(d.month, 2);
    assert s[8..] == Digits(d.day, 2);
    assert Pow10(2) == 100 && Pow10(4) == 10000;
    DigitsValueOf(d.year, 4);
    DigitsValueOf(d.month, 2);
    DigitsValueOf(d.day, 2);
  }
}
