/**
 * Calendar dates and wall-clock instants of the proleptic Gregorian calendar,
 * in one fixed time zone. An `Instant` is what the code gets from
 * `new Date(...)`: its calendar fields give `getFullYear`, `getMonth() + 1`,
 * `getDate` and the `dd.MM.yyyy` / `HH:mm` labels; `Time` gives `getTime()`,
 * the millisecond count the code compares and adds to.
 */
module Calendar {
  import opened Wrappers
  import opened Text

  const SecondMs: int := 1000
  const MinuteMs: int := 60000
  const HourMs: int := 3600000
  const DayMs: int := 86400000

  datatype Date = Date(year: nat, month: nat, day: nat)

  /** A wall-clock instant: a date and the milliseconds elapsed since its midnight. */
  datatype Instant = Instant(date: Date, ms: nat)

  predicate IsLeapYear(y: int)
  {
    y % 4 == 0 && (y % 100 != 0 || y % 400 == 0)
  }

  function DaysInMonth(y: int, m: int): (n: int)
    ensures 28 <= n <= 31
  {
    if m == 2 then (if IsLeapYear(y) then 29 else 28)
    else if m == 4 || m == 6 || m == 9 || m == 11 then 30
    else 31
  }

  function DaysInYear(y: int): int
  {
    if IsLeapYear(y) then 366 else 365
  }

  predicate ValidDate(d: Date)
  {
    d.year >= 1 && 1 <= d.month <= 12 && 1 <= d.day <= DaysInMonth(d.year, d.month)
  }

  predicate ValidInstant(t: Instant)
  {
    ValidDate(t.date) && 0 <= t.ms < DayMs
  }

  /** `new Date('yyyy-MM-dd')` for a date-only value: midnight of that date. */
  function Midnight(d: Date): Instant
  {
    Instant(d, 0)
  }

  /** Days from 0001-01-01 to the first day of year `y`. */
  function DaysBeforeYear(y: int): int
  {
    365 * (y - 1) + (y - 1) / 4 - (y - 1) / 100 + (y - 1) / 400
  }

  /** Days from the first of January of year `y` to the first of month `m`. */
  function DaysBeforeMonth(y: int, m: int): int
  {
    var leap := if m > 2 && IsLeapYear(y) then 1 else 0;
    if m <= 1 then 0
    else if m == 2 then 31
    else if m == 3 then 59 + leap
    else if m == 4 then 90 + leap
    else if m == 5 then 120 + leap
    else if m == 6 then 151 + leap
    else if m == 7 then 181 + leap
    else if m == 8 then 212 + leap
    else if m == 9 then 243 + leap
    else if m == 10 then 273 + leap
    else if m == 11 then 304 + leap
    else 334 + leap
  }

  /** Days from 0001-01-01 to `d`. */
  function DayNumber(d: Date): int
  {
    DaysBeforeYear(d.year) + DaysBeforeMonth(d.year, d.month) + d.day - 1
  }

  /** The day number of 1970-01-01, JavaScript's epoch. */
  const EpochDay: int := 719162

  /** `getTime()`: milliseconds since 1970-01-01T00:00 of the same time zone. */
  function Time(t: Instant): int
  {
    (DayNumber(t.date) - EpochDay) * DayMs + t.ms
  }

  lemma EpochIsZero()
    ensures Time(Instant(Date(1970, 1, 1), 0)) == 0
  {
  }

  /** The calendar date after `d`. */
  function NextDay(d: Date): Date
  {
    if d.day < DaysInMonth(d.year, d.month) then Date(d.year, d.month, d.day + 1)
    else if d.month < 12 then Date(d.year, d.month + 1, 1)
    else Date(d.year + 1, 1, 1)
  }

  /** The calendar date `n` days after `d`. */
  function AddDays(d: Date, n: nat): Date
    decreases n
  {
    if n == 0 then d else AddDays(NextDay(d), n - 1)
  }

  lemma DivStep(y: int, k: int)
    requires k == 4 || k == 100 || k == 400
    ensures y / k - (y - 1) / k == if y % k == 0 then 1 else 0
  {
    assert y == k * (y / k) + y % k;
    assert y - 1 == k * ((y - 1) / k) + (y - 1) % k;
  }

  lemma YearStep(y: int)
    ensures DaysBeforeYear(y + 1) == DaysBeforeYear(y) + DaysInYear(y)
  {
    DivStep(y, 4);
    DivStep(y, 100);
    DivStep(y, 400);
  }

  lemma MonthStep(y: int, m: int)
    requires 1 <= m < 12
    ensures DaysBeforeMonth(y, m + 1) == DaysBeforeMonth(y, m) + DaysInMonth(y, m)
  {
  }

  /** The next calendar day is exactly one day number, and so exactly
      `DayMs` milliseconds of `getTime()`, later. */
  lemma {:induction false} NextDayIsOneDayLater(d: Date, ms: nat)
    requires ValidDate(d)
    ensures ValidDate(NextDay(d))
    ensures DayNumber(NextDay(d)) == DayNumber(d) + 1
    ensures Time(Instant(NextDay(d), ms)) == Time(Instant(d, ms)) + DayMs
  {
    if d.day < DaysInMonth(d.year, d.month) {
    } else if d.month < 12 {
      MonthStep(d.year, d.month);
    } else {
      YearStep(d.year);
    }
  }

  lemma {:induction false} AddDaysCounts(d: Date, n: nat)
    requires ValidDate(d)
    ensures ValidDate(AddDays(d, n))
    ensures DayNumber(AddDays(d, n)) == DayNumber(d) + n
    decreases n
  {
    if n > 0 {
      NextDayIsOneDayLater(d, 0);
      AddDaysCounts(NextDay(d), n - 1);
    }
  }

  // ---------------------------------------------------------------------------
  // Labels

  /** `dd.MM.yyyy` (date-fns `format` and the `de-DE` `toLocaleDateString`
      with two-digit day and month and a numeric year agree on it for
      four-digit years). */
  function DateLabel(d: Date): (s: string)
    ensures |s| == 10
  {
    Digits(d.day, 2) + "." + Digits(d.month, 2) + "." + Digits(d.year, 4)
  }

  /** `HH:mm` of an instant. */
  function TimeLabel(t: Instant): (s: string)
    ensures |s| == 5
  {
    var minutes := t.ms / MinuteMs;
    Digits(minutes / 60, 2) + ":" + Digits(minutes % 60, 2)
  }

  /** `yyyy-MM-dd`, the ISO-8601 date. */
  function IsoDate(d: Date): (s: string)
    ensures |s| == 10
  {
    Digits(d.year, 4) + "-" + Digits(d.month, 2) + "-" + Digits(d.day, 2)
  }

  /** Reads a `dd.MM.yyyy` label back. */
  function ParseDateLabel(s: string): (r: Date)
    requires |s| == 10 && AllDigits(s[0..2]) && AllDigits(s[3..5]) && AllDigits(s[6..10])
  {
    Date(ValueOf(s[6..10]), ValueOf(s[3..5]), ValueOf(s[0..2]))
  }

  predicate LabelledYear(d: Date)
  {
    ValidDate(d) && d.year <= 9999
  }

  lemma {:induction false} DateLabelRoundTrip(d: Date)
    requires LabelledYear(d)
    ensures var s := DateLabel(d);
            AllDigits(s[0..2]) && AllDigits(s[3..5]) && AllDigits(s[6..10]) && ParseDateLabel(s) == d
  {
    var s := DateLabel(d);
    assert s[0..2] == Digits(d.day, 2);
    assert s[3..5] == Digits(d.month, 2);
    assert s[6..10] == Digits(d.year, 4);
    assert Pow10(2) == 100 && Pow10(4) == 10000;
    DigitsRoundTrip(d.day, 2);
    DigitsRoundTrip(d.month, 2);
    DigitsRoundTrip(d.year, 4);
  }

  /** Distinct dates get distinct labels, so comparing labels compares dates. */
  lemma DateLabelInjective(a: Date, b: Date)
    requires LabelledYear(a) && LabelledYear(b)
    ensures DateLabel(a) == DateLabel(b) <==> a == b
  {
    DateLabelRoundTrip(a);
    DateLabelRoundTrip(b);
  }

  /** `new Date('yyyy-MM-dd')` of a date input's value: the date, or none
      for anything that is not a valid date in that form (an empty input). */
  function ParseIsoDate(s: string): (r: Option<Date>)
    ensures r.Some? ==> ValidDate(r.value)
  {
    if |s| == 10 && s[4] == '-' && s[7] == '-' && AllDigits(s[..4]) && AllDigits(s[5..7]) && AllDigits(s[8..]) then
      var d := Date(ValueOf(s[..4]), ValueOf(s[5..7]), ValueOf(s[8..]));
      if ValidDate(d) then Some(d) else None
    else None
  }

  lemma {:induction false} IsoDateRoundTrip(d: Date)
    requires LabelledYear(d)
    ensures ParseIsoDate(IsoDate(d)) == Some(d)
  {
    var s := IsoDate(d);
    assert s[..4] == Digits(d.year, 4);
    assert s[5..7] == Digits(d.month, 2);
    assert s[8..] == Digits(d.day, 2);
    assert Pow10(2) == 100 && Pow10(4) == 10000;
    DigitsRoundTrip(d.day, 2);
    DigitsRoundTrip(d.month, 2);
    DigitsRoundTrip(d.year, 4);
  }

  const MonthNames: seq<string> := ["Januar", "Februar", "März", "April", "Mai", "Juni", "Juli",
                                    "August", "September", "Oktober", "November", "Dezember"]

  /** `toLocaleDateString('de-DE', { month: 'long', year: 'numeric' })` of the
      first day of month `m` of year `y`, e.g. `März 2024`. */
  function MonthLabel(y: nat, m: int): string
    requires 1 <= m <= 12
  {
    MonthNames[m - 1] + " " + DecimalString(y)
  }
}
