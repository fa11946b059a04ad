/**
 The proleptic Gregorian calendar of Python's `datetime`, restricted to what the
 scheduling code uses: validity of a (year, month, day) triple in the range
 1..9999, the day ordinal (`date.toordinal()`), the weekday (`date.weekday()`,
 Monday = 0), adding whole days (`+ timedelta(days=k)`, which raises past
 9999-12-31), date comparison, and the two string formats the store uses,
 `"%Y-%m-%d"` and `"%H:%M"`, in both directions (`strftime` and `strptime`).
 */
module Calendar {
  import opened Wrappers
  import opened Text

  const MinYear: int := 1
  const MaxYear: int := 9999

  datatype Date = Date(year: int, month: int, day: int)

  /** A point in time: a calendar day and the time elapsed since its midnight. */
  datatype Instant = Instant(today: Date, sinceMidnight: nat)

  predicate IsLeap(y: int) {
    y % 4 == 0 && (y % 100 != 0 || y % 400 == 0)
  }

  function DaysInMonth(y: int, m: int): (n: int)
    requires 1 <= m <= 12
    ensures 28 <= n <= 31
  {
    if m == 2 then (if IsLeap(y) then 29 else 28)
    else if m == 4 || m == 6 || m == 9 || m == 11 then 30
    else 31
  }

  function DaysInYear(y: int): int {
    if IsLeap(y) then 366 else 365
  }

  /** What `datetime(year, month, day)` accepts without raising `ValueError`. */
  predicate ValidDate(d: Date) {
    && MinYear <= d.year <= MaxYear
    && 1 <= d.month <= 12
    && 1 <= d.day <= DaysInMonth(d.year, d.month)
  }

  const LastDate: Date := Date(MaxYear, 12, 31)

  /** The days of the years before `y`. */
  function DaysBeforeYear(y: int): int
    requires y >= 1
    decreases y
  {
    if y == 1 then 0 else DaysBeforeYear(y - 1) + DaysInYear(y - 1)
  }

  /** The days of the months before `m` in year `y`; month 13 stands for the end of the year. */
  function DaysBeforeMonth(y: int, m: int): int
    requires 1 <= m <= 13
    decreases m
  {
    if m == 1 then 0 else DaysBeforeMonth(y, m - 1) + DaysInMonth(y, m - 1)
  }

  /** `date.toordinal()`: 0001-01-01 is day 1. */
  function Ordinal(d: Date): int
    requires ValidDate(d)
  {
    DaysBeforeYear(d.year) + DaysBeforeMonth(d.year, d.month) + d.day
  }

  /** The ordinal of 9999-12-31, the last day `datetime` represents. */
  const MaxOrdinal: int := 3652059

  /** `date.weekday()`: Monday is 0 and Sunday is 6. */
  function Weekday(d: Date): (w: nat)
    requires ValidDate(d)
    ensures w < 7
  {
    (Ordinal(d) + 6) % 7
  }

  /** The closed form Python's `_days_before_year` computes. */
  function DaysBeforeYearFormula(y: int): int
    requires y >= 1
  {
    var p := y - 1;
    365 * p + p / 4 - p / 100 + p / 400
  }

  lemma QuotientStep4(y: int)
    ensures y / 4 == (y - 1) / 4 + (if y % 4 == 0 then 1 else 0)
  {
  }

  lemma QuotientStep100(y: int)
    ensures y / 100 == (y - 1) / 100 + (if y % 100 == 0 then 1 else 0)
    ensures y % 100 == 0 ==> y % 4 == 0
  {
  }

  lemma QuotientStep400(y: int)
    ensures y / 400 == (y - 1) / 400 + (if y % 400 == 0 then 1 else 0)
    ensures y % 400 == 0 ==> y % 100 == 0
  {
  }

  lemma FormulaStep(y: int)
    requires y >= 1
    ensures DaysBeforeYearFormula(y + 1) == DaysBeforeYearFormula(y) + DaysInYear(y)
  {
    QuotientStep4(y);
    QuotientStep100(y);
    QuotientStep400(y);
  }

  /** Counting year by year agrees with the closed form, so `Ordinal` is Python's `toordinal`. */
  lemma {:induction false} DaysBeforeYearClosed(y: int)
    requires y >= 1
    ensures DaysBeforeYear(y) == DaysBeforeYearFormula(y)
    decreases y
  {
    if y > 1 {
      DaysBeforeYearClosed(y - 1);
      FormulaStep(y - 1);
    }
  }

  /** The twelve months make up the year. */
  lemma MonthsFillYear(y: int)
    ensures DaysBeforeMonth(y, 13) == DaysInYear(y)
  {
    assert DaysBeforeMonth(y, 2) == 31;
    assert DaysBeforeMonth(y, 3) == 31 + DaysInMonth(y, 2);
    assert DaysBeforeMonth(y, 4) == 62 + DaysInMonth(y, 2);
    assert DaysBeforeMonth(y, 5) == 92 + DaysInMonth(y, 2);
    assert DaysBeforeMonth(y, 6) == 123 + DaysInMonth(y, 2);
    assert DaysBeforeMonth(y, 7) == 153 + DaysInMonth(y, 2);
    assert DaysBeforeMonth(y, 8) == 184 + DaysInMonth(y, 2);
    assert DaysBeforeMonth(y, 9) == 215 + DaysInMonth(y, 2);
    assert DaysBeforeMonth(y, 10) == 245 + DaysInMonth(y, 2);
    assert DaysBeforeMonth(y, 11) == 276 + DaysInMonth(y, 2);
    assert DaysBeforeMonth(y, 12) == 306 + DaysInMonth(y, 2);
    assert DaysBeforeMonth(y, 13) == 337 + DaysInMonth(y, 2);
  }

  lemma {:induction false} DaysBeforeMonthMonotone(y: int, a: int, b: int)
    requires 1 <= a <= b <= 13
    ensures DaysBeforeMonth(y, a) + 28 * (b - a) <= DaysBeforeMonth(y, b)
    decreases b - a
  {
    if a < b {
      DaysBeforeMonthMonotone(y, a, b - 1);
    }
  }

  lemma {:induction false} DaysBeforeYearMonotone(a: int, b: int)
    requires 1 <= a <= b
    ensures DaysBeforeYear(a) + 365 * (b - a) <= DaysBeforeYear(b)
    decreases b - a
  {
    if a < b {
      DaysBeforeYearMonotone(a, b - 1);
    }
  }

  /** A date's ordinal lies within its year's block of days. */
  lemma OrdinalInYear(d: Date)
    requires ValidDate(d)
    ensures DaysBeforeYear(d.year) < Ordinal(d) <= DaysBeforeYear(d.year + 1)
    ensures Ordinal(d) == DaysBeforeYear(d.year + 1) <==> d.month == 12 && d.day == 31
  {
    DaysBeforeMonthMonotone(d.year, d.month + 1, 13);
    MonthsFillYear(d.year);
    if d.month < 12 {
      assert DaysBeforeMonth(d.year, d.month + 1) + 28 <= DaysBeforeMonth(d.year, 13);
    }
  }

  /** Every valid date lies at or before the last one `datetime` can represent. */
  lemma OrdinalBound(d: Date)
    requires ValidDate(d)
    ensures 1 <= Ordinal(d) <= MaxOrdinal
    ensures Ordinal(d) == MaxOrdinal <==> d == LastDate
  {
    OrdinalInYear(d);
    DaysBeforeYearMonotone(1, d.year);
    DaysBeforeYearClosed(MaxYear + 1);
    DaysBeforeYearMonotone(d.year + 1, MaxYear + 1);
    if d.year < MaxYear {
      DaysBeforeYearMonotone(d.year + 1, MaxYear);
      assert DaysBeforeYear(MaxYear + 1) == DaysBeforeYear(MaxYear) + 365;
    }
  }

  /** The day after `d`, or None when `d` is 9999-12-31 (Python raises OverflowError). */
  function NextDay(d: Date): (r: Option<Date>)
    requires ValidDate(d)
    ensures r.None? <==> d == LastDate
    ensures r.Some? ==> ValidDate(r.value) && Ordinal(r.value) == Ordinal(d) + 1
  {
    if d.day < DaysInMonth(d.year, d.month) then Some(Date(d.year, d.month, d.day + 1))
    else if d.month < 12 then Some(Date(d.year, d.month + 1, 1))
    else if d.year < MaxYear then
      MonthsFillYear(d.year);
      Some(Date(d.year + 1, 1, 1))
    else None
  }

  /**
   `d + timedelta(days=k)`: None exactly when the result would pass the last
   representable date.
   */
  function AddDays(d: Date, k: nat): (r: Option<Date>)
    requires ValidDate(d)
    ensures r.None? <==> Ordinal(d) + k > MaxOrdinal
    ensures r.Some? ==> ValidDate(r.value) && Ordinal(r.value) == Ordinal(d) + k
    decreases k
  {
    OrdinalBound(d);
    if k == 0 then Some(d)
    else match NextDay(d)
      case None => None
      case Some(e) => AddDays(e, k - 1)
  }

  /** Moving `k` days ahead moves the weekday `k` places round the week. */
  lemma WeekdayAfter(d: Date, k: nat)
    requires ValidDate(d) && AddDays(d, k).Some?
    ensures Weekday(AddDays(d, k).value) == (Weekday(d) + k) % 7
  {
    WeekdayOfOffset(d, AddDays(d, k).value);
  }

  /** The weekday of a later date is the earlier weekday moved on by the ordinal difference. */
  lemma WeekdayOfOffset(a: Date, b: Date)
    requires ValidDate(a) && ValidDate(b)
    ensures Weekday(b) == (Weekday(a) + (Ordinal(b) - Ordinal(a))) % 7
  {
    ModShift(Ordinal(a) + 6, Ordinal(b) - Ordinal(a));
  }

  lemma ModShift(a: int, k: int)
    ensures (a + k) % 7 == (a % 7 + k) % 7
  {
    var q, r := a / 7, a % 7;
    assert a + k == 7 * q + (r + k);
  }

  /** Python's `<` on dates: lexicographic on (year, month, day). */
  predicate DateLess(a: Date, b: Date) {
    || a.year < b.year
    || (a.year == b.year && a.month < b.month)
    || (a.year == b.year && a.month == b.month && a.day < b.day)
  }

  /** `datetime(d.year, d.month, d.day) < now`: the midnight starting `d` lies before `now`. */
  predicate MidnightBefore(d: Date, now: Instant) {
    DateLess(d, now.today) || (d == now.today && now.sinceMidnight > 0)
  }

  /** On valid dates the lexicographic order and the ordinal order agree. */
  lemma DateLessOrdinal(a: Date, b: Date)
    requires ValidDate(a) && ValidDate(b)
    ensures DateLess(a, b) <==> Ordinal(a) < Ordinal(b)
  {
    if a.year < b.year {
      YearLessOrdinal(a, b);
    } else if b.year < a.year {
      YearLessOrdinal(b, a);
    } else if a.month < b.month {
      MonthLessOrdinal(a, b);
    } else if b.month < a.month {
      MonthLessOrdinal(b, a);
    }
  }

  lemma YearLessOrdinal(a: Date, b: Date)
    requires ValidDate(a) && ValidDate(b) && a.year < b.year
    ensures Ordinal(a) < Ordinal(b)
  {
    OrdinalInYear(a);
    OrdinalInYear(b);
    DaysBeforeYearMonotone(a.year + 1, b.year);
  }

  lemma MonthLessOrdinal(a: Date, b: Date)
    requires ValidDate(a) && ValidDate(b) && a.year == b.year && a.month < b.month
    ensures Ordinal(a) < Ordinal(b)
  {
    DaysBeforeMonthMonotone(a.year, a.month + 1, b.month);
  }

  // ---------------------------------------------------------------------
  // Times of day

  datatype Clock = Clock(hour: int, minute: int)

  predicate ValidClock(c: Clock) {
    0 <= c.hour < 24 && 0 <= c.minute < 60
  }

  function Minutes(c: Clock): int {
    60 * c.hour + c.minute
  }

  const MinutesPerDay: int := 1440

  function ClockAt(t: int): (c: Clock)
    requires 0 <= t < MinutesPerDay
    ensures ValidClock(c) && Minutes(c) == t
  {
    Clock(t / 60, t % 60)
  }

  // ---------------------------------------------------------------------
  // String forms

  /** `d.strftime("%Y-%m-%d")`, with the year written as four digits. */
  function FormatIsoDate(d: Date): (r: string)
    requires d.year >= 0 && d.month >= 0 && d.day >= 0
    ensures d.year <= MaxYear && d.month < 100 && d.day < 100 ==>
      && |r| == 10 && r[4] == '-' && r[7] == '-'
      && AllDigits(r[..4]) && AllDigits(r[5..7]) && AllDigits(r[8..])
      && DigitsValue(r[..4]) == d.year && DigitsValue(r[5..7]) == d.month && DigitsValue(r[8..]) == d.day
  {
    var y, m, dd := ZeroPad(d.year, 4), ZeroPad(d.month, 2), ZeroPad(d.day, 2);
    ZeroPadValue(d.year, 4);
    ZeroPadValue(d.month, 2);
    ZeroPadValue(d.day, 2);
    if d.year <= MaxYear && d.month < 100 && d.day < 100 then
      ZeroPadWidth(d.year, 4);
      TwoDigitField(d.month);
      TwoDigitField(d.day);
      var r := y + "-" + m + "-" + dd;
      assert r[..4] == y && r[5..7] == m && r[8..] == dd;
      r
    else y + "-" + m + "-" + dd
  }

  /** `c.strftime("%H:%M")`, and the `f"{hour:02d}:{minute:02d}"` of the time extractor. */
  function FormatClock(c: Clock): string
    requires c.hour >= 0 && c.minute >= 0
  {
    ZeroPad(c.hour, 2) + ":" + ZeroPad(c.minute, 2)
  }

  /** The `%m` directive of strptime: `1[0-2]|0[1-9]|[1-9]`. */
  predicate IsMonthField(f: string) {
    || (|f| == 2 && f[0] == '1' && '0' <= f[1] <= '2')
    || (|f| == 2 && f[0] == '0' && '1' <= f[1] <= '9')
    || (|f| == 1 && '1' <= f[0] <= '9')
  }

  /** The `%d` directive of strptime: `3[01]|[12]\d|0[1-9]|[1-9]| [1-9]`. */
  predicate IsDayField(f: string) {
    || (|f| == 2 && f[0] == '3' && '0' <= f[1] <= '1')
    || (|f| == 2 && '1' <= f[0] <= '2' && IsDigit(f[1]))
    || (|f| == 2 && f[0] == '0' && '1' <= f[1] <= '9')
    || (|f| == 1 && '1' <= f[0] <= '9')
    || (|f| == 2 && f[0] == ' ' && '1' <= f[1] <= '9')
  }

  /** The `%H` directive of strptime: `2[0-3]|[0-1]\d|\d`. */
  predicate IsHourField(f: string) {
    || (|f| == 2 && f[0] == '2' && '0' <= f[1] <= '3')
    || (|f| == 2 && '0' <= f[0] <= '1' && IsDigit(f[1]))
    || (|f| == 1 && IsDigit(f[0]))
  }

  /** The `%M` directive of strptime: `[0-5]\d|\d`. */
  predicate IsMinuteField(f: string) {
    || (|f| == 2 && '0' <= f[0] <= '5' && IsDigit(f[1]))
    || (|f| == 1 && IsDigit(f[0]))
  }

  /** The number a matched one- or two-character field stands for; `%d` allows one leading space. */
  function FieldValue(f: string): (n: nat)
    requires 1 <= |f| <= 2 && (AllDigits(f) || (|f| == 2 && f[0] == ' ' && IsDigit(f[1])))
    ensures |f| == 1 ==> n == DigitValue(f[0])
    ensures |f| == 2 && f[0] == ' ' ==> n == DigitValue(f[1])
    ensures |f| == 2 && f[0] != ' ' ==> n == 10 * DigitValue(f[0]) + DigitValue(f[1])
  {
    if f[0] == ' ' then DigitValue(f[1])
    else
      ShortDigitsValue(f);
      DigitsValue(f)
  }

  /** `s` has the `%Y-%m-%d` layout with a month field `mlen` characters long. */
  predicate IsoFields(s: string, mlen: nat) {
    && (mlen == 1 || mlen == 2)
    && |s| >= 6 + mlen && AllDigits(s[..4]) && s[4] == '-'
    && s[5 + mlen] == '-' && IsMonthField(s[5..5 + mlen]) && IsDayField(s[6 + mlen..])
  }

  /** The date the fields of such a layout name, whether or not it exists. */
  function IsoFieldsDate(s: string, mlen: nat): Date
    requires IsoFields(s, mlen)
  {
    Date(DigitsValue(s[..4]), FieldValue(s[5..5 + mlen]), FieldValue(s[6 + mlen..]))
  }

  /**
   `datetime.strptime(s, "%Y-%m-%d")`: the format's regular expression must
   match from the start and consume all of `s`, and the fields must then form a
   valid date. A month field is always followed by `-`, so which alternative
   of `%m` matches is decided by the character after it.
   */
  function ParseIsoDate(s: string): (r: Option<Date>)
    ensures r.Some? ==> ValidDate(r.value)
    ensures r.Some? ==> |s| >= 8 && AllDigits(s[..4]) && s[4] == '-' && r.value.year == DigitsValue(s[..4])
    ensures r.Some? <==>
      || (IsoFields(s, 2) && ValidDate(IsoFieldsDate(s, 2)))
      || (IsoFields(s, 1) && ValidDate(IsoFieldsDate(s, 1)))
    ensures IsoFields(s, 2) && ValidDate(IsoFieldsDate(s, 2)) ==> r == Some(IsoFieldsDate(s, 2))
    ensures IsoFields(s, 1) && ValidDate(IsoFieldsDate(s, 1)) ==> r == Some(IsoFieldsDate(s, 1))
  {
    if |s| < 8 || !AllDigits(s[..4]) || s[4] != '-' then None
    else
      var rest := s[5..];
      var mlen :=
        if |rest| >= 3 && rest[2] == '-' && IsMonthField(rest[..2]) then 2
        else if |rest| >= 2 && rest[1] == '-' && IsMonthField(rest[..1]) then 1
        else 0;
      if mlen == 0 || !IsDayField(rest[mlen + 1..]) then None
      else
        var d := Date(DigitsValue(s[..4]), FieldValue(rest[..mlen]), FieldValue(rest[mlen + 1..]));
        if ValidDate(d) then Some(d) else None
  }

  /** `datetime.strptime(s, "%H:%M").time()`, under the same whole-string rule. */
  function ParseClock(s: string): (r: Option<Clock>)
    ensures r.Some? ==> ValidClock(r.value)
    ensures r.Some? <==>
      || (|s| >= 3 && s[2] == ':' && IsHourField(s[..2]) && IsMinuteField(s[3..]))
      || (|s| >= 2 && s[1] == ':' && IsHourField(s[..1]) && IsMinuteField(s[2..]))
    ensures |s| >= 3 && s[2] == ':' && IsHourField(s[..2]) && IsMinuteField(s[3..]) ==>
      r == Some(Clock(FieldValue(s[..2]), FieldValue(s[3..])))
    ensures |s| >= 2 && s[1] == ':' && IsHourField(s[..1]) && IsMinuteField(s[2..]) ==>
      r == Some(Clock(FieldValue(s[..1]), FieldValue(s[2..])))
  {
    var hlen :=
      if |s| >= 3 && s[2] == ':' && IsHourField(s[..2]) then 2
      else if |s| >= 2 && s[1] == ':' && IsHourField(s[..1]) then 1
      else 0;
    if hlen == 0 || !IsMinuteField(s[hlen + 1..]) then None
    else Some(Clock(FieldValue(s[..hlen]), FieldValue(s[hlen + 1..])))
  }

  lemma TwoDigitField(n: nat)
    requires n < 100
    ensures |ZeroPad(n, 2)| == 2
    ensures ZeroPad(n, 2)[0] == DigitChar(n / 10) && ZeroPad(n, 2)[1] == DigitChar(n % 10)
    ensures DigitsValue(ZeroPad(n, 2)) == n
  {
    ZeroPadWidth(n, 2);
    ZeroPadValue(n, 2);
    if n >= 10 {
      assert Decimal(n) == Decimal(n / 10) + [DigitChar(n % 10)];
    }
  }

  /** Hours and minutes below 100 are written as `HH:MM`, five characters. */
  lemma FormatClockShape(c: Clock)
    requires 0 <= c.hour < 100 && 0 <= c.minute < 100
    ensures |FormatClock(c)| == 5 && FormatClock(c)[2] == ':'
  {
    ZeroPadWidth(c.hour, 2);
    ZeroPadWidth(c.minute, 2);
  }

  lemma PaddedMonthField(m: int)
    requires 1 <= m <= 12
    ensures |ZeroPad(m, 2)| == 2 && IsMonthField(ZeroPad(m, 2)) && FieldValue(ZeroPad(m, 2)) == m
  {
    TwoDigitField(m);
  }

  lemma PaddedDayField(d: int)
    requires 1 <= d <= 31
    ensures |ZeroPad(d, 2)| == 2 && IsDayField(ZeroPad(d, 2)) && FieldValue(ZeroPad(d, 2)) == d
  {
    TwoDigitField(d);
  }

  /** Writing a valid date with strftime and reading it back with strptime gives the date back. */
  lemma IsoDateRoundTrip(d: Date)
    requires ValidDate(d)
    ensures ParseIsoDate(FormatIsoDate(d)) == Some(d)
  {
    var s := FormatIsoDate(d);
    ZeroPadWidth(d.year, 4);
    ZeroPadValue(d.year, 4);
    PaddedMonthField(d.month);
    PaddedDayField(d.day);
    var y, m, dd := ZeroPad(d.year, 4), ZeroPad(d.month, 2), ZeroPad(d.day, 2);
    assert s[..4] == y;
    assert s[5..] == m + "-" + dd;
    assert (s[5..])[..2] == m;
    assert (s[5..])[3..] == dd;
  }

  /** Writing a valid time with strftime and reading it back with strptime gives the time back. */
  lemma ClockRoundTrip(c: Clock)
    requires ValidClock(c)
    ensures ParseClock(FormatClock(c)) == Some(c)
  {
    var s := FormatClock(c);
    TwoDigitField(c.hour);
    TwoDigitField(c.minute);
    assert s[..2] == ZeroPad(c.hour, 2);
    assert s[3..] == ZeroPad(c.minute, 2);
  }

  /** Distinct valid dates have distinct strftime forms. */
  lemma IsoDateInjective(a: Date, b: Date)
    requires ValidDate(a) && ValidDate(b) && FormatIsoDate(a) == FormatIsoDate(b)
    ensures a == b
  {
    IsoDateRoundTrip(a);
    IsoDateRoundTrip(b);
  }
}
