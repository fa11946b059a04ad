/**
 The natural-language extractors of the appointment service: the specialty
 normaliser, the date extractor with its relative words, weekday names and
 numeric forms, and the time extractor with its 12-to-24-hour heuristics.
 The caller's clock is an explicit `now`; every table is tried in the order
 the source lists it, and the first hit wins.
 */
module Extractors {
  import opened Wrappers
  import opened Text
  import opened Calendar
  import opened Patterns

  // ---------------------------------------------------------------------
  // Specialties

  /** The specialty table: Russian keyword to specialty code, in table order. */
  const SpecialtyTable: seq<(string, string)> := [
    ("терапевт", "therapy"), ("терапия", "therapy"), ("терапевта", "therapy"),
    ("кардиолог", "cardiology"), ("кардиология", "cardiology"), ("кардиолога", "cardiology"),
    ("невролог", "neurology"), ("неврология", "neurology"), ("невролога", "neurology"),
    ("гинеколог", "gynecology"), ("гинекология", "gynecology"), ("гинеколога", "gynecology"),
    ("уролог", "urology"), ("урология", "urology"), ("уролога", "urology"),
    ("педиатр", "pediatrics"), ("педиатрия", "pediatrics"), ("педиатра", "pediatrics")
  ]

  const SpecialtyCodes: seq<string> := ["therapy", "cardiology", "neurology", "gynecology", "urology", "pediatrics"]

  /** The specialty code of the first table keyword contained in the lower-cased text. */
  function NormalizeSpecialty(text: string): (r: Option<string>)
    ensures r.None? <==> forall j :: 0 <= j < |SpecialtyTable| ==> !Contains(LowerStr(text), SpecialtyTable[j].0)
    ensures r.Some? ==> exists k :: && 0 <= k < |SpecialtyTable|
                                    && Contains(LowerStr(text), SpecialtyTable[k].0)
                                    && r.value == SpecialtyTable[k].1
                                    && forall j :: 0 <= j < k ==> !Contains(LowerStr(text), SpecialtyTable[j].0)
  {
    FirstValue(SpecialtyTable, LowerStr(text))
  }

  /** Every keyword of the table maps to one of the six specialty codes. */
  lemma TableCodesKnown()
    ensures forall k :: 0 <= k < |SpecialtyTable| ==> SpecialtyTable[k].1 in SpecialtyCodes
  {
  }

  /** Whatever the normaliser returns is one of the six specialty codes. */
  lemma NormalizedIsCode(text: string)
    ensures NormalizeSpecialty(text).Some? ==> NormalizeSpecialty(text).value in SpecialtyCodes
  {
    TableCodesKnown();
  }

  /** Normalising is insensitive to case: lower-casing the text first changes nothing. */
  lemma NormalizeIgnoresCase(text: string)
    ensures NormalizeSpecialty(LowerStr(text)) == NormalizeSpecialty(text)
  {
    LowerIdempotent(text);
  }

  /** The specialty codes themselves are not keywords: no ASCII text normalises. */
  lemma CodesDoNotNormalize(text: string)
    requires IsAscii(text)
    ensures NormalizeSpecialty(text).None?
  {
    LowerKeepsAscii(text);
    assert NonAsciiKeys(SpecialtyTable);
    AsciiNoHit(SpecialtyTable, LowerStr(text));
  }

  // ---------------------------------------------------------------------
  // Weekdays

  /** The weekday table: full names first, then the two-letter abbreviations; Monday is 0. */
  type WeekdayIndex = n: nat | n < 7

  const WeekdayTable: seq<(string, WeekdayIndex)> := [
    ("понедельник", 0), ("вторник", 1), ("среда", 2), ("четверг", 3),
    ("пятница", 4), ("суббота", 5), ("воскресенье", 6),
    ("пн", 0), ("вт", 1), ("ср", 2), ("чт", 3), ("пт", 4), ("сб", 5), ("вс", 6)
  ]

  /** The weekday `k` days after weekday `w`. */
  function WeekdayShift(w: nat, k: nat): nat {
    (w + k) % 7
  }

  /** The number of days from weekday `current` to the next `target`: 1 to 7, never 0. */
  function DaysAhead(current: nat, target: nat): (n: nat)
    requires current < 7 && target < 7
    ensures 1 <= n <= 7 && WeekdayShift(current, n) == target
    ensures forall k :: 1 <= k < n ==> WeekdayShift(current, k) != target
  {
    var d := target - current;
    if d <= 0 then d + 7 else d
  }

  /**
   `_get_next_weekday_date`: `today` plus the days up to the next weekday `w`;
   None when that date would pass 9999-12-31.
   */
  function NextWeekdayDate(today: Date, w: nat): (r: Option<Date>)
    requires ValidDate(today) && w < 7
    ensures r.Some? ==> ValidDate(r.value)
    ensures r.None? <==> Ordinal(today) + DaysAhead(Weekday(today), w) > MaxOrdinal
  {
    AddDays(today, DaysAhead(Weekday(today), w))
  }

  /** The date found falls on the requested weekday. */
  lemma NextWeekdayIsWeekday(today: Date, w: nat)
    requires ValidDate(today) && w < 7 && NextWeekdayDate(today, w).Some?
    ensures Weekday(NextWeekdayDate(today, w).value) == w
  {
    WeekdayAfter(today, DaysAhead(Weekday(today), w));
  }

  /** The date found lies one to seven days after today, never today itself. */
  lemma NextWeekdayWithinWeek(today: Date, w: nat)
    requires ValidDate(today) && w < 7
    ensures NextWeekdayDate(today, w).Some? ==>
      Ordinal(today) < Ordinal(NextWeekdayDate(today, w).value) <= Ordinal(today) + 7
    ensures Ordinal(today) + 7 <= MaxOrdinal ==> NextWeekdayDate(today, w).Some?
  {
  }

  /** No date strictly between today and the date found falls on the requested weekday. */
  lemma NextWeekdayNearest(today: Date, w: nat, e: Date)
    requires ValidDate(today) && w < 7 && NextWeekdayDate(today, w).Some?
    requires ValidDate(e) && Ordinal(today) < Ordinal(e) < Ordinal(NextWeekdayDate(today, w).value)
    ensures Weekday(e) != w
  {
    var n := DaysAhead(Weekday(today), w);
    var k: nat := Ordinal(e) - Ordinal(today);
    assert Ordinal(NextWeekdayDate(today, w).value) == Ordinal(today) + n;
    assert 1 <= k < n;
    WeekdayAtOffset(today, e, k);
    assert WeekdayShift(Weekday(today), k) != w;
  }

  /** A date `k` days after another falls `k` weekdays later. */
  lemma WeekdayAtOffset(a: Date, b: Date, k: nat)
    requires ValidDate(a) && ValidDate(b) && Ordinal(b) == Ordinal(a) + k
    ensures Weekday(b) == WeekdayShift(Weekday(a), k)
  {
    WeekdayOfOffset(a, b);
  }

  // ---------------------------------------------------------------------
  // Dates

  /** The numeric date patterns, in the order they are tried. */
  const DatePatterns: seq<Pattern> := [DayDotMonthDotYear, DayDotMonth, DayMonthName]

  /** The relative words, in the order they are checked. */
  const RelativeWords: seq<string> := ["сегодня", "завтра", "послезавтра"]

  /** The month number of a genitive month name. */
  function MonthNumber(name: string): (m: int)
    requires name in MonthNames
    ensures 1 <= m <= 12 && MonthNames[m - 1] == name
  {
    IndexOf(MonthNames, name, 0) + 1
  }

  function IndexOf(words: seq<string>, w: string, from: nat): (k: nat)
    requires from <= |words| && w in words[from..]
    ensures from <= k < |words| && words[k] == w
    decreases |words| - from
  {
    if words[from] == w then from
    else
      assert w in words[from + 1..] by {
        assert words[from..] == [words[from]] + words[from + 1..];
      }
      IndexOf(words, w, from + 1)
  }

  /**
   `datetime(year, month, day)` for a date written with its year: that date when
   it exists, and today's date when the constructor raises.
   */
  function ExactDate(day: int, month: int, year: int, today: Date): (r: Date)
    requires ValidDate(today)
    ensures ValidDate(r)
    ensures ValidDate(Date(year, month, day)) ==> r == Date(year, month, day)
    ensures !ValidDate(Date(year, month, day)) ==> r == today
  {
    var d := Date(year, month, day);
    if ValidDate(d) then d else today
  }

  /**
   A day and month without a year: this year's date, or next year's when this
   year's midnight already lies before `now`; today's date when the date this
   year does not exist, or when it has passed and next year's does not exist.
   */
  function RollForward(day: int, month: int, now: Instant): (r: Date)
    requires ValidDate(now.today)
    ensures ValidDate(r)
    ensures !ValidDate(Date(now.today.year, month, day)) ==> r == now.today
    ensures r != now.today ==> r.month == month && r.day == day && !MidnightBefore(r, now)
    ensures r != now.today ==> r.year == now.today.year || r.year == now.today.year + 1
    ensures r.year == now.today.year + 1 ==> MidnightBefore(Date(now.today.year, month, day), now)
    ensures ValidDate(Date(now.today.year, month, day)) && !MidnightBefore(Date(now.today.year, month, day), now) ==>
      r == Date(now.today.year, month, day)
    ensures ValidDate(Date(now.today.year, month, day)) && MidnightBefore(Date(now.today.year, month, day), now) ==>
      r == (if ValidDate(Date(now.today.year + 1, month, day)) then Date(now.today.year + 1, month, day) else now.today)
  {
    var d := Date(now.today.year, month, day);
    if !ValidDate(d) then now.today
    else if !MidnightBefore(d, now) then d
    else
      var e := Date(now.today.year + 1, month, day);
      if ValidDate(e) then e else now.today
  }

  /** `_parse_date_match`: the date a hit of numeric pattern `k` stands for. */
  function DateFromMatch(k: nat, m: Match, now: Instant): (r: Date)
    requires ValidDate(now.today) && k < |DatePatterns| && GroupsFit(DatePatterns[k], m.groups)
    ensures ValidDate(r)
    ensures k == 0 ==> r == ExactDate(DigitsValue(m.groups[0]), DigitsValue(m.groups[1]), DigitsValue(m.groups[2]), now.today)
    ensures k == 1 ==> r == RollForward(DigitsValue(m.groups[0]), DigitsValue(m.groups[1]), now)
    ensures k == 2 ==> r == RollForward(DigitsValue(m.groups[0]), MonthNumber(m.groups[1]), now)
  {
    var g := m.groups;
    if k == 0 then ExactDate(DigitsValue(g[0]), DigitsValue(g[1]), DigitsValue(g[2]), now.today)
    else if k == 1 then RollForward(DigitsValue(g[0]), DigitsValue(g[1]), now)
    else RollForward(DigitsValue(g[0]), MonthNumber(g[1]), now)
  }

  /** Does the lower-cased text hold anything the date extractor reacts to? */
  predicate MentionsDate(lower: string) {
    || (exists j :: 0 <= j < |RelativeWords| && Contains(lower, RelativeWords[j]))
    || (exists j :: 0 <= j < |WeekdayTable| && Contains(lower, WeekdayTable[j].0))
    || (exists j :: 0 <= j < |DatePatterns| && Search(DatePatterns[j], lower).Some?)
  }

  /** The date steps after the relative words: the weekday names, then the numeric patterns. */
  function WeekdayOrNumericDate(lower: string, now: Instant): (r: Option<Date>)
    requires ValidDate(now.today)
    ensures r.Some? ==> ValidDate(r.value)
    ensures FirstHit(WeekdayTable, lower).Some? ==>
      r == NextWeekdayDate(now.today, WeekdayTable[FirstHit(WeekdayTable, lower).value].1)
    ensures FirstHit(WeekdayTable, lower).None? ==>
      (r.None? <==> forall j :: 0 <= j < |DatePatterns| ==> Search(DatePatterns[j], lower).None?)
    ensures FirstHit(WeekdayTable, lower).None? ==> r == NumericDate(lower, now)
  {
    match FirstHit(WeekdayTable, lower)
    case Some(k) => NextWeekdayDate(now.today, WeekdayTable[k].1)
    case None => NumericDate(lower, now)
  }

  /** The numeric patterns, tried in order: the date the first one with a hit stands for. */
  function NumericDate(lower: string, now: Instant): (r: Option<Date>)
    requires ValidDate(now.today)
    ensures r.Some? ==> ValidDate(r.value)
    ensures r.None? <==> forall j :: 0 <= j < |DatePatterns| ==> Search(DatePatterns[j], lower).None?
    ensures r.Some? ==>
      && FirstSearch(DatePatterns, lower).Some?
      && r.value == DateFromMatch(FirstSearch(DatePatterns, lower).value.0, FirstSearch(DatePatterns, lower).value.1, now)
  {
    match FirstSearch(DatePatterns, lower)
    case None => None
    case Some(hit) => Some(DateFromMatch(hit.0, hit.1, now))
  }

  /**
   `parse_date_from_text`. "сегодня" is checked before "завтра", and "завтра"
   before "послезавтра"; since the last contains the second, its branch is
   never taken. None when nothing matches, and when adding days passes
   9999-12-31 (the `OverflowError` the outer handler turns into None).
   */
  function ExtractDay(text: string, now: Instant): (r: Option<Date>)
    requires ValidDate(now.today)
    ensures r.Some? ==> ValidDate(r.value)
    ensures Contains(LowerStr(text), "сегодня") ==> r == Some(now.today)
    ensures !Contains(LowerStr(text), "сегодня") && Contains(LowerStr(text), "завтра") ==> r == AddDays(now.today, 1)
    ensures !MentionsDate(LowerStr(text)) ==> r.None?
    ensures r.None? && Ordinal(now.today) + 7 <= MaxOrdinal ==> !MentionsDate(LowerStr(text))
    ensures (forall j :: 0 <= j < |RelativeWords| ==> !Contains(LowerStr(text), RelativeWords[j])) ==>
      r == WeekdayOrNumericDate(LowerStr(text), now)
  {
    var lower := LowerStr(text);
    assert RelativeWords[0] == "сегодня" && RelativeWords[1] == "завтра" && RelativeWords[2] == "послезавтра";
    if Contains(lower, "сегодня") then Some(now.today)
    else if Contains(lower, "завтра") then AddDays(now.today, 1)
    else if Contains(lower, "послезавтра") then AddDays(now.today, 2)
    else WeekdayOrNumericDate(lower, now)
  }

  /** `parse_date_from_text` with its `"%Y-%m-%d"` result. */
  function ExtractDate(text: string, now: Instant): (r: Option<string>)
    requires ValidDate(now.today)
    ensures r.Some? <==> ExtractDay(text, now).Some?
    ensures r.Some? ==> ParseIsoDate(r.value) == ExtractDay(text, now)
    ensures r.Some? ==> r.value == FormatIsoDate(ExtractDay(text, now).value)
  {
    match ExtractDay(text, now)
    case None => None
    case Some(d) =>
      IsoDateRoundTrip(d);
      Some(FormatIsoDate(d))
  }

  /** "послезавтра" (the day after tomorrow) yields tomorrow: the "завтра" test catches it first. */
  lemma DayAfterTomorrowIsTomorrow(text: string, now: Instant)
    requires ValidDate(now.today)
    requires Contains(LowerStr(text), "послезавтра") && !Contains(LowerStr(text), "сегодня")
    ensures ExtractDay(text, now) == AddDays(now.today, 1)
  {
    assert "послезавтра" == "после" + "завтра";
    ContainsSuffix(LowerStr(text), "после", "завтра");
  }

  /**
   The date extractor with the relative words checked longest first, so that
   "послезавтра" yields today + 2.
   */
  function ExtractDayFixed(text: string, now: Instant): (r: Option<Date>)
    requires ValidDate(now.today)
    ensures r.Some? ==> ValidDate(r.value)
    ensures !Contains(LowerStr(text), "послезавтра") ==> r == ExtractDay(text, now)
  {
    var lower := LowerStr(text);
    if Contains(lower, "сегодня") then Some(now.today)
    else if Contains(lower, "послезавтра") then AddDays(now.today, 2)
    else if Contains(lower, "завтра") then AddDays(now.today, 1)
    else WeekdayOrNumericDate(lower, now)
  }

  /** With the corrected order, "послезавтра" is two days ahead. */
  lemma DayAfterTomorrowFixed(text: string, now: Instant)
    requires ValidDate(now.today)
    requires Contains(LowerStr(text), "послезавтра") && !Contains(LowerStr(text), "сегодня")
    ensures ExtractDayFixed(text, now) == AddDays(now.today, 2)
    ensures ExtractDayFixed(text, now).Some? ==> Ordinal(ExtractDayFixed(text, now).value) == Ordinal(now.today) + 2
  {
  }

  /**
   Unless the text gives a year, the extracted date is never before today:
   relative words and weekdays look ahead, and day-month dates roll over.
   */
  lemma {:induction false} NoYearNotPast(text: string, now: Instant)
    requires ValidDate(now.today)
    requires Search(DayDotMonthDotYear, LowerStr(text)).None?
    ensures ExtractDay(text, now).Some? ==> Ordinal(now.today) <= Ordinal(ExtractDay(text, now).value)
  {
    var lower := LowerStr(text);
    var r := ExtractDay(text, now);
    if r.Some? && !Contains(lower, "сегодня") && !Contains(lower, "завтра") && !Contains(lower, "послезавтра")
      && FirstHit(WeekdayTable, lower).None?
    {
      var hit := FirstSearch(DatePatterns, lower).value;
      assert hit.0 != 0;
      var d := DateFromMatch(hit.0, hit.1, now);
      assert r.value == d;
      if d != now.today {
        DateLessOrdinal(d, now.today);
      }
    }
  }

  /** Two digits at `i` make a full `\d{1,2}` run. */
  lemma DigitRunTwo(s: string, i: nat)
    requires i + 2 <= |s| && IsDigit(s[i]) && IsDigit(s[i + 1])
    ensures DigitRun(s, i, 2) == 2
  {
    assert DigitRun(s, i + 1, 1) == 1;
  }

  /** The text `DD.MM.YYYY` of a date, as a patient would say it. */
  function DottedDate(d: Date): string
    requires d.year >= 0 && d.month >= 0 && d.day >= 0
  {
    ZeroPad(d.day, 2) + "." + ZeroPad(d.month, 2) + "." + ZeroPad(d.year, 4)
  }

  /** Text without Cyrillic letters skips the relative words and weekday names. */
  lemma AsciiTextIsNumeric(s: string, now: Instant)
    requires ValidDate(now.today) && IsAscii(s)
    ensures ExtractDay(s, now) == NumericDate(LowerStr(s), now)
  {
    var lower := LowerStr(s);
    LowerKeepsAscii(s);
    AsciiLacks(lower, "сегодня");
    AsciiLacks(lower, "завтра");
    AsciiLacks(lower, "послезавтра");
    AsciiSkipsWeekdays(lower);
  }

  lemma AsciiSkipsWeekdays(lower: string)
    requires IsAscii(lower)
    ensures FirstHit(WeekdayTable, lower).None?
  {
    assert NonAsciiKeys(WeekdayTable);
    AsciiNoHit(WeekdayTable, lower);
  }

  /** The layout of `DD.MM.YYYY`: two digits, a dot, two digits, a dot, four digits. */
  lemma DottedDateShape(d: Date)
    requires 0 <= d.day < 100 && 0 <= d.month < 100 && 0 <= d.year <= MaxYear
    ensures var s := DottedDate(d);
      && |s| == 10 && s[2] == '.' && s[5] == '.'
      && s[..2] == ZeroPad(d.day, 2) && s[3..5] == ZeroPad(d.month, 2) && s[6..10] == ZeroPad(d.year, 4)
      && IsAscii(s) && LowerStr(s) == s
    ensures DigitsValue(ZeroPad(d.day, 2)) == d.day && DigitsValue(ZeroPad(d.month, 2)) == d.month
    ensures DigitsValue(ZeroPad(d.year, 4)) == d.year
  {
    var s := DottedDate(d);
    TwoDigitField(d.day);
    TwoDigitField(d.month);
    ZeroPadWidth(d.year, 4);
    ZeroPadValue(d.year, 4);
    assert forall i :: 0 <= i < |s| ==> IsDigit(s[i]) || s[i] == '.';
    LowerStrFixed(s);
  }

  /** `DD.MM.YYYY` at the start of the text is a hit of the first date pattern, with its three fields. */
  lemma DottedDateMatch(d: Date)
    requires 0 <= d.day < 100 && 0 <= d.month < 100 && 0 <= d.year <= MaxYear
    ensures IsAscii(DottedDate(d)) && LowerStr(DottedDate(d)) == DottedDate(d)
    ensures FirstSearch(DatePatterns, DottedDate(d))
      == Some((0, Match(0, 10, [ZeroPad(d.day, 2), ZeroPad(d.month, 2), ZeroPad(d.year, 4)])))
    ensures DigitsValue(ZeroPad(d.day, 2)) == d.day && DigitsValue(ZeroPad(d.month, 2)) == d.month
    ensures DigitsValue(ZeroPad(d.year, 4)) == d.year
  {
    var s := DottedDate(d);
    DottedDateShape(d);
    assert IsDigit(s[0]) && IsDigit(s[1]) && IsDigit(s[3]) && IsDigit(s[4]) by {
      assert s[..2][0] == s[0] && s[..2][1] == s[1] && s[3..5][0] == s[3] && s[3..5][1] == s[4];
    }
    DigitRunTwo(s, 0);
    DigitRunTwo(s, 3);
    assert s[0..2] == s[..2];
    var m := MatchDayMonthYear(s, 0);
    assert m == Some(Match(0, 10, [ZeroPad(d.day, 2), ZeroPad(d.month, 2), ZeroPad(d.year, 4)]));
    assert MatchAt(DayDotMonthDotYear, s, 0) == m;
  }

  /** A date written as `DD.MM.YYYY` is extracted as exactly that date, past or future. */
  lemma DottedDateExact(d: Date, now: Instant)
    requires ValidDate(now.today) && ValidDate(d)
    ensures ExtractDay(DottedDate(d), now) == Some(d)
  {
    DottedDateMatch(d);
    AsciiTextIsNumeric(DottedDate(d), now);
  }

  /** A `DD.MM.YYYY` that names no real day, such as 31.02.2025, yields today's date rather than None. */
  lemma NonexistentDottedDateIsToday(d: Date, now: Instant)
    requires ValidDate(now.today) && !ValidDate(d)
    requires 0 <= d.day < 100 && 0 <= d.month < 100 && 0 <= d.year <= MaxYear
    ensures ExtractDay(DottedDate(d), now) == Some(now.today)
  {
    DottedDateMatch(d);
    AsciiTextIsNumeric(DottedDate(d), now);
  }

  /** The text `DD.MM` of a day and month, with no year. */
  function DayMonthText(day: nat, month: nat): string {
    ZeroPad(day, 2) + "." + ZeroPad(month, 2)
  }

  /** Five characters hold no `DD.MM.YYYY`: its second dot and year need at least eight. */
  lemma ShortTextNoYear(s: string)
    requires |s| <= 7
    ensures Search(DayDotMonthDotYear, s).None?
  {
    forall i | 0 <= i <= |s|
      ensures MatchAt(DayDotMonthDotYear, s, i).None?
    {
      assert MatchAt(DayDotMonthDotYear, s, i) == MatchDayMonthYear(s, i);
    }
  }

  /**
   A day and month written `DD.MM` are read as this year's date, or next
   year's once this year's midnight has passed.
   */
  lemma DayMonthRolls(day: nat, month: nat, now: Instant)
    requires day < 100 && month < 100 && ValidDate(now.today)
    ensures ExtractDay(DayMonthText(day, month), now) == Some(RollForward(day, month, now))
  {
    var s := DayMonthText(day, month);
    TwoDigitField(day);
    TwoDigitField(month);
    assert |s| == 5 && s[2] == '.' && s[..2] == ZeroPad(day, 2) && s[3..5] == ZeroPad(month, 2);
    assert forall i :: 0 <= i < |s| ==> IsDigit(s[i]) || s[i] == '.';
    LowerStrFixed(s);
    AsciiTextIsNumeric(s, now);
    ShortTextNoYear(s);
    DigitRunTwo(s, 0);
    DigitRunTwo(s, 3);
    assert s[0..2] == s[..2];
    assert MatchAt(DayDotMonth, s, 0) == Some(Match(0, 5, [ZeroPad(day, 2), ZeroPad(month, 2)]));
    FirstSearchAt(DatePatterns, s, 1);
  }

  // ---------------------------------------------------------------------
  // Times

  /** The time patterns, in the order they are tried. */
  const TimePatterns: seq<Pattern> := [
    HourColonMinute, HourDotMinute, AtHour,
    HourBefore("утра"), HourBefore("дня"), HourBefore("вечера")
  ]

  /**
   `_parse_time_match`: the time a hit of time pattern `k` stands for. There is
   no range check: any one- or two-digit hour and minute are accepted.
   */
  function ClockFromMatch(k: nat, m: Match): (c: Clock)
    requires k < |TimePatterns| && GroupsFit(TimePatterns[k], m.groups)
    ensures 0 <= c.hour < 100 && 0 <= c.minute < 100
    ensures k <= 2 ==> c.hour == DigitsValue(m.groups[0])
    ensures k <= 1 ==> c.minute == DigitsValue(m.groups[1])
    ensures k >= 2 ==> c.minute == 0
    ensures k == 3 ==> c.hour == (if DigitsValue(m.groups[0]) == 12 then 0 else DigitsValue(m.groups[0]))
    ensures k >= 4 ==> c.hour == (if DigitsValue(m.groups[0]) < 12 then DigitsValue(m.groups[0]) + 12 else DigitsValue(m.groups[0]))
  {
    ShortDigitsValue(m.groups[0]);
    var h := DigitsValue(m.groups[0]);
    if k <= 1 then
      ShortDigitsValue(m.groups[1]);
      Clock(h, DigitsValue(m.groups[1]))
    else if k == 2 then Clock(h, 0)
    else if k == 3 then Clock(if h == 12 then 0 else h, 0)
    else Clock(if h < 12 then h + 12 else h, 0)
  }

  /** `parse_time_from_text` before formatting: the first time pattern with a hit anywhere. */
  function ExtractClock(text: string): (r: Option<Clock>)
    ensures r.None? <==> forall j :: 0 <= j < |TimePatterns| ==> Search(TimePatterns[j], LowerStr(text)).None?
    ensures r.Some? ==> 0 <= r.value.hour < 100 && 0 <= r.value.minute < 100
    ensures r.Some? ==>
      && FirstSearch(TimePatterns, LowerStr(text)).Some?
      && r.value == ClockFromMatch(FirstSearch(TimePatterns, LowerStr(text)).value.0, FirstSearch(TimePatterns, LowerStr(text)).value.1)
  {
    match FirstSearch(TimePatterns, LowerStr(text))
    case None => None
    case Some(hit) => Some(ClockFromMatch(hit.0, hit.1))
  }

  /** `parse_time_from_text`: the time as the zero-padded `HH:MM` string. */
  function ExtractTime(text: string): (r: Option<string>)
    ensures r.Some? <==> ExtractClock(text).Some?
    ensures r.Some? ==> |r.value| == 5 && r.value[2] == ':'
    ensures r.Some? ==> r.value == FormatClock(ExtractClock(text).value)
  {
    match ExtractClock(text)
    case None => None
    case Some(c) =>
      FormatClockShape(c);
      Some(FormatClock(c))
  }

  /** The colon pattern hits a whole `HH:MM` string, with the two padded fields as its groups. */
  lemma ClockTextMatch(c: Clock)
    requires 0 <= c.hour < 100 && 0 <= c.minute < 100
    ensures Search(HourColonMinute, FormatClock(c)) == Some(Match(0, 5, [ZeroPad(c.hour, 2), ZeroPad(c.minute, 2)]))
  {
    var s := FormatClock(c);
    TwoDigitField(c.hour);
    TwoDigitField(c.minute);
    assert |s| == 5 && s[2] == ':';
    assert s[..2] == ZeroPad(c.hour, 2) && s[3..] == ZeroPad(c.minute, 2);
    DigitRunTwo(s, 0);
    assert s[3..5] == ZeroPad(c.minute, 2);
    var m := MatchHourMinute(s, 0, ':');
    assert m == Some(Match(0, 5, [ZeroPad(c.hour, 2), ZeroPad(c.minute, 2)]));
  }

  /** An `HH:MM` string is extracted as that time, whatever its range. */
  lemma ClockTextRoundTrip(c: Clock)
    requires 0 <= c.hour < 100 && 0 <= c.minute < 100
    ensures ExtractClock(FormatClock(c)) == Some(c)
    ensures ExtractTime(FormatClock(c)) == Some(FormatClock(c))
  {
    var s := FormatClock(c);
    TwoDigitField(c.hour);
    TwoDigitField(c.minute);
    assert forall i :: 0 <= i < |s| ==> IsDigit(s[i]) || s[i] == ':';
    LowerStrFixed(s);
    ClockTextMatch(c);
    TimePatternsListed();
    FirstSearchAt(TimePatterns, s, 0);
  }

  /** The extractor does not validate: "25:70" is extracted as is, and strptime would reject it. */
  lemma OutOfRangeTimeAccepted()
    ensures ExtractTime("25:70") == Some("25:70")
    ensures ParseClock("25:70").None?
  {
    ClockTextRoundTrip(Clock(25, 70));
    FormatOutOfRange();
  }

  lemma FormatOutOfRange()
    ensures FormatClock(Clock(25, 70)) == "25:70"
  {
    TwoDigitField(25);
    TwoDigitField(70);
  }

  /** An `HH<sep>MM` hit needs the separator somewhere in the text. */
  lemma NoSeparatorNoHit(s: string, sep: char)
    requires !(sep in s)
    ensures forall i :: 0 <= i <= |s| ==> MatchHourMinute(s, i, sep).None?
    ensures sep == ':' ==> Search(HourColonMinute, s).None?
    ensures sep == '.' ==> Search(HourDotMinute, s).None?
  {
    forall i | 0 <= i <= |s|
      ensures MatchHourMinute(s, i, sep).None?
    {
      var a := DigitRun(s, i, 2);
      if i + a < |s| {
        assert s[i + a] != sep;
      }
    }
  }

  /** "в H вечера" (at H in the evening) as typed: `в` and a space, one digit, the word. */
  function AtEveningText(d: char): string {
    "в " + [d] + " вечера"
  }

  lemma AtEveningShape(d: char)
    requires IsDigit(d)
    ensures var s := AtEveningText(d);
      && |s| == 10 && s[0] == 'в' && s[1] == ' ' && s[2] == d && s[3] == ' ' && s[2..3] == [d]
      && LowerStr(s) == s && !(':' in s) && !('.' in s)
  {
    var s := AtEveningText(d);
    assert s[4..] == "вечера";
    LowerStrFixed(s);
  }

  /**
   "в H вечера" is read by the `в HH` pattern, which comes before the evening
   pattern: the hour stays H, so "в 6 вечера" is 06:00 and not 18:00.
   */
  lemma EveningAfterPreposition(d: char)
    requires IsDigit(d)
    ensures ExtractClock(AtEveningText(d)) == Some(Clock(DigitValue(d), 0))
  {
    var s := AtEveningText(d);
    AtEveningShape(d);
    NoSeparatorNoHit(s, ':');
    NoSeparatorNoHit(s, '.');
    assert SpaceRun(s, 1) == 1;
    assert DigitRun(s, 2, 2) == 1;
    var m := Match(0, 3, [[d]]);
    assert MatchAtHour(s, 0) == Some(m);
    FirstSearchAt(TimePatterns, s, 2);
    ShortDigitsValue([d]);
  }

  /** "H вечера": one digit and the word. */
  function EveningText(d: char): string {
    [d] + " вечера"
  }

  lemma EveningShape(d: char)
    requires IsDigit(d)
    ensures var s := EveningText(d);
      && |s| == 8 && s[0] == d && s[1] == ' ' && s[..1] == [d] && s[2..] == "вечера" && s[2] == 'в'
      && LowerStr(s) == s && !(':' in s) && !('.' in s)
      && forall i :: 1 <= i < |s| ==> !IsDigit(s[i])
  {
    var s := EveningText(d);
    assert s[2..] == "вечера";
    LowerStrFixed(s);
  }

  lemma EveningNoSeparator(d: char)
    requires IsDigit(d)
    ensures Search(HourColonMinute, EveningText(d)).None? && Search(HourDotMinute, EveningText(d)).None?
  {
    EveningShape(d);
    NoSeparatorNoHit(EveningText(d), ':');
    NoSeparatorNoHit(EveningText(d), '.');
  }

  /** The only `в` of "H вечера" starts the word, so the `в HH` pattern finds nothing. */
  lemma EveningNoPreposition(d: char)
    requires IsDigit(d)
    ensures Search(AtHour, EveningText(d)).None?
  {
    var s := EveningText(d);
    EveningShape(d);
    forall i | 0 <= i <= |s|
      ensures MatchAtHour(s, i).None?
    {
      if i < |s| && s[i] == 'в' {
        assert i == 2;
        assert SpaceRun(s, 3) == 0;
      }
    }
  }

  /** A word not starting with "в" never follows the digit of "H вечера". */
  lemma EveningOtherWord(d: char, w: string)
    requires IsDigit(d) && |w| > 0 && w[0] != 'в'
    ensures Search(HourBefore(w), EveningText(d)).None?
  {
    var s := EveningText(d);
    EveningShape(d);
    forall i | 1 <= i <= |s|
      ensures MatchHourBefore(s, i, w).None?
    {
    }
    assert DigitRun(s, 0, 2) == 1 && SpaceRun(s, 1) == 1;
    if |w| <= |s| - 2 {
      assert s[2..][..|w|][0] == s[2];
    }
  }

  /** Neither the morning nor the afternoon word follows the digit of "H вечера". */
  lemma EveningNotMorning(d: char)
    requires IsDigit(d)
    ensures Search(HourBefore("утра"), EveningText(d)).None?
    ensures Search(HourBefore("дня"), EveningText(d)).None?
  {
    EveningOtherWord(d, "утра");
    EveningOtherWord(d, "дня");
  }

  /** The evening pattern matches "H вечера" from its first character. */
  lemma EveningHit(d: char)
    requires IsDigit(d)
    ensures Search(HourBefore("вечера"), EveningText(d)) == Some(Match(0, 8, [[d]]))
  {
    var s := EveningText(d);
    EveningShape(d);
    assert DigitRun(s, 0, 2) == 1 && SpaceRun(s, 1) == 1;
    assert MatchHourBefore(s, 0, "вечера") == Some(Match(0, 8, [[d]]));
  }

  /** The time patterns, by position. */
  lemma TimePatternsListed()
    ensures TimePatterns[0] == HourColonMinute && TimePatterns[1] == HourDotMinute
    ensures TimePatterns[2] == AtHour && TimePatterns[3] == HourBefore("утра")
    ensures TimePatterns[4] == HourBefore("дня") && TimePatterns[5] == HourBefore("вечера")
  {
  }

  /** Of the time patterns, the evening one is the first to hit "H вечера". */
  lemma EveningFirstHit(d: char)
    requires IsDigit(d)
    ensures FirstSearch(TimePatterns, EveningText(d)) == Some((5, Match(0, 8, [[d]])))
  {
    var s := EveningText(d);
    EveningNoSeparator(d);
    EveningNoPreposition(d);
    EveningNotMorning(d);
    EveningHit(d);
    TimePatternsListed();
    assert forall j :: 0 <= j < 5 ==> Search(TimePatterns[j], s).None? by {
      forall j | 0 <= j < 5
        ensures Search(TimePatterns[j], s).None?
      {
        if j == 0 {} else if j == 1 {} else if j == 2 {} else if j == 3 {} else {}
      }
    }
    FirstSearchAt(TimePatterns, s, 5);
  }

  /** With no preposition, the evening pattern applies and adds 12: "6 вечера" is 18:00. */
  lemma EveningHour(d: char)
    requires IsDigit(d)
    ensures ExtractClock(EveningText(d)) == Some(Clock(DigitValue(d) + 12, 0))
  {
    EveningShape(d);
    EveningFirstHit(d);
    ShortDigitsValue([d]);
  }
}
