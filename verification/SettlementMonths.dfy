/** Settlement months over the calendar of section 21.4.1 of ECMA-262, with months decided in GMT+8.
    A time value is a number of milliseconds; the limit of the range of time values is not modelled. */
module SettlementMonths {
  import opened Wrappers

  type Time = int

  const MS_PER_HOUR := 3_600_000
  const MS_PER_DAY := 86_400_000
  const GMT_PLUS_8_OFFSET_MS := 8 * MS_PER_HOUR

  // ---------- the calendar ----------

  predicate InLeapYear(y: int) {
    y % 4 == 0 && (y % 100 != 0 || y % 400 == 0)
  }

  function DayFromYear(y: int): int {
    365 * (y - 1970) + (y - 1969) / 4 - (y - 1901) / 100 + (y - 1601) / 400
  }

  /** The days of the year before a month; month 12 is the end of the year. */
  function DaysBefore(month: int, leap: bool): (days: int)
    requires 0 <= month <= 12
    ensures 0 <= days <= 366
  {
    var shift := if leap && month >= 2 then 1 else 0;
    [0, 31, 59, 90, 120, 151, 181, 212, 243, 273, 304, 334, 365][month] + shift
  }

  lemma FourthYears(y: int)
    ensures (y - 1968) / 4 == (y - 1969) / 4 + if y % 4 == 0 then 1 else 0
  {
  }

  lemma Centuries(y: int)
    ensures (y - 1900) / 100 == (y - 1901) / 100 + if y % 100 == 0 then 1 else 0
  {
  }

  lemma FourthCenturies(y: int)
    ensures (y - 1600) / 400 == (y - 1601) / 400 + if y % 400 == 0 then 1 else 0
  {
  }

  lemma HundredsAreFourths(y: int)
    requires y % 100 == 0
    ensures y % 4 == 0
  {
    assert y == 4 * (25 * (y / 100));
  }

  lemma FourHundredsAreHundreds(y: int)
    requires y % 400 == 0
    ensures y % 100 == 0
  {
    assert y == 100 * (4 * (y / 400));
  }

  lemma YearsHaveTheirDays(y: int)
    ensures DayFromYear(y + 1) == DayFromYear(y) + if InLeapYear(y) then 366 else 365
  {
    var fourths, centuries, fourthCenturies := (y - 1969) / 4, (y - 1901) / 100, (y - 1601) / 400;
    FourthYears(y);
    Centuries(y);
    FourthCenturies(y);
    if y % 100 == 0 {
      HundredsAreFourths(y);
    }
    if y % 400 == 0 {
      FourHundredsAreHundreds(y);
    }
  }

  lemma {:induction false} LaterYearsStartLater(x: int, y: int)
    requires x <= y
    ensures 365 * (y - x) <= DayFromYear(y) - DayFromYear(x) <= 366 * (y - x)
    decreases y - x
  {
    if x < y {
      LaterYearsStartLater(x, y - 1);
      YearsHaveTheirDays(y - 1);
    }
  }

  /** The year a day lies in: the largest that does not start after it. */
  function YearOfDay(day: int): (y: int)
    ensures DayFromYear(y) <= day < DayFromYear(y + 1)
  {
    var from := 1970 + (if day >= 0 then day / 366 else day / 365);
    assert DayFromYear(from) <= day by {
      if day >= 0 {
        LaterYearsStartLater(1970, from);
      } else {
        LaterYearsStartLater(from, 1970);
      }
    }
    YearFrom(day, from)
  }

  function YearFrom(day: int, from: int): (y: int)
    requires DayFromYear(from) <= day
    ensures DayFromYear(y) <= day < DayFromYear(y + 1)
    decreases day - DayFromYear(from)
  {
    YearsHaveTheirDays(from);
    if day < DayFromYear(from + 1) then from else YearFrom(day, from + 1)
  }

  lemma DayOfYear(day: int)
    ensures var y := YearOfDay(day);
            DaysBefore(0, InLeapYear(y)) <= day - DayFromYear(y) < DaysBefore(12, InLeapYear(y))
  {
    hide DayFromYear, InLeapYear, YearOfDay;
    YearsHaveTheirDays(YearOfDay(day));
  }

  function MonthOfDay(day: int): (m: int)
    ensures 0 <= m <= 11
    ensures var y := YearOfDay(day);
            DayFromYear(y) + DaysBefore(m, InLeapYear(y)) <= day < DayFromYear(y) + DaysBefore(m + 1, InLeapYear(y))
  {
    var y := YearOfDay(day);
    DayOfYear(day);
    MonthFrom(day - DayFromYear(y), InLeapYear(y), 0)
  }

  function MonthFrom(dayOfYear: int, leap: bool, from: int): (m: int)
    requires 0 <= from <= 11 && DaysBefore(from, leap) <= dayOfYear < DaysBefore(12, leap)
    ensures 0 <= m <= 11 && DaysBefore(m, leap) <= dayOfYear < DaysBefore(m + 1, leap)
    decreases 11 - from
  {
    if dayOfYear < DaysBefore(from + 1, leap) then from else MonthFrom(dayOfYear, leap, from + 1)
  }

  function Day(t: Time): int {
    t / MS_PER_DAY
  }

  function FullYear(t: Time): int {
    YearOfDay(Day(t))
  }

  function MonthOf(t: Time): int {
    MonthOfDay(Day(t))
  }

  /** Months counted from January of year 0. */
  function MonthNumber(t: Time): int {
    12 * FullYear(t) + MonthOf(t)
  }

  function FirstDay(month: int): int {
    DayFromYear(month / 12) + DaysBefore(month % 12, InLeapYear(month / 12))
  }

  lemma TwelveMonths(year: int, m: int)
    requires 0 <= m <= 11
    ensures (12 * year + m) / 12 == year && (12 * year + m) % 12 == m
  {
  }

  lemma FirstDayOf(year: int, m: int)
    requires 0 <= m <= 12
    ensures FirstDay(12 * year + m) == DayFromYear(year) + DaysBefore(m, InLeapYear(year))
  {
    if m <= 11 {
      TwelveMonths(year, m);
    } else {
      TwelveMonths(year + 1, 0);
      YearsHaveTheirDays(year);
    }
  }

  function FirstInstant(month: int): Time {
    FirstDay(month) * MS_PER_DAY
  }

  /** The years 0 to 99 are read as 1900 to 1999. */
  function ReadYear(year: int): (read: int)
    ensures !(0 <= read <= 99)
  {
    if 0 <= year <= 99 then 1900 + year else year
  }

  /** `Date.UTC(year, month, 1)`; the month may lie outside the year. */
  function DateUtc(year: int, month: int): Time {
    FirstInstant(12 * ReadYear(year) + month)
  }

  lemma MonthsHaveDays(month: int)
    ensures FirstDay(month) + 28 <= FirstDay(month + 1)
  {
    hide FirstDay, DayFromYear, InLeapYear, DaysBefore;
    SplitMonth(month);
    var y, m := month / 12, month % 12;
    FirstDayOf(y, m);
    FirstDayOf(y, m + 1);
    DaysOfMonth(m, InLeapYear(y));
  }

  lemma SplitMonth(month: int)
    ensures month == 12 * (month / 12) + month % 12 && 0 <= month % 12 <= 11
  {
  }

  lemma DaysOfMonth(m: int, leap: bool)
    requires 0 <= m <= 11
    ensures 28 <= DaysBefore(m + 1, leap) - DaysBefore(m, leap) <= 31
  {
  }

  lemma {:induction false} LaterMonthsStartLater(k: int, m: int)
    requires k <= m
    ensures FirstDay(k) + 28 * (m - k) <= FirstDay(m)
    decreases m - k
  {
    hide FirstDay;
    if k < m {
      LaterMonthsStartLater(k, m - 1);
      MonthsHaveDays(m - 1);
    }
  }

  /** A time lies in its month, from its first instant up to the first of the next. */
  lemma TimeIsInItsMonth(t: Time)
    ensures FirstInstant(MonthNumber(t)) <= t < FirstInstant(MonthNumber(t) + 1)
  {
    hide FirstDay, DayFromYear, InLeapYear, DaysBefore;
    var y, m := FullYear(t), MonthOf(t);
    FirstDayOf(y, m);
    FirstDayOf(y, m + 1);
    DayBounds(t, FirstDay(12 * y + m), FirstDay(12 * y + m + 1));
  }

  lemma DayBounds(t: Time, first: int, next: int)
    requires first <= Day(t) < next
    ensures first * MS_PER_DAY <= t < next * MS_PER_DAY
  {
  }

  /** Only its own month contains a time. */
  lemma MonthIsUnique(t: Time, month: int)
    requires FirstInstant(month) <= t < FirstInstant(month + 1)
    ensures MonthNumber(t) == month
  {
    hide FirstDay, MonthNumber;
    TimeIsInItsMonth(t);
    var k := MonthNumber(t);
    if k < month {
      LaterMonthsStartLater(k + 1, month);
    } else if month < k {
      LaterMonthsStartLater(month + 1, k);
    }
  }

  lemma MonthOfFirstInstant(month: int)
    ensures MonthNumber(FirstInstant(month)) == month
    ensures FullYear(FirstInstant(month)) == month / 12 && MonthOf(FirstInstant(month)) == month % 12
  {
    LaterMonthsStartLater(month, month + 1);
    MonthIsUnique(FirstInstant(month), month);
    var t := FirstInstant(month);
    assert 12 * FullYear(t) + MonthOf(t) == month && 0 <= MonthOf(t) <= 11;
  }

  // ---------- settlement months ----------

  /** `getCurrentSettlementMonth` and `getSettlementMonthFromTransactionAt`. */
  function SettlementMonthOf(t: Time): Time {
    var local := t + GMT_PLUS_8_OFFSET_MS;
    DateUtc(FullYear(local), MonthOf(local))
  }

  function NextSettlementMonth(month: Time): Time {
    DateUtc(FullYear(month), MonthOf(month) + 1)
  }

  function GetPreviousGmt8Month(t: Time): Time {
    var local := t + GMT_PLUS_8_OFFSET_MS;
    DateUtc(FullYear(local), MonthOf(local) - 1)
  }

  /** The month of the local time, with its year read as `Date.UTC` reads it. */
  function ReadMonth(t: Time): int {
    var local := t + GMT_PLUS_8_OFFSET_MS;
    12 * ReadYear(FullYear(local)) + MonthOf(local)
  }

  predicate EarlyYear(t: Time) {
    0 <= FullYear(t + GMT_PLUS_8_OFFSET_MS) <= 99
  }

  lemma SettlementMonthIsReadMonth(t: Time)
    ensures SettlementMonthOf(t) == FirstInstant(ReadMonth(t))
    ensures NextSettlementMonth(SettlementMonthOf(t)) == FirstInstant(ReadMonth(t) + 1)
    ensures !(0 <= ReadMonth(t) < 1200)
  {
    hide FirstInstant, FullYear, MonthOf;
    var local := t + GMT_PLUS_8_OFFSET_MS;
    MonthRange(local);
    var y := ReadYear(FullYear(local));
    TwelveMonths(y, MonthOf(local));
    MonthOfFirstInstant(ReadMonth(t));
    assert ReadYear(y) == y;
  }

  lemma MonthRange(t: Time)
    ensures 0 <= MonthOf(t) <= 11
  {
  }

  /** An instant lies in its settlement month, at or after its start and before the start of the next, exactly when
      the local year is not one of the years 0 to 99. */
  lemma InstantIsInItsSettlementMonth(t: Time)
    ensures var m := SettlementMonthOf(t);
            m <= t + GMT_PLUS_8_OFFSET_MS < NextSettlementMonth(m) <==> !EarlyYear(t)
  {
    hide FirstInstant, MonthNumber, ReadMonth, EarlyYear, SettlementMonthOf, NextSettlementMonth;
    SettlementMonthIsReadMonth(t);
    ReadMonthIs(t);
    var local := t + GMT_PLUS_8_OFFSET_MS;
    TimeIsInItsMonth(local);
    if EarlyYear(t) && FirstInstant(ReadMonth(t)) <= local < FirstInstant(ReadMonth(t) + 1) {
      MonthIsUnique(local, ReadMonth(t));
    }
  }

  /** No other settlement month contains it. */
  lemma OnlyOneSettlementMonth(t: Time, u: Time)
    requires SettlementMonthOf(u) <= t + GMT_PLUS_8_OFFSET_MS < NextSettlementMonth(SettlementMonthOf(u))
    ensures SettlementMonthOf(u) == SettlementMonthOf(t)
  {
    hide FirstInstant, MonthNumber, ReadMonth, EarlyYear, SettlementMonthOf, NextSettlementMonth;
    SettlementMonthIsReadMonth(t);
    SettlementMonthIsReadMonth(u);
    MonthIsUnique(t + GMT_PLUS_8_OFFSET_MS, ReadMonth(u));
    ReadMonthIs(t);
    EarlyMonths(t);
  }

  lemma ReadMonthIs(t: Time)
    ensures ReadMonth(t) == MonthNumber(t + GMT_PLUS_8_OFFSET_MS) + if EarlyYear(t) then 12 * 1900 else 0
  {
    hide FullYear, MonthOf;
  }

  lemma MonthsFollowTime(s: Time, t: Time)
    requires s <= t
    ensures MonthNumber(s) <= MonthNumber(t)
  {
    hide MonthNumber, FirstDay;
    TimeIsInItsMonth(s);
    TimeIsInItsMonth(t);
    if MonthNumber(t) < MonthNumber(s) {
      LaterMonthsStartLater(MonthNumber(t) + 1, MonthNumber(s));
    }
  }

  /** Later instants have the same or a later settlement month, except from a local year 0 to 99, read as 19xx, to a
      year before that one. */
  lemma SettlementMonthsFollowTime(s: Time, t: Time)
    requires s <= t
    ensures SettlementMonthOf(s) <= SettlementMonthOf(t)
            <==> !(EarlyYear(s) && !EarlyYear(t)
                   && MonthNumber(t + GMT_PLUS_8_OFFSET_MS) < MonthNumber(s + GMT_PLUS_8_OFFSET_MS) + 12 * 1900)
  {
    hide FirstInstant, MonthNumber, ReadMonth, EarlyYear, SettlementMonthOf;
    SettlementMonthIsReadMonth(s);
    SettlementMonthIsReadMonth(t);
    MonthsFollowTime(s + GMT_PLUS_8_OFFSET_MS, t + GMT_PLUS_8_OFFSET_MS);
    ReadMonthIs(s);
    ReadMonthIs(t);
    EarlyMonths(s);
    EarlyMonths(t);
    FirstInstantsGrow(ReadMonth(s), ReadMonth(t));
  }

  lemma FirstInstantsGrow(k: int, m: int)
    ensures FirstInstant(k) <= FirstInstant(m) <==> k <= m
  {
    hide FirstDay;
    if k <= m {
      LaterMonthsStartLater(k, m);
    } else {
      LaterMonthsStartLater(m, k);
    }
  }

  lemma EarlyMonths(t: Time)
    ensures EarlyYear(t) <==> 0 <= MonthNumber(t + GMT_PLUS_8_OFFSET_MS) < 1200
    ensures !(0 <= ReadMonth(t) < 1200)
  {
    MonthRange(t + GMT_PLUS_8_OFFSET_MS);
    hide FullYear, MonthOf;
  }

  /** The month after the planner's month is the current settlement month, across year ends too, except in January of
      year 100, when the planner's December 99 is read as December 1999. */
  lemma PreviousMonthPrecedes(t: Time)
    ensures var local := t + GMT_PLUS_8_OFFSET_MS;
            NextSettlementMonth(GetPreviousGmt8Month(t)) == SettlementMonthOf(t)
            <==> !(FullYear(local) == 100 && MonthOf(local) == 0)
  {
    hide FirstInstant, FullYear, MonthOf;
    var local := t + GMT_PLUS_8_OFFSET_MS;
    MonthRange(local);
    var y, m := ReadYear(FullYear(local)), MonthOf(local);
    SettlementMonthIsReadMonth(t);
    MonthOfFirstInstant(12 * y + m - 1);
    if m == 0 {
      TwelveMonths(y - 1, 11);
      if FullYear(local) == 100 {
        FirstInstantsGrow(12 * 1999 + 12, 12 * 100);
      }
    } else {
      TwelveMonths(y, m - 1);
    }
  }

  // ---------- the planner ----------

  datatype PlannerConfig = PlannerConfig(enabled: bool, day: int, hour: int)

  predicate ConfigAccepted(c: PlannerConfig) {
    1 <= c.day <= 28 && 0 <= c.hour <= 23
  }

  function DateOf(t: Time): int {
    Day(t) - FirstDay(MonthNumber(t)) + 1
  }

  function HourOf(t: Time): int {
    (t % MS_PER_DAY) / MS_PER_HOUR
  }

  predicate IsPlannerDue(c: PlannerConfig, t: Time) {
    var local := t + GMT_PLUS_8_OFFSET_MS;
    c.enabled && (DateOf(local) > c.day || (DateOf(local) == c.day && HourOf(local) >= c.hour))
  }

  lemma HoursOfDay(t: Time, days: int, hours: int)
    requires 0 <= hours <= 23
    ensures Day(t) > days || (Day(t) == days && HourOf(t) >= hours) <==> t >= days * MS_PER_DAY + hours * MS_PER_HOUR
  {
    var rest := t % MS_PER_DAY;
    assert t == Day(t) * MS_PER_DAY + rest;
  }

  /** The planner is due from the configured day and hour of the local month until the month ends. */
  lemma DueFromTheConfiguredHourOn(c: PlannerConfig, t: Time)
    requires ConfigAccepted(c)
    ensures var local := t + GMT_PLUS_8_OFFSET_MS;
            IsPlannerDue(c, t)
            <==> c.enabled
                 && local >= FirstInstant(MonthNumber(local)) + (c.day - 1) * MS_PER_DAY + c.hour * MS_PER_HOUR
  {
    hide FirstDay, MonthNumber, HourOf;
    var local := t + GMT_PLUS_8_OFFSET_MS;
    HoursOfDay(local, FirstDay(MonthNumber(local)) + c.day - 1, c.hour);
  }

  // ---------- months as text ----------

  function Digit(n: int): char
    requires 0 <= n <= 9
  {
    "0123456789"[n]
  }

  function DigitValue(c: char): (n: int)
    requires '0' <= c <= '9'
    ensures 0 <= n <= 9 && Digit(n) == c
  {
    assert c in "0123456789";
    c as int - '0' as int
  }

  /** The last `width` digits of a number. */
  function Padded(n: int, width: nat): (s: string)
    requires n >= 0
    ensures |s| == width
  {
    if width == 0 then "" else Padded(n / 10, width - 1) + [Digit(n % 10)]
  }

  predicate AllDigits(s: string) {
    forall i :: 0 <= i < |s| ==> '0' <= s[i] <= '9'
  }

  function Number(s: string): (n: int)
    requires AllDigits(s)
    ensures n >= 0
  {
    if s == "" then 0 else 10 * Number(s[..|s| - 1]) + DigitValue(s[|s| - 1])
  }

  function TenTo(width: nat): (n: int)
    ensures n >= 1
  {
    if width == 0 then 1 else 10 * TenTo(width - 1)
  }

  lemma DigitsRoundTrip(n: int)
    requires 0 <= n <= 9
    ensures '0' <= Digit(n) <= '9' && DigitValue(Digit(n)) == n
  {
  }

  lemma PaddedOnce(n: int, digit: int, width: nat)
    requires n >= 0 && 0 <= digit <= 9
    ensures Padded(10 * n + digit, width + 1) == Padded(n, width) + [Digit(digit)]
  {
    assert (10 * n + digit) / 10 == n && (10 * n + digit) % 10 == digit;
  }

  lemma {:induction false} PaddedNumber(s: string)
    requires AllDigits(s)
    ensures Padded(Number(s), |s|) == s && Number(s) < TenTo(|s|)
  {
    if s != "" {
      hide Padded, Digit;
      var front, last := s[..|s| - 1], DigitValue(s[|s| - 1]);
      PaddedNumber(front);
      PaddedOnce(Number(front), last, |s| - 1);
      assert s == front + [s[|s| - 1]];
    }
  }

  lemma {:induction false} NumberOfPadded(n: int, width: nat)
    requires 0 <= n < TenTo(width)
    ensures AllDigits(Padded(n, width)) && Number(Padded(n, width)) == n
  {
    if width > 0 {
      NumberOfPadded(n / 10, width - 1);
      DigitsRoundTrip(n % 10);
      var s := Padded(n, width);
      assert s[..width - 1] == Padded(n / 10, width - 1);
    }
  }

  /** `parseSettlementMonthParam`. */
  function ParseSettlementMonth(s: string): Option<Time> {
    if |s| == 7 && AllDigits(s[..4]) && s[4] == '-' && AllDigits(s[5..]) && 1 <= Number(s[5..]) <= 12 then
      Some(DateUtc(Number(s[..4]), Number(s[5..]) - 1))
    else None
  }

  /** The first seven characters of the ISO text: years outside 0 to 9999 are written with a sign and six digits. */
  function FormatSettlementMonth(t: Time): string {
    var y := FullYear(t);
    if 0 <= y <= 9999 then Padded(y, 4) + "-" + Padded(MonthOf(t) + 1, 2)
    else (if y < 0 then "-" + Padded(-y, 6) else "+" + Padded(y, 6))
  }

  lemma TextOfParsed(s: string)
    requires ParseSettlementMonth(s).Some?
    ensures var y := ReadYear(Number(s[..4]));
            FormatSettlementMonth(ParseSettlementMonth(s).value) == Padded(y, 4) + "-" + s[5..]
  {
    hide FirstInstant, FullYear, MonthOf, Number, Padded;
    var y, m := Number(s[..4]), Number(s[5..]);
    PaddedNumber(s[..4]);
    PaddedNumber(s[5..]);
    assert TenTo(4) == 10000;
    MonthOfFirstInstant(12 * ReadYear(y) + m - 1);
    TwelveMonths(ReadYear(y), m - 1);
  }

  /** A month text that parses is printed back exactly when its year is 100 or later. */
  lemma ParsedTextIsPrintedBack(s: string)
    requires ParseSettlementMonth(s).Some?
    ensures FormatSettlementMonth(ParseSettlementMonth(s).value) == s <==> Number(s[..4]) >= 100
  {
    hide FirstInstant, FullYear, MonthOf, FormatSettlementMonth, ParseSettlementMonth;
    ParsedShape(s);
    TextOfParsed(s);
    var y := Number(s[..4]);
    PaddedNumber(s[..4]);
    assert s == s[..4] + "-" + s[5..];
    if y < 100 {
      assert TenTo(4) == 10000;
      NumberOfPadded(ReadYear(y), 4);
      assert (Padded(ReadYear(y), 4) + "-" + s[5..])[..4] == Padded(ReadYear(y), 4);
    }
  }

  lemma ParsedShape(s: string)
    requires ParseSettlementMonth(s).Some?
    ensures |s| == 7 && AllDigits(s[..4]) && s[4] == '-' && AllDigits(s[5..])
  {
  }

  /** A printed settlement month parses back to itself for the years 100 to 9999. */
  lemma PrintedMonthIsParsedBack(month: int)
    requires 100 <= month / 12 <= 9999
    ensures ParseSettlementMonth(FormatSettlementMonth(FirstInstant(month))) == Some(FirstInstant(month))
  {
    hide FirstInstant, FullYear, MonthOf, Number, Padded;
    MonthOfFirstInstant(month);
    SplitMonth(month);
    var y, m := month / 12, month % 12;
    var s := FormatSettlementMonth(FirstInstant(month));
    assert TenTo(4) == 10000 && TenTo(2) == 100;
    NumberOfPadded(y, 4);
    NumberOfPadded(m + 1, 2);
    assert s[..4] == Padded(y, 4) && s[5..] == Padded(m + 1, 2);
  }
}
