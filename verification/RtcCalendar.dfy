/** The RTC calendar of the CH58x driver: `RTC_InitTime` turns a date and time into a day
    counter, a two-second counter and a 32 kHz counter, `RTC_GetTime` turns them back.

    The two loops are proved against a calendar that knows nothing of counters: `DateAfter(n)`
    is reached from the first day of `BEGYEAR` by stepping to the next day `n` times. */
module RtcCalendar {

  const BEGYEAR: nat := 2020
  const DAY_MASK: nat := 0x4000 // the day counter register keeps 14 bits
  const U16: nat := 0x1_0000
  const MAX_2_SEC: nat := 43200
  const LAST_DAY := Date(2064, 11, 8)

  datatype Date = Date(year: nat, month: nat, day: nat)
  datatype Time = Time(hour: nat, minute: nat, second: nat)
  datatype Counters = Counters(day: nat, sec2: nat, t32k: nat)

  predicate IsLeapYear(y: nat) {
    y % 400 == 0 || (y % 100 != 0 && y % 4 == 0)
  }

  function YearLength(y: nat): nat {
    if IsLeapYear(y) then 366 else 365
  }

  // `mon` counts from 0, as in the driver's macro.
  function MonthLength(leap: bool, mon: nat): nat {
    if mon == 1 then (if leap then 29 else 28)
    else if mon > 6 then (if mon % 2 == 1 then 31 else 30)
    else (if mon % 2 == 1 then 30 else 31)
  }

  predicate ValidDate(d: Date) {
    && BEGYEAR <= d.year
    && 1 <= d.month <= 12
    && 1 <= d.day <= MonthLength(IsLeapYear(d.year), d.month - 1)
  }

  predicate ValidTime(t: Time) {
    t.hour < 24 && t.minute < 60 && t.second < 60
  }

  // ---------------------------------------------------------- the calendar --

  function NextDay(d: Date): Date
    requires ValidDate(d)
  {
    if d.day < MonthLength(IsLeapYear(d.year), d.month - 1) then d.(day := d.day + 1)
    else if d.month < 12 then Date(d.year, d.month + 1, 1)
    else Date(d.year + 1, 1, 1)
  }

  function DateAfter(n: nat): (d: Date)
    ensures ValidDate(d)
  {
    if n == 0 then Date(BEGYEAR, 1, 1) else NextDay(DateAfter(n - 1))
  }

  function DaysBeforeYear(y: nat): nat {
    if y <= BEGYEAR then 0 else DaysBeforeYear(y - 1) + YearLength(y - 1)
  }

  function DaysBeforeMonth(leap: bool, months: nat): nat {
    if months == 0 then 0 else DaysBeforeMonth(leap, months - 1) + MonthLength(leap, months - 1)
  }

  function DayNumber(d: Date): nat
    requires ValidDate(d)
  {
    DaysBeforeYear(d.year) + DaysBeforeMonth(IsLeapYear(d.year), d.month - 1) + d.day - 1
  }

  predicate Earlier(a: Date, b: Date) {
    || a.year < b.year
    || (a.year == b.year && a.month < b.month)
    || (a.year == b.year && a.month == b.month && a.day < b.day)
  }

  lemma TwelveMonths(leap: bool)
    ensures DaysBeforeMonth(leap, 10) == if leap then 305 else 304
    ensures DaysBeforeMonth(leap, 12) == if leap then 366 else 365
  {
    var extra := if leap then 1 else 0;
    assert DaysBeforeMonth(leap, 1) == 31;
    assert DaysBeforeMonth(leap, 2) == 59 + extra;
    assert DaysBeforeMonth(leap, 4) == 120 + extra;
    assert DaysBeforeMonth(leap, 6) == 181 + extra;
    assert DaysBeforeMonth(leap, 8) == 243 + extra;
  }

  lemma {:induction false} YearsGrow(a: nat, b: nat)
    requires BEGYEAR <= a < b
    ensures DaysBeforeYear(a) + YearLength(a) <= DaysBeforeYear(b)
  {
    if a + 1 == b {
    } else {
      YearsGrow(a, b - 1);
    }
  }

  lemma {:induction false} MonthsGrow(leap: bool, a: nat, b: nat)
    requires a < b
    ensures DaysBeforeMonth(leap, a) + MonthLength(leap, a) <= DaysBeforeMonth(leap, b)
  {
    if a + 1 == b {
    } else {
      MonthsGrow(leap, a, b - 1);
    }
  }

  lemma DayWithinYear(d: Date)
    requires ValidDate(d)
    ensures DayNumber(d) < DaysBeforeYear(d.year) + YearLength(d.year)
  {
    TwelveMonths(IsLeapYear(d.year));
    MonthsGrow(IsLeapYear(d.year), d.month - 1, 12);
  }

  lemma EarlierIsSmaller(a: Date, b: Date)
    requires ValidDate(a) && ValidDate(b)
    ensures Earlier(a, b) ==> DayNumber(a) < DayNumber(b)
  {
    if a.year < b.year {
      DayWithinYear(a);
      YearsGrow(a.year, b.year);
    } else if a.year == b.year && a.month < b.month {
      MonthsGrow(IsLeapYear(a.year), a.month - 1, b.month - 1);
    }
  }

  /** Day numbers order dates as the calendar does, so they also tell any two dates apart. */
  lemma DayNumberOrders(a: Date, b: Date)
    requires ValidDate(a) && ValidDate(b)
    ensures Earlier(a, b) <==> DayNumber(a) < DayNumber(b)
    ensures DayNumber(a) == DayNumber(b) ==> a == b
  {
    EarlierIsSmaller(a, b);
    EarlierIsSmaller(b, a);
  }

  lemma NextDayNumber(d: Date)
    requires ValidDate(d)
    ensures DayNumber(NextDay(d)) == DayNumber(d) + 1
  {
    var leap := IsLeapYear(d.year);
    if d.day < MonthLength(leap, d.month - 1) {
    } else if d.month < 12 {
      assert DaysBeforeMonth(leap, d.month) == DaysBeforeMonth(leap, d.month - 1) + MonthLength(leap, d.month - 1);
    } else {
      TwelveMonths(leap);
      assert DaysBeforeYear(d.year + 1) == DaysBeforeYear(d.year) + YearLength(d.year);
    }
  }

  /** Counting days one at a time and summing year and month lengths agree. */
  lemma {:induction false} DayNumberCountsDays(n: nat)
    ensures DayNumber(DateAfter(n)) == n
  {
    if n == 0 {
    } else {
      DayNumberCountsDays(n - 1);
      NextDayNumber(DateAfter(n - 1));
    }
  }

  lemma DateAfterIs(n: nat, d: Date)
    requires ValidDate(d)
    ensures DateAfter(n) == d <==> DayNumber(d) == n
  {
    DayNumberCountsDays(n);
    DayNumberOrders(DateAfter(n), d);
  }

  // ---------------------------------------------- what the counters stand for --

  predicate ValidCounters(c: Counters) {
    c.day < DAY_MASK && c.sec2 < MAX_2_SEC && c.t32k < U16
  }

  function Encode(d: Date, t: Time): (c: Counters)
    requires ValidDate(d) && ValidTime(t)
    ensures ValidCounters(c)
  {
    Counters(DayNumber(d) % DAY_MASK, (3600 * t.hour + 60 * t.minute + t.second) / 2,
             if t.second % 2 == 1 then 0x8000 else 0)
  }

  function DecodeTime(c: Counters): Time {
    var s := 2 * c.sec2 + if c.t32k < 0x8000 then 0 else 1;
    Time(s / 3600, s % 3600 / 60, s % 60)
  }

  // ---------------------------------------------------------------- theorems --

  lemma TimeOfDay(t: Time)
    requires ValidTime(t)
    ensures var s := 3600 * t.hour + 60 * t.minute + t.second;
            2 * (s / 2) + t.second % 2 == s && Time(s / 3600, s % 3600 / 60, s % 60) == t
  {
  }

  // Leap years up to and including `y`, of the Gregorian calendar carried back to the year 1.
  function LeapsUpTo(y: nat): int {
    y / 4 - y / 100 + y / 400
  }

  lemma NextQuarter(y: nat)
    ensures (y + 1) / 4 == y / 4 + if (y + 1) % 4 == 0 then 1 else 0
  {
  }

  lemma NextCentury(y: nat)
    ensures (y + 1) / 100 == y / 100 + if (y + 1) % 100 == 0 then 1 else 0
  {
  }

  lemma NextFour(y: nat)
    ensures (y + 1) / 400 == y / 400 + if (y + 1) % 400 == 0 then 1 else 0
  {
  }

  lemma FourDivides(y: nat, k: nat)
    requires y == 4 * k
    ensures y % 4 == 0
  {
  }

  lemma HundredDivides(y: nat, k: nat)
    requires y == 100 * k
    ensures y % 100 == 0
  {
  }

  lemma Centuries(y: nat)
    ensures y % 400 == 0 ==> y % 100 == 0
    ensures y % 100 == 0 ==> y % 4 == 0
  {
    if y % 400 == 0 { HundredDivides(y, 4 * (y / 400)); }
    if y % 100 == 0 { FourDivides(y, 25 * (y / 100)); }
  }

  lemma OneMoreLeap(y: nat)
    ensures LeapsUpTo(y + 1) == LeapsUpTo(y) + if IsLeapYear(y + 1) then 1 else 0
  {
    Centuries(y + 1);
    NextQuarter(y);
    NextCentury(y);
    NextFour(y);
  }

  /** The days before a year are 365 for each and one for each leap year, which are every fourth but
      three in four centuries. */
  lemma {:induction false} DaysBeforeYearIs(y: nat)
    requires BEGYEAR <= y
    ensures DaysBeforeYear(y) == 365 * (y - BEGYEAR) + LeapsUpTo(y - 1) - LeapsUpTo(BEGYEAR - 1)
  {
    if y == BEGYEAR {
    } else {
      DaysBeforeYearIs(y - 1);
      OneMoreLeap(y - 2);
    }
  }

  lemma FourCenturies(y: nat)
    ensures LeapsUpTo(y + 400) == LeapsUpTo(y) + 97
  {
    assert (y + 400) / 4 == y / 4 + 100;
    assert (y + 400) / 100 == y / 100 + 4;
    assert (y + 400) / 400 == y / 400 + 1;
  }

  lemma DaysInFourCenturies(y: nat)
    requires BEGYEAR <= y
    ensures DaysBeforeYear(y + 400) == DaysBeforeYear(y) + 146097
  {
    DaysBeforeYearIs(y);
    DaysBeforeYearIs(y + 400);
    FourCenturies(y - 1);
  }

  const MONTH_LENGTHS: seq<nat> := [31, 28, 31, 30, 31, 30, 31, 31, 30, 31, 30, 31]

  /** The macros agree with the calendar: the lengths of the months, and 146097 days in any four
      centuries. */
  lemma CalendarIsGregorian(leap: bool, mon: nat, y: nat)
    requires mon < 12 && BEGYEAR <= y
    ensures MonthLength(leap, mon) == MONTH_LENGTHS[mon] + if leap && mon == 1 then 1 else 0
    ensures DaysBeforeYear(y + 400) == DaysBeforeYear(y) + 146097
  {
    DaysInFourCenturies(y);
  }

  lemma LastDayNumber()
    ensures ValidDate(LAST_DAY) && DayNumber(LAST_DAY) == DAY_MASK - 1
  {
    DaysBeforeYearIs(2064);
    TwelveMonths(true);
    assert DaysBeforeYear(2064) == 16071 && DaysBeforeMonth(true, 10) == 305;
  }

  lemma ModKeeps(n: nat, m: nat)
    requires m > 0
    ensures n % m == n <==> n < m
  {
  }

  lemma Representable(d: Date, last: Date)
    requires ValidDate(d) && last == LAST_DAY
    ensures DayNumber(d) % DAY_MASK == DayNumber(d) <==> !Earlier(last, d)
  {
    LastDayNumber();
    DayNumberOrders(last, d);
    ModKeeps(DayNumber(d), DAY_MASK);
  }

  /** What `GetTime` reads after `InitTime`: the time always, the date exactly when it is no
      later than 8 November 2064 (the header promises all of 2064). */
  lemma RoundTrip(d: Date, t: Time)
    requires ValidDate(d) && ValidTime(t)
    ensures DecodeTime(Encode(d, t)) == t
    ensures DateAfter(Encode(d, t).day) == d <==> !Earlier(LAST_DAY, d)
  {
    TimeOfDay(t);
    DateAfterIs(DayNumber(d) % DAY_MASK, d);
    Representable(d, LAST_DAY);
  }

  // Splitting seconds into hours, minutes and seconds loses nothing.
  lemma SplitSeconds(s: nat)
    requires s < 86400
    ensures ValidTime(Time(s / 3600, s % 3600 / 60, s % 60))
    ensures 3600 * (s / 3600) + 60 * (s % 3600 / 60) + s % 60 == s
    ensures s % 60 % 2 == s % 2
  {
    var m := s % 3600;
    assert s % 60 == m % 60;
  }

  lemma TimeSurvives(c: Counters, t: Time)
    requires ValidCounters(c) && t == DecodeTime(c)
    ensures ValidTime(t)
    ensures (3600 * t.hour + 60 * t.minute + t.second) / 2 == c.sec2
    ensures t.second % 2 == 1 <==> c.t32k >= 0x8000
  {
    var bit := if c.t32k < 0x8000 then 0 else 1;
    SplitSeconds(2 * c.sec2 + bit);
  }

  /** Every counter state decodes to a valid date and time, and loading that date and time
      again gives the same counters, the 32 kHz count reduced to its half-second bit. */
  lemma DecodeThenEncode(c: Counters)
    requires ValidCounters(c)
    ensures ValidDate(DateAfter(c.day)) && ValidTime(DecodeTime(c))
    ensures Encode(DateAfter(c.day), DecodeTime(c))
            == c.(t32k := if c.t32k < 0x8000 then 0 else 0x8000)
  {
    DayNumberCountsDays(c.day);
    TimeSurvives(c, DecodeTime(c));
  }

  // ------------------------------------------------------------- the driver --

  lemma AddWrapped(total: nat, n: nat)
    ensures (total % U16 + n) % U16 == (total + n) % U16
  {
  }

  lemma MaskWrapped(n: nat)
    ensures n % U16 % DAY_MASK == n % DAY_MASK
  {
  }

  lemma TwoSeconds(t: Time)
    requires ValidTime(t)
    ensures t.hour % 24 * 1800 + t.minute * 30 + t.second / 2 == (3600 * t.hour + 60 * t.minute + t.second) / 2
  {
  }

  class Rtc {
    var cntDay: nat // R32_RTC_CNT_DAY & 0x3FFF
    var cnt2s: nat  // R16_RTC_CNT_2S
    var cnt32k: nat // R16_RTC_CNT_32K

    function Counted(): Counters
      reads this
    {
      Counters(cntDay, cnt2s, cnt32k)
    }

    // The two loops of `InitTime`; `total` is the sum without 16-bit wrap-around.
    static method AddYears(y: nat) returns (day: nat, ghost total: nat)
      requires BEGYEAR <= y
      ensures total == DaysBeforeYear(y) && day == total % U16
    {
      var year := y;
      day, total := 0, 0;
      while year > BEGYEAR
        invariant BEGYEAR <= year <= y
        invariant total + DaysBeforeYear(year) == DaysBeforeYear(y)
        invariant day == total % U16
      {
        AddWrapped(total, YearLength(year - 1));
        day := (day + YearLength(year - 1)) % U16;
        total := total + YearLength(year - 1);
        year := year - 1;
      }
    }

    static method AddMonths(leap: bool, m: nat, day0: nat, ghost total0: nat) returns (day: nat, ghost total: nat)
      requires 1 <= m && day0 == total0 % U16
      ensures total == total0 + DaysBeforeMonth(leap, m - 1) && day == total % U16
    {
      var month := m;
      day, total := day0, total0;
      while month > 1
        invariant 1 <= month <= m
        invariant total + DaysBeforeMonth(leap, month - 1) == total0 + DaysBeforeMonth(leap, m - 1)
        invariant day == total % U16
      {
        AddWrapped(total, MonthLength(leap, month - 2));
        day := (day + MonthLength(leap, month - 2)) % U16;
        total := total + MonthLength(leap, month - 2);
        month := month - 1;
      }
    }

    method InitTime(d: Date, t: Time)
      requires ValidDate(d) && ValidTime(t)
      modifies this
      ensures Counted() == Encode(d, t)
    {
      var day;
      ghost var total;
      day, total := AddYears(d.year);
      day, total := AddMonths(IsLeapYear(d.year), d.month, day, total);
      AddWrapped(total, d.day - 1);
      day := (day + d.day - 1) % U16;
      MaskWrapped(DayNumber(d));
      TwoSeconds(t);
      var sec2 := (t.hour % 24) * 1800 + t.minute * 30 + t.second / 2;
      cntDay := day % DAY_MASK;
      cnt2s := sec2;
      cnt32k := if t.second % 2 == 1 then 0x8000 else 0;
    }

    // The two loops of `GetTime`.
    method GetDate() returns (d: Date)
      ensures d == DateAfter(cntDay)
    {
      var day := cntDay;
      var y := BEGYEAR;
      while day >= YearLength(y)
        invariant BEGYEAR <= y && 0 <= day && DaysBeforeYear(y) + day == cntDay
        decreases day
      {
        day := day - YearLength(y);
        y := y + 1;
      }
      ghost var dayOfYear := day;
      var leap, mon := IsLeapYear(y), 0;
      TwelveMonths(leap);
      while day >= MonthLength(leap, mon)
        invariant mon < 12 && 0 <= day && DaysBeforeMonth(leap, mon) + day == dayOfYear
        decreases day
      {
        day := day - MonthLength(leap, mon);
        mon := mon + 1;
      }
      d := Date(y, mon + 1, day + 1);
      DateAfterIs(cntDay, d);
    }

    method GetTime() returns (d: Date, t: Time)
      requires ValidCounters(Counted())
      ensures ValidTime(t)
      ensures d == DateAfter(cntDay) && t == DecodeTime(Counted())
    {
      d := GetDate();
      var s := cnt2s * 2 + if cnt32k < 0x8000 then 0 else 1;
      t := Time(s / 3600, s % 3600 / 60, s % 60);
    }

    /** Setting the clock and reading it back at once returns what was set, up to the last
        date the 14-bit day counter can hold. */
    method SetThenGet(d: Date, t: Time) returns (d': Date, t': Time)
      requires ValidDate(d) && ValidTime(t)
      modifies this
      ensures t' == t
      ensures d' == d <==> !Earlier(LAST_DAY, d)
    {
      InitTime(d, t);
      d', t' := GetTime();
      RoundTrip(d, t);
    }
  }
}
