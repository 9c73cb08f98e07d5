/**
 Fiscal periods over proleptic Gregorian UTC time. Instants are integral
 milliseconds since 1970; the year, month and day functions follow the
 definitions of ECMA-262, section 21.4.1, behind the Date calls of fiscal-calendar.ts.
 */
module FiscalCalendar {
  import opened Wrappers

  const DAY := 86_400_000

  predicate IsLeap(y: int) { y % 4 == 0 && (y % 100 != 0 || y % 400 == 0) }

  function YearDays(y: int): int { if IsLeap(y) then 366 else 365 }

  /** Day number of 1 January: the days of the years between it and 1970. */
  function DayFromYear(y: int): int
    decreases if y < 1970 then 1970 - y else y - 1970
  {
    if y == 1970 then 0
    else if y > 1970 then DayFromYear(y - 1) + YearDays(y - 1)
    else DayFromYear(y + 1) - YearDays(y)
  }

  lemma NextYear(y: int)
    ensures DayFromYear(y + 1) == DayFromYear(y) + YearDays(y)
  {
  }

  /** The closed form by which ECMA-262 defines the day number. */
  function ClosedForm(y: int): int {
    365 * (y - 1970) + (y - 1969) / 4 - (y - 1901) / 100 + (y - 1601) / 400
  }

  lemma FourthYears(y: int)
    ensures (y - 1968) / 4 - (y - 1969) / 4 == if y % 4 == 0 then 1 else 0
  {
  }

  lemma Centuries(y: int)
    ensures (y - 1900) / 100 - (y - 1901) / 100 == if y % 100 == 0 then 1 else 0
  {
  }

  lemma FourthCenturies(y: int)
    ensures (y - 1600) / 400 - (y - 1601) / 400 == if y % 400 == 0 then 1 else 0
  {
  }

  lemma LeapRule(y: int)
    ensures y % 100 == 0 ==> y % 4 == 0
    ensures y % 400 == 0 ==> y % 100 == 0
  {
  }

  lemma ClosedFormStep(y: int)
    ensures ClosedForm(y + 1) == ClosedForm(y) + YearDays(y)
  {
    FourthYears(y);
    Centuries(y);
    FourthCenturies(y);
    LeapRule(y);
  }

  lemma {:induction false} DayFromYearIsClosedForm(y: int)
    ensures DayFromYear(y) == ClosedForm(y)
    decreases if y < 1970 then 1970 - y else y - 1970
  {
    hide ClosedForm, YearDays;
    if y > 1970 {
      DayFromYearIsClosedForm(y - 1);
      ClosedFormStep(y - 1);
    } else if y < 1970 {
      DayFromYearIsClosedForm(y + 1);
      ClosedFormStep(y);
    } else {
      ClosedFormStart();
    }
  }

  lemma ClosedFormStart()
    ensures ClosedForm(1970) == 0
  {
  }

  lemma {:induction false} YearsOrdered(a: int, b: int)
    requires a < b
    ensures DayFromYear(a) + YearDays(a) <= DayFromYear(b)
    decreases b - a
  {
    NextYear(b - 1);
    if a < b - 1 { YearsOrdered(a, b - 1); }
  }

  // ---- Decoding an instant ----

  function SeekDown(day: int, y: int): (r: int)
    requires day < DayFromYear(y)
    ensures DayFromYear(r) <= day < DayFromYear(r + 1)
    decreases DayFromYear(y) - day
  {
    NextYear(y - 1);
    if DayFromYear(y - 1) <= day then y - 1 else SeekDown(day, y - 1)
  }

  function SeekUp(day: int, y: int): (r: int)
    requires DayFromYear(y) <= day
    ensures DayFromYear(r) <= day < DayFromYear(r + 1)
    decreases day - DayFromYear(y)
  {
    NextYear(y);
    if day < DayFromYear(y + 1) then y else SeekUp(day, y + 1)
  }

  /** getUTCFullYear: the year whose days contain the instant's day. */
  function YearOf(t: int): (y: int)
    ensures DayFromYear(y) <= t / DAY < DayFromYear(y + 1)
  {
    if t / DAY < 0 then SeekDown(t / DAY, 1970) else SeekUp(t / DAY, 1970)
  }

  lemma YearOfIs(t: int, y: int)
    requires DayFromYear(y) <= t / DAY < DayFromYear(y) + YearDays(y)
    ensures YearOf(t) == y
  {
    hide DayFromYear, IsLeap;
    var r := YearOf(t);
    NextYear(r);
    if r < y { YearsOrdered(r, y); }
    if y < r { YearsOrdered(y, r); }
  }

  /** Days of the year before a month, January being month 0. */
  function DaysBefore(month: int, leap: bool): int
    requires 0 <= month <= 12
  {
    var plain := [0, 31, 59, 90, 120, 151, 181, 212, 243, 273, 304, 334, 365][month];
    if leap && month >= 2 then plain + 1 else plain
  }

  function DaysIn(month: int, leap: bool): int
    requires 0 <= month <= 11
  {
    DaysBefore(month + 1, leap) - DaysBefore(month, leap)
  }

  function MonthOfYearDay(d: int, leap: bool): (month: int)
    requires 0 <= d < (if leap then 366 else 365)
    ensures 0 <= month <= 11 && DaysBefore(month, leap) <= d < DaysBefore(month + 1, leap)
  {
    if d < DaysBefore(1, leap) then 0 else if d < DaysBefore(2, leap) then 1
    else if d < DaysBefore(3, leap) then 2 else if d < DaysBefore(4, leap) then 3
    else if d < DaysBefore(5, leap) then 4 else if d < DaysBefore(6, leap) then 5
    else if d < DaysBefore(7, leap) then 6 else if d < DaysBefore(8, leap) then 7
    else if d < DaysBefore(9, leap) then 8 else if d < DaysBefore(10, leap) then 9
    else if d < DaysBefore(11, leap) then 10 else 11
  }

  function MonthOf(t: int): int {
    var y := YearOf(t);
    NextYear(y);
    MonthOfYearDay(t / DAY - DayFromYear(y), IsLeap(y))
  }

  function DateOf(t: int): int {
    var y := YearOf(t);
    t / DAY - DayFromYear(y) - DaysBefore(MonthOf(t), IsLeap(y)) + 1
  }

  // ---- Encoding ----

  /** Date.UTC at midnight: months overflow into years, and years 0 to 99 mean 1900 to 1999. */
  function Utc(year: int, month: int, date: int): int {
    var y := if 0 <= year <= 99 then 1900 + year else year;
    var ym := y + month / 12;
    (DayFromYear(ym) + DaysBefore(month % 12, IsLeap(ym)) + date - 1) * DAY
  }

  datatype FiscalPeriod = FiscalPeriod(start: int, end: int, fiscalYear: int)

  function TwoDigits(a: char, b: char): int
    requires IsDigit(a) && IsDigit(b)
  {
    (a as int - '0' as int) * 10 + (b as int - '0' as int)
  }

  /** The zero-based month and the day of an "MM-DD" fiscal start; anything else means 1 January. */
  function ParseStart(text: string): (int, int) {
    if |text| == 5 && IsDigit(text[0]) && IsDigit(text[1]) && text[2] == '-' && IsDigit(text[3]) && IsDigit(text[4])
      then (TwoDigits(text[0], text[1]) - 1, TwoDigits(text[3], text[4]))
      else (0, 1)
  }

  function FiscalPeriodForDate(date: int, text: string): FiscalPeriod {
    var (month, day) := ParseStart(text);
    PeriodFor(date, month, day)
  }

  function StartYear(date: int, month: int, day: int): int {
    if date >= Utc(YearOf(date), month, day) then YearOf(date) else YearOf(date) - 1
  }

  function PeriodFor(date: int, month: int, day: int): FiscalPeriod {
    PeriodFrom(StartYear(date, month, day), month, day)
  }

  function PeriodFrom(startYear: int, month: int, day: int): FiscalPeriod {
    var end := Utc(startYear + 1, month, day) - 1;
    FiscalPeriod(Utc(startYear, month, day), end, YearOf(end))
  }

  function NextFiscalPeriod(periodEnd: int): FiscalPeriod {
    var start := periodEnd + 1;
    var end := Utc(YearOf(start) + 1, MonthOf(start), DateOf(start)) - 1;
    FiscalPeriod(start, end, YearOf(end))
  }

  // ---- Tiling ----

  /** A month and day that exist in some year; 29 February is one. */
  predicate Recurring(month: int, day: int) {
    0 <= month <= 11 && 1 <= day <= DaysIn(month, true)
  }

  /** The boundary of a year is midnight on a day of that year. */
  lemma BoundaryInYear(y: int, month: int, day: int)
    requires Recurring(month, day) && (y < 0 || y > 99)
    ensures Utc(y, month, day) % DAY == 0
    ensures YearOf(Utc(y, month, day)) == y
    ensures DayFromYear(y) * DAY <= Utc(y, month, day) < DayFromYear(y + 1) * DAY
  {
    var d := DaysBefore(month, IsLeap(y)) + day - 1;
    assert 0 <= d < YearDays(y);
    NextYear(y);
    var t := Utc(y, month, day);
    assert t == (DayFromYear(y) + d) * DAY;
    assert t / DAY == DayFromYear(y) + d;
    YearOfIs(t, y);
  }

  lemma YearBounds(t: int)
    ensures DayFromYear(YearOf(t)) * DAY <= t < DayFromYear(YearOf(t) + 1) * DAY
  {
    assert t == t / DAY * DAY + t % DAY;
  }

  /** The period of an instant contains it, and starts in its year or the year before. */
  lemma PeriodContains(date: int, month: int, day: int)
    requires Recurring(month, day) && YearOf(date) >= 101
    ensures PeriodFor(date, month, day).start <= date <= PeriodFor(date, month, day).end
  {
    hide DayFromYear, Recurring, Utc;
    var y := YearOf(date);
    YearBounds(date);
    BoundaryInYear(y - 1, month, day);
    BoundaryInYear(y, month, day);
    BoundaryInYear(y + 1, month, day);
  }

  /** For any month and day at all, even such as no year has: boundaries follow one another. */
  lemma BoundariesGrow(y: int, month: int, day: int)
    requires y >= 100
    ensures Utc(y, month, day) < Utc(y + 1, month, day)
  {
    hide DayFromYear, IsLeap;
    NextYear(y + month / 12);
  }

  /** The period of an instant contains it exactly when the instant lies within a year of the boundary of its own year. */
  lemma PeriodCoversIff(date: int, month: int, day: int)
    requires YearOf(date) >= 101
    ensures var (p, y) := (PeriodFor(date, month, day), YearOf(date));
      p.start <= date <= p.end <==> Utc(y - 1, month, day) <= date < Utc(y + 1, month, day)
  {
    hide Utc, YearOf;
    BoundariesGrow(YearOf(date) - 1, month, day);
    BoundariesGrow(YearOf(date), month, day);
  }

  lemma YearsApart(a: int, b: int)
    requires a < b
    ensures DayFromYear(a + 1) * DAY <= DayFromYear(b) * DAY
  {
    NextYear(a);
    YearsOrdered(a, b);
  }

  /** An instant between two boundaries belongs to the period that starts at the first. */
  lemma StartYearIs(date: int, y: int, month: int, day: int)
    requires Recurring(month, day) && y >= 100
    requires Utc(y, month, day) <= date < Utc(y + 1, month, day)
    ensures StartYear(date, month, day) == y
  {
    hide Utc, DayFromYear, Recurring;
    BoundaryInYear(y, month, day);
    BoundaryInYear(y + 1, month, day);
    YearBounds(date);
    var year := YearOf(date);
    if year < y { YearsApart(year, y); }
    if year > y + 1 { YearsApart(y + 1, year); }
  }

  /** No instant lies in two different computed periods. */
  lemma PeriodUnique(date: int, other: int, month: int, day: int)
    requires Recurring(month, day) && YearOf(other) >= 101
    requires var p := PeriodFor(other, month, day); p.start <= date <= p.end
    ensures PeriodFor(date, month, day) == PeriodFor(other, month, day)
  {
    hide Utc, Recurring, DayFromYear;
    StartYearIs(date, StartYear(other, month, day), month, day);
  }

  /**
   From year 1 on, containment fails exactly where Date.UTC reads the year it is
   given as a two-digit one.
   */
  lemma PeriodContainsIff(date: int, month: int, day: int)
    requires Recurring(month, day) && YearOf(date) >= 1
    ensures var p := PeriodFor(date, month, day);
      (p.start <= date <= p.end)
      <==> YearOf(date) >= 101 || (YearOf(date) == 100 && date >= Utc(100, month, day))
  {
    hide Recurring;
    var y := YearOf(date);
    if y >= 101 {
      PeriodContains(date, month, day);
    } else if y == 100 {
      YearOneHundred(date, month, day);
    } else {
      TwoDigitYear(date, month, day);
    }
  }

  lemma YearOneHundred(date: int, month: int, day: int)
    requires Recurring(month, day) && YearOf(date) == 100
    ensures var p := PeriodFor(date, month, day);
      (p.start <= date <= p.end) <==> date >= Utc(100, month, day)
  {
    hide Recurring, DayFromYear, IsLeap;
    YearBounds(date);
    BoundaryInYear(101, month, day);
    BoundaryInYear(1999, month, day);
    YearsApart(100, 1999);
    assert Utc(99, month, day) == Utc(1999, month, day) by { TwoDigits1900(99, month, day); }
  }

  lemma TwoDigitYear(date: int, month: int, day: int)
    requires Recurring(month, day) && 1 <= YearOf(date) <= 99
    ensures PeriodFor(date, month, day).start > date
  {
    hide Recurring, DayFromYear, IsLeap, Utc;
    var y := YearOf(date);
    YearBounds(date);
    TwoDigits1900(y, month, day);
    TwoDigits1900(y - 1, month, day);
    BoundaryInYear(1900 + y, month, day);
    BoundaryInYear(1900 + y - 1, month, day);
    YearsApart(y, 1900 + y - 1);
    YearsApart(y, 1900 + y);
  }

  lemma TwoDigits1900(y: int, month: int, day: int)
    requires 0 <= y <= 99
    ensures Utc(y, month, day) == Utc(1900 + y, month, day)
  {
  }

  /** Decoding inverts encoding for a day that exists in the year. */
  lemma DecodeBoundary(y: int, month: int, day: int)
    requires 0 <= month <= 11 && 1 <= day <= DaysIn(month, IsLeap(y)) && (y < 0 || y > 99)
    ensures MonthOf(Utc(y, month, day)) == month && DateOf(Utc(y, month, day)) == day
  {
    hide DayFromYear, IsLeap, Utc, DaysBefore;
    DayOfBoundary(y, month, day);
    BoundaryInYear(y, month, day);
    MonthOrder(MonthOf(Utc(y, month, day)), month, IsLeap(y), DaysBefore(month, IsLeap(y)) + day - 1);
  }

  lemma DayOfBoundary(y: int, month: int, day: int)
    requires 0 <= month <= 11 && 1 <= day <= DaysIn(month, IsLeap(y)) && (y < 0 || y > 99)
    ensures Utc(y, month, day) / DAY == DayFromYear(y) + DaysBefore(month, IsLeap(y)) + day - 1
    ensures Recurring(month, day)
  {
    hide DayFromYear, IsLeap;
  }

  lemma MonthOrder(a: int, b: int, leap: bool, d: int)
    requires 0 <= a <= 11 && 0 <= b <= 11
    requires DaysBefore(a, leap) <= d < DaysBefore(a + 1, leap)
    requires DaysBefore(b, leap) <= d < DaysBefore(b + 1, leap)
    ensures a == b
  {
  }

  /** 29 February in a common year is 1 March. */
  lemma LeapDayBoundary(y: int)
    requires !IsLeap(y) && (y < 0 || y > 99)
    ensures Utc(y, 1, 29) == Utc(y, 2, 1)
  {
  }

  /**
   Stepping from a period's end agrees with computing the period of the next
   instant, except across one kind of leap year when the start is 29 February.
   */
  lemma NextAgreesIff(y: int, month: int, day: int)
    requires Recurring(month, day) && y >= 100
    ensures var p := PeriodFrom(y, month, day);
      NextFiscalPeriod(p.end) == PeriodFor(p.end + 1, month, day)
      <==> !(month == 1 && day == 29 && !IsLeap(y + 1) && IsLeap(y + 2))
  {
    hide Utc, DayFromYear, Recurring, IsLeap, NextFiscalPeriod, PeriodFor;
    NextPeriodIs(y, month, day);
    NextStartsAtBoundary(y, month, day);
    NextEnd(y, month, day);
  }

  lemma NextPeriodIs(y: int, month: int, day: int)
    requires Recurring(month, day) && y >= 100
    ensures PeriodFor(PeriodFrom(y, month, day).end + 1, month, day) == PeriodFrom(y + 1, month, day)
  {
    hide Utc, Recurring, StartYear, YearOf;
    BoundaryOrder(y + 1, month, day);
    StartYearIs(Utc(y + 1, month, day), y + 1, month, day);
  }

  lemma BoundaryOrder(y: int, month: int, day: int)
    requires Recurring(month, day) && y >= 100
    ensures Utc(y, month, day) < Utc(y + 1, month, day)
  {
    BoundaryInYear(y, month, day);
    BoundaryInYear(y + 1, month, day);
  }

  /** The end that nextFiscalPeriod computes from the boundary that opens year y + 1. */
  function EndAfter(y: int, month: int, day: int): int {
    var start := Utc(y + 1, month, day);
    Utc(y + 2, MonthOf(start), DateOf(start)) - 1
  }

  lemma NextStartsAtBoundary(y: int, month: int, day: int)
    requires Recurring(month, day) && y >= 100
    ensures var end := EndAfter(y, month, day);
      NextFiscalPeriod(PeriodFrom(y, month, day).end) == FiscalPeriod(Utc(y + 1, month, day), end, YearOf(end))
  {
    hide MonthOf, DateOf, Recurring, IsLeap, DayFromYear, Utc;
    BoundaryInYear(y + 1, month, day);
  }

  lemma NextEnd(y: int, month: int, day: int)
    requires Recurring(month, day) && y >= 100
    ensures EndAfter(y, month, day) == Utc(y + 2, month, day) - 1
      <==> !(month == 1 && day == 29 && !IsLeap(y + 1) && IsLeap(y + 2))
  {
    hide Utc, DayFromYear, MonthOf, DateOf, IsLeap;
    if month == 1 && day == 29 && !IsLeap(y + 1) {
      LeapDayBoundary(y + 1);
      DecodeBoundary(y + 1, 2, 1);
      MarchFirst(y + 2);
    } else {
      DecodeBoundary(y + 1, month, day);
    }
  }

  lemma MarchFirst(y: int)
    requires y > 99
    ensures Utc(y, 2, 1) == (if IsLeap(y) then Utc(y, 1, 29) + DAY else Utc(y, 1, 29))
  {
  }

  /** A start that exists in every year. */
  predicate Annual(month: int, day: int) {
    0 <= month <= 11 && 1 <= day <= DaysIn(month, false)
  }

  function NthNext(p: FiscalPeriod, n: nat): FiscalPeriod {
    if n == 0 then p else NextFiscalPeriod(NthNext(p, n - 1).end)
  }

  /** Any number of steps from a computed period gives the computed period that many years on. */
  lemma {:induction false} StepsAgree(date: int, month: int, day: int, n: nat)
    requires Annual(month, day) && YearOf(date) >= 101
    ensures var p := PeriodFor(date, month, day);
      NthNext(p, n) == PeriodFrom(StartYear(date, month, day) + n, month, day)
  {
    StepsFrom(StartYear(date, month, day), month, day, n);
  }

  lemma NextFrom(y: int, month: int, day: int)
    requires Annual(month, day) && y >= 100
    ensures NextFiscalPeriod(PeriodFrom(y, month, day).end) == PeriodFrom(y + 1, month, day)
  {
    hide Utc, DayFromYear, NextFiscalPeriod, PeriodFor, PeriodFrom, IsLeap;
    NextAgreesIff(y, month, day);
    NextPeriodIs(y, month, day);
  }

  lemma {:induction false} StepsFrom(y: int, month: int, day: int, n: nat)
    requires Annual(month, day) && y >= 100
    ensures NthNext(PeriodFrom(y, month, day), n) == PeriodFrom(y + n, month, day)
  {
    hide PeriodFrom, NextFiscalPeriod, Annual;
    if n > 0 {
      StepsFrom(y, month, day, n - 1);
      NextFrom(y + n - 1, month, day);
    }
  }

  // ---- Stepping from an end that was stored, not computed ----

  /** Encoding the year, month and day of an instant gives the midnight it follows. */
  lemma EncodeDecoded(t: int)
    requires YearOf(t) < 0 || YearOf(t) > 99
    ensures Utc(YearOf(t), MonthOf(t), DateOf(t)) == t - t % DAY
    ensures 0 <= MonthOf(t) <= 11 && 1 <= DateOf(t) <= DaysIn(MonthOf(t), IsLeap(YearOf(t)))
  {
    hide IsLeap, DaysBefore;
    NextYear(YearOf(t));
    assert t == t / DAY * DAY + t % DAY;
  }

  /**
   For any stored end: the next period starts one millisecond later, and ends just
   before the same day of the next year begins, so that it falls short of a year by
   the time of day at which it starts.
   */
  lemma NextFallsShort(end: int)
    requires YearOf(end + 1) >= 100
    ensures var (start, next) := (end + 1, NextFiscalPeriod(end));
      && next.start == start
      && next.end + 1 - start
         == Utc(YearOf(start) + 1, MonthOf(start), DateOf(start)) - Utc(YearOf(start), MonthOf(start), DateOf(start)) - start % DAY
  {
    hide Utc, MonthOf, DateOf;
    EncodeDecoded(end + 1);
  }

  /** So stepping from a stored end agrees with computing exactly when the end is just before the start of a fiscal year. */
  lemma StoredEndAgreesIff(end: int, month: int, day: int)
    requires Annual(month, day) && YearOf(end + 1) >= 101
    ensures NextFiscalPeriod(end) == PeriodFor(end + 1, month, day) <==> end + 1 == Utc(YearOf(end + 1), month, day)
  {
    hide Utc, DayFromYear, IsLeap, MonthOf, DateOf;
    var start := end + 1;
    var y := YearOf(start);
    BoundaryInYear(y - 1, month, day);
    BoundaryInYear(y, month, day);
    if start == Utc(y, month, day) {
      NextFrom(y - 1, month, day);
      NextPeriodIs(y - 1, month, day);
    }
  }

  /** The end that the schema seeds for a calendar year: 31 December, one second before midnight. */
  function SeededEnd(y: int): int { Utc(y, 11, 31) + DAY - 1_000 }

  /**
   From a seeded year on, every later period ends on 30 December: the first step
   starts in the last second of the year, and each 31 December falls to the period
   after.
   */
  lemma {:induction false} SeededYearsSlip(y: int, n: nat)
    requires y >= 100 && n > 0
    ensures var p := NthNext(FiscalPeriod(Utc(y, 0, 1), SeededEnd(y), y), n);
      && p.end == Utc(y + n, 11, 31) - 1 && p.end + 1 + DAY == Utc(y + n + 1, 0, 1)
      && YearOf(p.end) == y + n && MonthOf(p.end) == 11 && DateOf(p.end) == 30
  {
    hide Utc, MonthOf, DateOf, DayFromYear, IsLeap;
    var first := FiscalPeriod(Utc(y, 0, 1), SeededEnd(y), y);
    if n == 1 {
      assert NthNext(first, 0) == first;
      LastSecond(y);
    } else {
      SeededYearsSlip(y, n - 1);
      DecodeLastDay(y + n - 1);
    }
    BeforeLastDay(y + n);
  }

  lemma LastSecond(y: int)
    requires y >= 100
    ensures var t := SeededEnd(y) + 1; YearOf(t) == y && MonthOf(t) == 11 && DateOf(t) == 31
  {
    hide MonthOf, DateOf, DayFromYear, IsLeap, Utc, DaysBefore;
    DecodeLastDay(y);
    SameDay(Utc(y, 11, 31), DAY - 999);
  }

  lemma DecodeLastDay(y: int)
    requires y >= 100
    ensures var t := Utc(y, 11, 31); t % DAY == 0 && YearOf(t) == y && MonthOf(t) == 11 && DateOf(t) == 31
  {
    hide DayFromYear, IsLeap, Utc, MonthOf, DateOf;
    BoundaryInYear(y, 11, 31);
    DecodeBoundary(y, 11, 31);
  }

  /** Instants of one day have one year, month and date. */
  lemma SameDay(midnight: int, time: int)
    requires midnight % DAY == 0 && 0 <= time < DAY
    ensures YearOf(midnight + time) == YearOf(midnight)
    ensures MonthOf(midnight + time) == MonthOf(midnight) && DateOf(midnight + time) == DateOf(midnight)
  {
    hide DaysBefore, IsLeap, DayFromYear;
    assert (midnight + time) / DAY == midnight / DAY;
    NextYear(YearOf(midnight));
    YearOfIs(midnight + time, YearOf(midnight));
  }

  lemma BeforeLastDay(y: int)
    requires y >= 100
    ensures var t := Utc(y, 11, 31) - 1;
      t + 1 + DAY == Utc(y + 1, 0, 1) && YearOf(t) == y && MonthOf(t) == 11 && DateOf(t) == 30
  {
    hide MonthOf, DateOf, DayFromYear, IsLeap;
    assert Utc(y, 11, 31) == Utc(y, 11, 30) + DAY;
    NextYear(y);
    BoundaryInYear(y, 11, 30);
    DecodeBoundary(y, 11, 30);
    SameDay(Utc(y, 11, 30), DAY - 1);
  }

  lemma FiscalYearOf(y: int, month: int, day: int)
    requires Recurring(month, day) && y >= 100
    ensures PeriodFrom(y, month, day).fiscalYear == if month == 0 && day == 1 then y else y + 1
  {
    hide DayFromYear, IsLeap;
    BoundaryInYear(y + 1, month, day);
    NextYear(y);
    NextYear(y + 1);
    var boundary := Utc(y + 1, month, day);
    DayBefore(boundary);
    YearOfIs(boundary - 1, if month == 0 && day == 1 then y else y + 1);
  }

  lemma DayBefore(midnight: int)
    requires midnight % DAY == 0
    ensures (midnight - 1) / DAY == midnight / DAY - 1
  {
  }

  /** Consecutive periods adjoin, and fiscal-year labels grow by exactly one. */
  lemma LabelsIncrease(date: int, month: int, day: int, n: nat)
    requires Annual(month, day) && YearOf(date) >= 101
    ensures var p := PeriodFor(date, month, day);
      && NthNext(p, n).fiscalYear == p.fiscalYear + n
      && NthNext(p, n + 1).start == NthNext(p, n).end + 1
  {
    hide Utc, DayFromYear, YearOf, PeriodFrom;
    var y := StartYear(date, month, day);
    StepsFrom(y, month, day, n);
    FiscalYearOf(y, month, day);
    FiscalYearOf(y + n, month, day);
  }
}
