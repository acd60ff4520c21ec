/**
 Calendar-month arithmetic for subscription periods: months are added on the Gregorian calendar and
 the day is clamped to the target month. Moments are UTC; the time of day is in microseconds.
 */
module Calendar {
  import opened Common

  const DAY: int := 86_400_000_000

  predicate Leap(year: int) { year % 4 == 0 && (year % 100 != 0 || year % 400 == 0) }

  /** The length of a month, as `calendar.monthrange` gives it. */
  function DaysIn(year: int, month: int): (days: int)
    requires 1 <= month <= 12
    ensures 28 <= days <= 31
  {
    if month == 2 then (if Leap(year) then 29 else 28)
    else if month == 4 || month == 6 || month == 9 || month == 11 then 30
    else 31
  }

  datatype Date = Date(year: int, month: int, day: int)

  predicate ValidDate(d: Date) {
    1 <= d.month <= 12 && 1 <= d.day <= DaysIn(d.year, d.month)
  }

  datatype RawMoment = Moment(date: Date, time: int)

  predicate ValidMoment(m: RawMoment) { ValidDate(m.date) && 0 <= m.time < DAY }

  type Moment = m: RawMoment | ValidMoment(m) witness Moment(Date(1970, 1, 1), 0)

  function AddMonths(m: Moment, months: int): Moment {
    var monthIndex := m.date.month - 1 + months;
    var year := m.date.year + monthIndex / 12;
    var month := monthIndex % 12 + 1;
    var lastDay := DaysIn(year, month);
    RawMoment.Moment(Date(year, month, if m.date.day < lastDay then m.date.day else lastDay), m.time)
  }

  function InitialPeriod(now: Moment): (Moment, Moment) {
    (now, AddMonths(now, 1))
  }

  function RenewalPeriod(start: Moment, end: Moment, now: Moment): (Moment, Moment) {
    if Instant(end) > Instant(now) then (start, AddMonths(end, 1)) else (now, AddMonths(now, 1))
  }

  /** The months but February alternate between 31 and 30 days, twice over: from January and from August. */
  lemma MonthLengthsAlternate(year: int, month: int)
    requires 1 <= month <= 12
    ensures month != 2 ==> DaysIn(year, month) == 30 + (month + month / 8) % 2
    ensures DaysIn(year, 2) == if year % (if year % 100 == 0 then 400 else 4) == 0 then 29 else 28
  {
    assert month == 1 || month == 2 || month == 3 || month == 4 || month == 5 || month == 6
      || month == 7 || month == 8 || month == 9 || month == 10 || month == 11 || month == 12;
  }

  // ----- Counting days -----

  function YearDays(year: int): int { if Leap(year) then 366 else 365 }

  /** Days before a year, counted from 1 January of the year 1, back from it before that. */
  function DaysBeforeYear(year: int): int
    decreases if year > 1 then year else 1 - year
  {
    if year > 1 then DaysBeforeYear(year - 1) + YearDays(year - 1)
    else if year < 1 then DaysBeforeYear(year + 1) - YearDays(year)
    else 0
  }

  function DaysBeforeMonth(year: int, month: int): int
    requires 1 <= month <= 12
    decreases month
  {
    if month == 1 then 0 else DaysBeforeMonth(year, month - 1) + DaysIn(year, month - 1)
  }

  function Ordinal(d: Date): int
    requires ValidDate(d)
  {
    DaysBeforeYear(d.year) + DaysBeforeMonth(d.year, d.month) + d.day
  }

  function Instant(m: Moment): int { Ordinal(m.date) * DAY + m.time }

  /** Months counted through the years. */
  function MonthOf(d: Date): int
    requires ValidDate(d)
  {
    12 * d.year + d.month - 1
  }

  function MonthDays(index: int): (days: int)
    ensures 28 <= days <= 31
  {
    DaysIn(index / 12, index % 12 + 1)
  }

  function MonthStart(index: int): int {
    DaysBeforeYear(index / 12) + DaysBeforeMonth(index / 12, index % 12 + 1)
  }

  /** The closed form that ordinals are usually computed with. */
  function CountedDays(year: int): int {
    var y := year - 1;
    365 * y + y / 4 - y / 100 + y / 400
  }

  lemma FourHundredthYears(year: int)
    ensures year / 400 - (year - 1) / 400 == if year % 400 == 0 then 1 else 0
    ensures year % 400 == 0 ==> year % 100 == 0
    ensures year % 100 == 0 ==> year % 4 == 0
  {
  }

  lemma CountedStep(year: int)
    ensures CountedDays(year + 1) == CountedDays(year) + YearDays(year)
  {
    FourHundredthYears(year);
  }

  /** Years of 365 days, and of 366 where the rule says so, add up to the closed form. */
  lemma {:induction false} DaysBeforeYearIsCounted(year: int)
    ensures DaysBeforeYear(year) == CountedDays(year)
    decreases if year > 1 then year else 1 - year
  {
    hide CountedDays, YearDays;
    if year > 1 {
      DaysBeforeYearIsCounted(year - 1);
      CountedStep(year - 1);
    } else if year < 1 {
      DaysBeforeYearIsCounted(year + 1);
      CountedStep(year);
    } else {
      assert CountedDays(1) == 0 by { CountedFirst(); }
    }
  }

  /** Days are counted from 1 January of the year 1, which is day 1. */
  lemma OrdinalOfNewYear(year: int)
    ensures Ordinal(Date(year, 1, 1)) == 1 + 365 * (year - 1) + (year - 1) / 4 - (year - 1) / 100 + (year - 1) / 400
  {
    DaysBeforeYearIsCounted(year);
  }

  lemma CountedFirst()
    ensures CountedDays(1) == 0
  {
  }

  /** A month starts when the one before it has run its length. */
  lemma MonthsAbut(index: int)
    ensures MonthStart(index + 1) == MonthStart(index) + MonthDays(index)
  {
    if index % 12 == 11 {
      assert (index + 1) / 12 == index / 12 + 1 && (index + 1) % 12 == 0;
    } else {
      assert (index + 1) / 12 == index / 12 && (index + 1) % 12 == index % 12 + 1;
    }
  }

  lemma {:induction false} LaterMonthsStartLater(a: int, b: int)
    requires a < b
    ensures MonthStart(b) >= MonthStart(a) + MonthDays(a)
    decreases b - a
  {
    hide MonthStart, MonthDays;
    MonthsAbut(b - 1);
    if a < b - 1 {
      LaterMonthsStartLater(a, b - 1);
    }
  }

  lemma OrdinalSplits(d: Date)
    requires ValidDate(d)
    ensures Ordinal(d) == MonthStart(MonthOf(d)) + d.day && 1 <= d.day <= MonthDays(MonthOf(d))
  {
    assert MonthOf(d) / 12 == d.year && MonthOf(d) % 12 == d.month - 1;
  }

  predicate Earlier(a: Date, b: Date)
    requires ValidDate(a) && ValidDate(b)
  {
    MonthOf(a) < MonthOf(b) || (MonthOf(a) == MonthOf(b) && a.day < b.day)
  }

  /** Day counts order dates as the calendar does, so no two dates share a count. */
  lemma OrdinalOrders(a: Date, b: Date)
    requires ValidDate(a) && ValidDate(b)
    ensures Earlier(a, b) <==> Ordinal(a) < Ordinal(b)
    ensures a == b <==> Ordinal(a) == Ordinal(b)
  {
    hide Ordinal, MonthStart, MonthDays;
    OrdinalSplits(a);
    OrdinalSplits(b);
    if MonthOf(a) < MonthOf(b) {
      LaterMonthsStartLater(MonthOf(a), MonthOf(b));
    } else if MonthOf(b) < MonthOf(a) {
      LaterMonthsStartLater(MonthOf(b), MonthOf(a));
    } else {
      assert a.year == b.year && a.month == b.month;
    }
  }

  // ----- One addition -----

  /** Adding months moves the month by exactly that many, clamps the day and keeps the time. */
  lemma AddMonthsLands(m: Moment, months: int)
    ensures MonthOf(AddMonths(m, months).date) == MonthOf(m.date) + months
    ensures AddMonths(m, months).date.day == Min(m.date.day, MonthDays(MonthOf(m.date) + months))
    ensures AddMonths(m, months).time == m.time
  {
    var monthIndex := m.date.month - 1 + months;
    assert MonthOf(m.date) + months == 12 * (m.date.year + monthIndex / 12) + monthIndex % 12;
  }

  /** One month is 28 to 31 days, to the same time of day. */
  lemma OneMonthAdvances(m: Moment)
    ensures 28 <= Ordinal(AddMonths(m, 1).date) - Ordinal(m.date) <= 31
    ensures 28 * DAY <= Instant(AddMonths(m, 1)) - Instant(m) <= 31 * DAY
  {
    hide Ordinal, MonthStart, MonthDays, AddMonths;
    AddMonthsLands(m, 1);
    OrdinalSplits(m.date);
    OrdinalSplits(AddMonths(m, 1).date);
    MonthsAbut(MonthOf(m.date));
  }

  /** On dates, adding months keeps the order. */
  lemma MonotoneOnDates(a: Moment, b: Moment, months: int)
    requires Ordinal(a.date) <= Ordinal(b.date)
    ensures Ordinal(AddMonths(a, months).date) <= Ordinal(AddMonths(b, months).date)
  {
    hide Ordinal, MonthDays, AddMonths, MonthOf;
    AddMonthsLands(a, months);
    AddMonthsLands(b, months);
    OrdinalOrders(a.date, b.date);
    OrdinalOrders(AddMonths(a, months).date, AddMonths(b, months).date);
    OrdinalOrders(AddMonths(b, months).date, AddMonths(a, months).date);
  }

  /** Two days of one month are both cut back to the last day of the target month. */
  predicate BothClamped(a: Moment, b: Moment, months: int) {
    var last := MonthDays(MonthOf(a.date) + months);
    MonthOf(a.date) == MonthOf(b.date) && last <= a.date.day && last <= b.date.day
  }

  /**
   With the time of day the order is kept for two moments exactly unless both are cut back to one last
   day and the earlier one has the later time.
   */
  lemma OrderLostExactlyWhen(a: Moment, b: Moment, months: int)
    requires Instant(a) <= Instant(b)
    ensures Instant(AddMonths(a, months)) > Instant(AddMonths(b, months))
            <==> BothClamped(a, b, months) && a.time > b.time
  {
    hide Ordinal, MonthDays, AddMonths, MonthOf;
    AddMonthsLands(a, months);
    AddMonthsLands(b, months);
    assert Ordinal(a.date) <= Ordinal(b.date);
    MonotoneOnDates(a, b, months);
    OrdinalOrders(a.date, b.date);
    OrdinalOrders(AddMonths(a, months).date, AddMonths(b, months).date);
  }

  /** Noon of 30 January is before midnight of 31 January, but not one month on. */
  lemma OrderCanBeLost()
    ensures var a, b := RawMoment.Moment(Date(2026, 1, 30), DAY / 2), RawMoment.Moment(Date(2026, 1, 31), 0);
      Instant(a) < Instant(b) && Instant(AddMonths(a, 1)) > Instant(AddMonths(b, 1))
  {
    var a: Moment, b: Moment := RawMoment.Moment(Date(2026, 1, 30), DAY / 2), RawMoment.Moment(Date(2026, 1, 31), 0);
    assert AddMonths(a, 1).date == AddMonths(b, 1).date == Date(2026, 2, 28);
    assert Ordinal(b.date) == Ordinal(a.date) + 1;
  }

  // ----- Stacked renewals -----

  /** `count` renewals of one month each. */
  function Stacked(m: Moment, count: nat): Moment {
    if count == 0 then m else AddMonths(Stacked(m, count - 1), 1)
  }

  /** The smallest of a day and the lengths of the `count` months after month `index`. */
  function ShortestDay(day: int, index: int, count: nat): int {
    if count == 0 then day else Min(ShortestDay(day, index, count - 1), MonthDays(index + count))
  }

  /**
   Renewals of one month land in the month that one long step reaches, on the smallest of the first day
   and every visited month's length, at the same time of day.
   */
  lemma {:induction false} StackedLands(m: Moment, count: nat)
    ensures MonthOf(Stacked(m, count).date) == MonthOf(AddMonths(m, count).date) == MonthOf(m.date) + count
    ensures Stacked(m, count).date.day == ShortestDay(m.date.day, MonthOf(m.date), count)
    ensures Stacked(m, count).time == m.time
  {
    hide AddMonths, MonthDays, MonthOf;
    AddMonthsLands(m, count);
    if count > 0 {
      StackedLands(m, count - 1);
      AddMonthsLands(Stacked(m, count - 1), 1);
    }
  }

  lemma {:induction false} ShortestDayIsLeast(day: int, index: int, count: nat)
    ensures ShortestDay(day, index, count) <= day
    ensures forall i :: index < i <= index + count ==> ShortestDay(day, index, count) <= MonthDays(i)
    ensures (|| ShortestDay(day, index, count) == day
             || exists i :: index < i <= index + count && ShortestDay(day, index, count) == MonthDays(i))
  {
    hide MonthDays;
    if count > 0 {
      ShortestDayIsLeast(day, index, count - 1);
    }
  }

  /** Stacking never passes the long step, and agrees with it exactly when no month on the way is too short. */
  lemma StackingAgreesExactlyWhen(m: Moment, count: nat)
    ensures Instant(Stacked(m, count)) <= Instant(AddMonths(m, count))
    ensures Stacked(m, count) == AddMonths(m, count) <==>
            forall i :: MonthOf(m.date) < i < MonthOf(m.date) + count ==> AddMonths(m, count).date.day <= MonthDays(i)
  {
    hide AddMonths, MonthDays, Ordinal, MonthOf, Stacked, ShortestDay;
    var a, b := Stacked(m, count), AddMonths(m, count);
    StackedLands(m, count);
    AddMonthsLands(m, count);
    ShortestDayIsLeast(m.date.day, MonthOf(m.date), count);
    OrdinalOrders(a.date, b.date);
    OrdinalOrders(b.date, a.date);
    if count == 0 {
      OrdinalSplits(m.date);
    }
  }

  /** The renewed period ends one month after the later of the old end and the payment, so strictly later. */
  lemma RenewalExtends(start: Moment, end: Moment, now: Moment)
    ensures var period := RenewalPeriod(start, end, now);
            var from := if Instant(end) > Instant(now) then Instant(end) else Instant(now);
      && 28 * DAY <= Instant(period.1) - from <= 31 * DAY
      && Instant(period.1) > Instant(end)
      && (Instant(start) <= Instant(end) ==> Instant(period.0) < Instant(period.1))
      && (period.0 == start || Instant(end) <= Instant(now)) && (period.0 == now || Instant(now) < Instant(end))
  {
    hide Instant, AddMonths;
    OneMonthAdvances(end);
    OneMonthAdvances(now);
  }
}
