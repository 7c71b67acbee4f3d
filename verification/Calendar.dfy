/** The Gregorian calendar on day numbers, as Python's `date.toordinal` counts
    them: 1 January of year 1 is day 1. Months are numbered through, 0 being
    January of year 1, and run on in both directions. */
module Calendar {
  import Arithmetic

  predicate IsLeap(year: int) {
    year % 4 == 0 && (year % 100 != 0 || year % 400 == 0)
  }

  function YearOf(month: int): int {
    month / 12 + 1
  }

  /** calendar.monthrange(year, month)[1] */
  function MonthLength(month: int): (days: nat)
    ensures 28 <= days <= 31
  {
    var m := month % 12;
    if m == 1 then (if IsLeap(YearOf(month)) then 29 else 28)
    else if m == 3 || m == 5 || m == 8 || m == 10 then 30
    else 31
  }

  /** The day number of the first of a month. */
  function MonthStart(month: int): int
    decreases if month >= 0 then month else -month
  {
    if month == 0 then 1
    else if month > 0 then MonthStart(month - 1) + MonthLength(month - 1)
    else MonthStart(month + 1) - MonthLength(month)
  }

  lemma NextMonthStart(month: int)
    ensures MonthStart(month + 1) == MonthStart(month) + MonthLength(month)
  {
  }

  lemma {:induction false} MonthsInOrder(earlier: int, later: int)
    requires earlier < later
    ensures MonthStart(earlier) + MonthLength(earlier) <= MonthStart(later)
    decreases later - earlier
  {
    NextMonthStart(later - 1);
    if earlier < later - 1 {
      MonthsInOrder(earlier, later - 1);
    }
  }

  // ------------------------------------------------- a day, as month and day

  ghost predicate InMonth(day: int, month: int) {
    MonthStart(month) <= day < MonthStart(month) + MonthLength(month)
  }

  function MonthUp(day: int, month: int): (r: int)
    requires MonthStart(month) <= day
    ensures InMonth(day, r)
    decreases day - MonthStart(month)
  {
    NextMonthStart(month);
    if day < MonthStart(month) + MonthLength(month) then month else MonthUp(day, month + 1)
  }

  function MonthDown(day: int, month: int): (r: int)
    requires day < MonthStart(month)
    ensures InMonth(day, r)
    decreases MonthStart(month) - day
  {
    NextMonthStart(month - 1);
    if MonthStart(month - 1) <= day then month - 1 else MonthDown(day, month - 1)
  }

  /** The month a day falls in. */
  function MonthOf(day: int): (month: int)
    ensures InMonth(day, month)
  {
    if day >= 1 then MonthUp(day, 0) else MonthDown(day, 0)
  }

  lemma MonthOfUnique(day: int, month: int)
    requires InMonth(day, month)
    ensures MonthOf(day) == month
  {
    if MonthOf(day) < month {
      MonthsInOrder(MonthOf(day), month);
    } else if month < MonthOf(day) {
      MonthsInOrder(month, MonthOf(day));
    }
  }

  function YearOfDay(day: int): int {
    YearOf(MonthOf(day))
  }

  /** The day of the month, from 1. */
  function DayOf(day: int): (d: nat)
    ensures 1 <= d <= MonthLength(MonthOf(day))
  {
    day - MonthStart(MonthOf(day)) + 1
  }

  /** date(year, month, day), for a day the month has. */
  function DateOf(month: int, day: nat): (r: int)
    requires 1 <= day <= MonthLength(month)
    ensures MonthOf(r) == month && DayOf(r) == day
  {
    MonthOfUnique(MonthStart(month) + day - 1, month);
    MonthStart(month) + day - 1
  }

  lemma MonthOfMonotone(a: int, b: int)
    requires a <= b
    ensures MonthOf(a) <= MonthOf(b)
    ensures MonthOf(a) == MonthOf(b) ==> DayOf(a) <= DayOf(b)
  {
    if MonthOf(b) < MonthOf(a) {
      MonthsInOrder(MonthOf(b), MonthOf(a));
    }
  }

  lemma EarlierMonthEarlierDay(a: int, b: int)
    requires MonthOf(a) < MonthOf(b)
    ensures a < b
  {
    MonthsInOrder(MonthOf(a), MonthOf(b));
  }

  /** A day moved by whole months, clamped to the end of a short one. */
  function AddMonths(day: int, months: int): (r: int)
    ensures MonthOf(r) == MonthOf(day) + months
    ensures DayOf(r) == if DayOf(day) <= MonthLength(MonthOf(day) + months)
                        then DayOf(day) else MonthLength(MonthOf(day) + months)
  {
    var to := MonthOf(day) + months;
    var last := MonthLength(to);
    DateOf(to, if DayOf(day) <= last then DayOf(day) else last)
  }

  // -------------------------------------------------------------- weekdays

  type DayOfWeek = w: nat | w < 7

  /** date.weekday(): Monday is 0. */
  function Weekday(day: int): DayOfWeek {
    (day + 6) % 7
  }

  /** How far ahead of `day` the next `weekday` is, `day` itself included. */
  function DaysUntil(day: int, weekday: DayOfWeek): (n: nat)
    ensures 0 <= n < 7 && Weekday(day + n) == weekday
  {
    (weekday - Weekday(day)) % 7
  }

  lemma SameWeekday(a: int, b: int)
    requires 0 <= b - a < 7 && Weekday(a) == Weekday(b)
    ensures a == b
  {
  }

  // ------------------------------------------------------ the closed form

  function YearStart(year: int): int {
    MonthStart(12 * (year - 1))
  }

  lemma MonthStep(year: int, m: nat)
    requires m < 12
    ensures MonthStart(12 * (year - 1) + m + 1) == MonthStart(12 * (year - 1) + m)
      + if m == 1 then (if IsLeap(year) then 29 else 28)
        else if m == 3 || m == 5 || m == 8 || m == 10 then 30 else 31
  {
    var k := 12 * (year - 1) + m;
    assert YearOf(k) == year && k % 12 == m;
    NextMonthStart(k);
  }

  function FebruaryLength(year: int): int {
    if IsLeap(year) then 29 else 28
  }

  lemma FirstHalf(year: int)
    ensures var k := 12 * (year - 1);
      && MonthStart(k + 2) == MonthStart(k) + 31 + FebruaryLength(year)
      && MonthStart(k + 6) == MonthStart(k) + 153 + FebruaryLength(year)
  {
    MonthStep(year, 0);
    MonthStep(year, 1);
    MonthStep(year, 2);
    MonthStep(year, 3);
    MonthStep(year, 4);
    MonthStep(year, 5);
  }

  lemma SecondHalf(year: int)
    ensures var k := 12 * (year - 1);
      && MonthStart(k + 11) == MonthStart(k + 6) + 153
      && MonthStart(k + 12) == MonthStart(k + 6) + 184
  {
    MonthStep(year, 6);
    MonthStep(year, 7);
    MonthStep(year, 8);
    MonthStep(year, 9);
    MonthStep(year, 10);
    MonthStep(year, 11);
  }

  lemma YearLength(year: int)
    ensures YearStart(year + 1) == YearStart(year) + 337 + FebruaryLength(year)
  {
    FirstHalf(year);
    SecondHalf(year);
    assert 12 * (year + 1 - 1) == 12 * (year - 1) + 12;
  }

  lemma MultiplesPassed(year: int)
    ensures year / 4 == (year - 1) / 4 + if year % 4 == 0 then 1 else 0
    ensures year / 100 == (year - 1) / 100 + if year % 100 == 0 then 1 else 0
    ensures year / 400 == (year - 1) / 400 + if year % 400 == 0 then 1 else 0
    ensures year % 400 == 0 ==> year % 100 == 0
    ensures year % 100 == 0 ==> year % 4 == 0
  {
  }

  /** Counting month by month agrees with the arithmetic of `toordinal`. */
  lemma {:induction false} YearStartClosed(year: int)
    ensures YearStart(year) == 365 * (year - 1) + (year - 1) / 4 - (year - 1) / 100 + (year - 1) / 400 + 1
    decreases if year > 1 then year else 2 - year
  {
    if year > 1 {
      YearStartClosed(year - 1);
      YearLength(year - 1);
      MultiplesPassed(year - 1);
    } else if year < 1 {
      YearStartClosed(year + 1);
      YearLength(year);
      MultiplesPassed(year);
    }
  }

  // ------------------------------------------------- four hundred years on

  const CALENDAR_ROUND := 4800

  lemma LeapRepeats(year: int, rounds: int)
    ensures IsLeap(year + 400 * rounds) == IsLeap(year)
  {
    Arithmetic.ShiftByMultiple(year, 100 * rounds, 4);
    Arithmetic.ShiftByMultiple(year, 4 * rounds, 100);
    Arithmetic.ShiftByMultiple(year, rounds, 400);
    assert year + 400 * rounds == year + 100 * rounds * 4 == year + 4 * rounds * 100 == year + rounds * 400;
  }

  lemma MonthLengthRepeats(month: int, rounds: int)
    ensures MonthLength(month + CALENDAR_ROUND * rounds) == MonthLength(month)
  {
    Arithmetic.ShiftByMultiple(month, 400 * rounds, 12);
    assert month + CALENDAR_ROUND * rounds == month + 400 * rounds * 12;
    LeapRepeats(YearOf(month), rounds);
  }
}
