/** bucket_utils.py, recurring_occurrence_dates, and the walk back from the
    anchor in loaf_forecast.py that keeps its phase. Days are ordinals. */
module Cadence {
  import opened Wrappers
  import opened Sorting
  import opened Calendar
  import opened Arithmetic

  datatype Unit = Days | Weeks | Months | Years

  datatype MonthDay = Day(n: int) | LastDay

  /** `monthlyDays` is `None` when no list was given; `yearly` likewise. */
  datatype Cadence = Cadence(interval: int, unit: Unit, weekdays: seq<DayOfWeek>,
                             monthlyDays: Option<seq<MonthDay>>, yearly: Option<(int, int)>)

  /** What the cadence form enforces. */
  predicate WellFormed(c: Cadence) {
    c.interval >= 1
  }

  // ------------------------------------------------ the dates, as generated

  predicate LessEq(a: int, b: int) {
    a <= b
  }

  /** The first such weekday on or after `week`. */
  function WeekDate(week: int, weekday: DayOfWeek): (d: int)
    ensures week <= d < week + 7 && Weekday(d) == weekday
  {
    week + DaysUntil(week, weekday)
  }

  function WeekDates(weekdays: seq<DayOfWeek>, start: int, week: int, end: int): seq<int> {
    if weekdays == [] then []
    else
      var n := |weekdays| - 1;
      var d := WeekDate(week, weekdays[n]);
      WeekDates(weekdays[..n], start, week, end) + if start <= d <= end then [d] else []
  }

  function MonthDate(month: int, day: MonthDay): Option<int> {
    match day
    case LastDay => Some(DateOf(month, MonthLength(month)))
    case Day(n) => if 1 <= n <= MonthLength(month) then Some(DateOf(month, n)) else None
  }

  function MonthDates(days: seq<MonthDay>, start: int, month: int, end: int): seq<int> {
    if days == [] then []
    else
      var n := |days| - 1;
      var d := MonthDate(month, days[n]);
      MonthDates(days[..n], start, month, end) + if d.Some? && start <= d.value <= end then [d.value] else []
  }

  /** An empty list goes by the 1st, as no list does. */
  function DaysOfMonth(c: Cadence): seq<MonthDay> {
    if c.monthlyDays.Some? && |c.monthlyDays.value| > 0 then c.monthlyDays.value else [Day(1)]
  }

  /** The one date of a year, or none when the year has no such day. */
  function YearDate(c: Cadence, year: int): Option<int> {
    match c.yearly
    case None => Some(YearStart(year))
    case Some((m, d)) =>
      if 1 <= m <= 12 then MonthDate(12 * (year - 1) + m - 1, Day(d)) else None
  }

  function RawDays(c: Cadence, current: int, end: int): seq<int>
    requires WellFormed(c)
    decreases end - current
  {
    if current > end then [] else [current] + RawDays(c, current + c.interval, end)
  }

  function RawWeeks(c: Cadence, start: int, week: int, end: int): seq<int>
    requires WellFormed(c)
    decreases end - week
  {
    if week > end then []
    else WeekDates(c.weekdays, start, week, end) + RawWeeks(c, start, week + 7 * c.interval, end)
  }

  function RawMonths(c: Cadence, start: int, month: int, end: int): seq<int>
    requires WellFormed(c)
    decreases MonthOf(end) - month
  {
    if month > MonthOf(end) then []
    else MonthDates(DaysOfMonth(c), start, month, end) + RawMonths(c, start, month + c.interval, end)
  }

  lemma YearDateInYear(c: Cadence, year: int)
    requires YearDate(c, year).Some?
    ensures YearOfDay(YearDate(c, year).value) == year
  {
    if c.yearly.None? {
      MonthOfUnique(YearStart(year), 12 * (year - 1));
    }
  }

  lemma YearOfDayMonotone(a: int, b: int)
    requires a <= b
    ensures YearOfDay(a) <= YearOfDay(b)
  {
    MonthOfMonotone(a, b);
  }

  /** At most one date a year, each in its own year. */
  ghost predicate Yearly(dates: int -> Option<int>, end: int, last: int) {
    && (forall y, z :: y < z && dates(y).Some? && dates(z).Some? ==> dates(y).value < dates(z).value)
    && (forall y :: dates(y).Some? && dates(y).value <= end ==> y <= last)
    && (forall y :: dates(y).Some? && y < last ==> dates(y).value <= end)
  }

  lemma YearDatesAreYearly(c: Cadence, end: int)
    ensures Yearly(YearDates(c), end, YearOfDay(end))
  {
    forall y, z | y < z && YearDate(c, y).Some? && YearDate(c, z).Some?
      ensures YearDate(c, y).value < YearDate(c, z).value
    {
      YearDateInYear(c, y);
      YearDateInYear(c, z);
      EarlierMonthEarlierDay(YearDate(c, y).value, YearDate(c, z).value);
    }
    forall y | YearDate(c, y).Some?
      ensures YearDate(c, y).value <= end ==> y <= YearOfDay(end)
      ensures y < YearOfDay(end) ==> YearDate(c, y).value <= end
    {
      YearDateInYear(c, y);
      if YearDate(c, y).value <= end {
        YearOfDayMonotone(YearDate(c, y).value, end);
      }
      if y < YearOfDay(end) {
        EarlierMonthEarlierDay(YearDate(c, y).value, end);
      }
    }
  }

  function YearDates(c: Cadence): int -> Option<int> {
    year => YearDate(c, year)
  }

  /** The yearly loop, over whatever date each year has: a year without one is
      stepped over, a date past the end stops it. */
  function RawYears(dates: int -> Option<int>, step: int, start: int, year: int, end: int, last: int): seq<int>
    requires step >= 1 && Yearly(dates, end, last)
    decreases last + 2 - year
  {
    match dates(year)
    case None =>
      if year + step > last + 1 then [] else RawYears(dates, step, start, year + step, end, last)
    case Some(d) =>
      if d > end then []
      else (if d >= start then [d] else []) + RawYears(dates, step, start, year + step, end, last)
  }

  function Raw(c: Cadence, start: int, end: int): seq<int>
    requires WellFormed(c)
  {
    if start > end then []
    else
      match c.unit
      case Days => RawDays(c, start, end)
      case Weeks => RawWeeks(c, start, start, end)
      case Months => RawMonths(c, start, MonthOf(start), end)
      case Years =>
        YearDatesAreYearly(c, end);
        RawYears(YearDates(c), c.interval, start, YearOfDay(start), end, YearOfDay(end))
  }

  /** Ascending; a date generated twice is listed twice. */
  function OccurrenceDates(c: Cadence, start: int, end: int): seq<int>
    requires WellFormed(c)
  {
    Sort(Raw(c, start, end), LessEq)
  }

  // ------------------------------------------------- the dates, as meant

  ghost predicate OnWeekday(c: Cadence, d: int) {
    Weekday(d) in c.weekdays
  }

  ghost predicate OnMonthDay(c: Cadence, d: int) {
    exists day :: day in DaysOfMonth(c) && MonthDate(MonthOf(d), day) == Some(d)
  }

  /** Whether `d` belongs to the series begun at `start`. */
  ghost predicate Occurs(c: Cadence, start: int, d: int)
    requires WellFormed(c)
  {
    d >= start &&
    match c.unit
    case Days => OnGrid(d, start, c.interval)
    case Weeks => OnWeekday(c, d) && OnGrid((d - start) / 7, 0, c.interval)
    case Months => OnMonthDay(c, d) && OnGrid(MonthOf(d), MonthOf(start), c.interval)
    case Years =>
      YearDate(c, YearOfDay(d)) == Some(d) && OnGrid(YearOfDay(d), YearOfDay(start), c.interval)
  }

  lemma {:induction false} RawDaysAre(c: Cadence, current: int, end: int, d: int)
    requires WellFormed(c)
    ensures d in RawDays(c, current, end) <==> d <= end && OnGrid(d, current, c.interval)
    decreases end - current
  {
    if current <= end {
      RawDaysAre(c, current + c.interval, end, d);
      GridStep(d, current, c.interval);
    }
  }

  lemma {:induction false} WeekDatesAre(weekdays: seq<DayOfWeek>, start: int, week: int, end: int, d: int)
    ensures d in WeekDates(weekdays, start, week, end)
       <==> start <= d <= end && week <= d < week + 7 && Weekday(d) in weekdays
  {
    if weekdays != [] {
      var n := |weekdays| - 1;
      assert weekdays == weekdays[..n] + [weekdays[n]];
      WeekDatesAre(weekdays[..n], start, week, end, d);
      if week <= d < week + 7 && Weekday(d) == weekdays[n] {
        SameWeekdayNear(week, d);
      }
    }
  }

  lemma SameWeekdayNear(week: int, d: int)
    requires week <= d < week + 7
    ensures WeekDate(week, Weekday(d)) == d
  {
  }

  lemma {:induction false} RawWeeksAre(c: Cadence, start: int, week: int, end: int, d: int)
    requires WellFormed(c) && start <= week
    ensures d in RawWeeks(c, start, week, end)
       <==> d <= end && OnWeekday(c, d) && OnGrid((d - week) / 7, 0, c.interval)
    decreases end - week
  {
    if week <= end {
      var next := week + 7 * c.interval;
      RawWeeksAre(c, start, next, end, d);
      WeekDatesAre(c.weekdays, start, week, end, d);
      GridStep((d - week) / 7, 0, c.interval);
      assert (d - week) / 7 == (d - next) / 7 + c.interval;
      assert OnGrid((d - week) / 7, c.interval, c.interval) <==> OnGrid((d - next) / 7, 0, c.interval);
    }
  }

  lemma {:induction false} MonthDatesAre(days: seq<MonthDay>, start: int, month: int, end: int, d: int)
    ensures d in MonthDates(days, start, month, end)
       <==> start <= d <= end && exists day :: day in days && MonthDate(month, day) == Some(d)
  {
    if days != [] {
      var n := |days| - 1;
      assert days == days[..n] + [days[n]];
      MonthDatesAre(days[..n], start, month, end, d);
    }
  }

  lemma MonthDateInMonth(month: int, day: MonthDay)
    requires MonthDate(month, day).Some?
    ensures MonthOf(MonthDate(month, day).value) == month
  {
  }

  lemma {:induction false} RawMonthsAre(c: Cadence, start: int, month: int, end: int, d: int, inMonth: int)
    requires WellFormed(c) && inMonth == MonthOf(d)
    requires d <= end ==> inMonth <= MonthOf(end)
    ensures d in RawMonths(c, start, month, end)
       <==> start <= d <= end && OnMonthDay(c, d) && OnGrid(inMonth, month, c.interval)
    decreases MonthOf(end) - month
  {
    if month <= MonthOf(end) {
      RawMonthsAre(c, start, month + c.interval, end, d, inMonth);
      GridStep(inMonth, month, c.interval);
      MonthDatesOnDay(c, start, month, end, d);
    }
  }

  lemma MonthDatesOnDay(c: Cadence, start: int, month: int, end: int, d: int)
    ensures d in MonthDates(DaysOfMonth(c), start, month, end)
       <==> start <= d <= end && OnMonthDay(c, d) && MonthOf(d) == month
  {
    MonthDatesAre(DaysOfMonth(c), start, month, end, d);
    forall day | day in DaysOfMonth(c) && MonthDate(month, day) == Some(d)
      ensures MonthOf(d) == month
    {
      MonthDateInMonth(month, day);
    }
  }

  lemma {:induction false} RawYearsAre(dates: int -> Option<int>, step: int, start: int, year: int, end: int,
                                       last: int, d: int)
    requires step >= 1 && Yearly(dates, end, last)
    ensures d in RawYears(dates, step, start, year, end, last)
       <==> start <= d <= end && exists y :: OnGrid(y, year, step) && dates(y) == Some(d)
    decreases last + 2 - year
  {
    forall y ensures OnGrid(y, year, step) <==> y == year || OnGrid(y, year + step, step) {
      GridStep(y, year, step);
    }
    var here := dates(year);
    if (here.Some? && here.value <= end) || (here.None? && year + step <= last + 1) {
      RawYearsAre(dates, step, start, year + step, end, last, d);
    }
  }

  lemma MonthSeriesIs(c: Cadence, start: int, end: int, d: int)
    requires WellFormed(c) && c.unit == Months && start <= end
    ensures d in Raw(c, start, end) <==> d <= end && Occurs(c, start, d)
  {
    if d <= end {
      MonthOfMonotone(d, end);
    }
    RawMonthsAre(c, start, MonthOf(start), end, d, MonthOf(d));
  }

  lemma YearSeriesIs(c: Cadence, start: int, end: int, d: int)
    requires WellFormed(c) && c.unit == Years && start <= end
    ensures d in Raw(c, start, end) <==> d <= end && Occurs(c, start, d)
  {
    YearDatesAreYearly(c, end);
    RawYearsAre(YearDates(c), c.interval, start, YearOfDay(start), end, YearOfDay(end), d);
    forall y | YearDates(c)(y) == Some(d) ensures y == YearOfDay(d) {
      YearDateInYear(c, y);
    }
    if Occurs(c, start, d) {
      assert YearDates(c)(YearOfDay(d)) == Some(d);
    }
  }

  /** The generator produces exactly the series, cut at the end date. */
  lemma GeneratesTheSeries(c: Cadence, start: int, end: int, d: int)
    requires WellFormed(c)
    ensures d in OccurrenceDates(c, start, end) <==> d <= end && Occurs(c, start, d)
  {
    SortHas(Raw(c, start, end), LessEq, d);
    if start <= end {
      match c.unit {
        case Days => RawDaysAre(c, start, end, d);
        case Weeks => RawWeeksAre(c, start, start, end, d);
        case Months =>
          MonthSeriesIs(c, start, end, d);
        case Years => YearSeriesIs(c, start, end, d);
      }
    }
  }

  // --------------------------------------------------------- the horizon

  /** The entries of a list that are no later than a day. */
  function UpTo(days: seq<int>, end: int): seq<int> {
    if |days| == 0 then []
    else UpTo(days[..|days| - 1], end) + if days[|days| - 1] <= end then [days[|days| - 1]] else []
  }

  lemma {:induction false} UpToConcat(a: seq<int>, b: seq<int>, end: int)
    ensures UpTo(a + b, end) == UpTo(a, end) + UpTo(b, end)
  {
    if b == [] {
      assert a + b == a;
    } else {
      assert (a + b)[..|a + b| - 1] == a + b[..|b| - 1];
      UpToConcat(a, b[..|b| - 1], end);
    }
  }

  lemma UpToPut(x: int, days: seq<int>, end: int)
    ensures UpTo([x] + days, end) == (if x <= end then [x] else []) + UpTo(days, end)
  {
    UpToConcat([x], days, end);
    assert [x][..0] == [];
    assert UpTo([x], end) == if x <= end then [x] else [];
  }

  lemma {:induction false} UpToNothing(days: seq<int>, end: int)
    requires forall k :: 0 <= k < |days| ==> days[k] > end
    ensures UpTo(days, end) == []
  {
    if days != [] {
      UpToNothing(days[..|days| - 1], end);
    }
  }

  lemma {:induction false} RawDaysOnward(c: Cadence, current: int, end: int)
    requires WellFormed(c)
    ensures forall k :: 0 <= k < |RawDays(c, current, end)| ==> RawDays(c, current, end)[k] >= current
    decreases end - current
  {
    if current <= end {
      RawDaysOnward(c, current + c.interval, end);
    }
  }

  lemma {:induction false} CutDays(c: Cadence, current: int, end: int, further: int)
    requires WellFormed(c) && end <= further
    ensures RawDays(c, current, end) == UpTo(RawDays(c, current, further), end)
    decreases further - current
  {
    if current <= end {
      CutDays(c, current + c.interval, end, further);
      UpToPut(current, RawDays(c, current + c.interval, further), end);
    } else {
      RawDaysOnward(c, current, further);
      UpToNothing(RawDays(c, current, further), end);
    }
  }

  lemma {:induction false} CutWeek(weekdays: seq<DayOfWeek>, start: int, week: int, end: int, further: int)
    requires end <= further
    ensures WeekDates(weekdays, start, week, end) == UpTo(WeekDates(weekdays, start, week, further), end)
  {
    if weekdays != [] {
      var n := |weekdays| - 1;
      CutWeek(weekdays[..n], start, week, end, further);
      var d := WeekDate(week, weekdays[n]);
      UpToConcat(WeekDates(weekdays[..n], start, week, further), if start <= d <= further then [d] else [], end);
    }
  }

  lemma {:induction false} CutWeeks(c: Cadence, start: int, week: int, end: int, further: int)
    requires WellFormed(c) && start <= week && end <= further
    ensures RawWeeks(c, start, week, end) == UpTo(RawWeeks(c, start, week, further), end)
    decreases further - week
  {
    if week <= end {
      CutWeeks(c, start, week + 7 * c.interval, end, further);
      CutWeek(c.weekdays, start, week, end, further);
      UpToConcat(WeekDates(c.weekdays, start, week, further), RawWeeks(c, start, week + 7 * c.interval, further), end);
    } else {
      var beyond := RawWeeks(c, start, week, further);
      forall k | 0 <= k < |beyond| ensures beyond[k] > end {
        RawWeeksAre(c, start, week, further, beyond[k]);
      }
      UpToNothing(beyond, end);
    }
  }

  lemma {:induction false} CutMonth(days: seq<MonthDay>, start: int, month: int, end: int, further: int)
    requires end <= further
    ensures MonthDates(days, start, month, end) == UpTo(MonthDates(days, start, month, further), end)
  {
    if days != [] {
      var n := |days| - 1;
      CutMonth(days[..n], start, month, end, further);
      var d := MonthDate(month, days[n]);
      UpToConcat(MonthDates(days[..n], start, month, further),
                 if d.Some? && start <= d.value <= further then [d.value] else [], end);
    }
  }

  lemma LaterMonths(c: Cadence, start: int, month: int, end: int, further: int, d: int)
    requires WellFormed(c) && month > MonthOf(end) && d in RawMonths(c, start, month, further)
    ensures d > end
  {
    if d <= further {
      MonthOfMonotone(d, further);
    }
    RawMonthsAre(c, start, month, further, d, MonthOf(d));
    if d <= end {
      MonthOfMonotone(d, end);
    }
  }

  lemma {:induction false} CutMonths(c: Cadence, start: int, month: int, end: int, further: int)
    requires WellFormed(c) && end <= further && MonthOf(end) <= MonthOf(further)
    ensures RawMonths(c, start, month, end) == UpTo(RawMonths(c, start, month, further), end)
    decreases MonthOf(further) - month
  {
    if month <= MonthOf(end) {
      CutMonths(c, start, month + c.interval, end, further);
      CutMonth(DaysOfMonth(c), start, month, end, further);
      UpToConcat(MonthDates(DaysOfMonth(c), start, month, further),
                 RawMonths(c, start, month + c.interval, further), end);
    } else {
      var beyond := RawMonths(c, start, month, further);
      forall k | 0 <= k < |beyond| ensures beyond[k] > end {
        LaterMonths(c, start, month, end, further, beyond[k]);
      }
      UpToNothing(beyond, end);
    }
  }

  ghost predicate YearsGoOn(dates: int -> Option<int>, step: int, year: int, end: int, last: int) {
    if dates(year).Some? then dates(year).value <= end else year + step <= last + 1
  }

  lemma RawYearsPut(dates: int -> Option<int>, step: int, start: int, year: int, end: int, last: int)
    requires step >= 1 && Yearly(dates, end, last) && YearsGoOn(dates, step, year, end, last)
    ensures
      var rest := RawYears(dates, step, start, year + step, end, last);
      RawYears(dates, step, start, year, end, last)
      == if dates(year).Some? && dates(year).value >= start then [dates(year).value] + rest else rest
  {
  }

  lemma {:induction false} CutYears(dates: int -> Option<int>, step: int, start: int, year: int,
                                    end: int, last: int, further: int, furthest: int)
    requires step >= 1 && end <= further && last <= furthest
    requires Yearly(dates, end, last) && Yearly(dates, further, furthest)
    ensures RawYears(dates, step, start, year, end, last)
         == UpTo(RawYears(dates, step, start, year, further, furthest), end)
    decreases furthest + 2 - year
  {
    if YearsGoOn(dates, step, year, end, last) {
      CutYears(dates, step, start, year + step, end, last, further, furthest);
      RawYearsPut(dates, step, start, year, end, last);
      RawYearsPut(dates, step, start, year, further, furthest);
      if dates(year).Some? {
        UpToPut(dates(year).value, RawYears(dates, step, start, year + step, further, furthest), end);
      }
    } else {
      NoYearsAtAll(dates, step, start, year, end, last, further, furthest);
    }
  }

  lemma NoYearsAtAll(dates: int -> Option<int>, step: int, start: int, year: int,
                     end: int, last: int, further: int, furthest: int)
    requires step >= 1 && Yearly(dates, end, last) && Yearly(dates, further, furthest)
    requires !YearsGoOn(dates, step, year, end, last)
    ensures RawYears(dates, step, start, year, end, last) == []
    ensures UpTo(RawYears(dates, step, start, year, further, furthest), end) == []
  {
    var all := RawYears(dates, step, start, year, further, furthest);
    forall k | 0 <= k < |all| ensures all[k] > end {
      NoYearsLeft(dates, step, start, year, end, last, further, furthest, all[k]);
    }
    UpToNothing(all, end);
  }

  lemma NoYearsLeft(dates: int -> Option<int>, step: int, start: int, year: int,
                    end: int, last: int, further: int, furthest: int, x: int)
    requires step >= 1 && Yearly(dates, end, last) && Yearly(dates, further, furthest)
    requires !YearsGoOn(dates, step, year, end, last)
    requires x in RawYears(dates, step, start, year, further, furthest)
    ensures x > end
  {
    RawYearsAre(dates, step, start, year, further, furthest, x);
    var y :| OnGrid(y, year, step) && dates(y) == Some(x);
    GridStep(y, year, step);
    if y > year && dates(year).Some? {
      assert dates(year).value < dates(y).value;
    }
  }

  lemma RawCut(c: Cadence, start: int, end: int, further: int)
    requires WellFormed(c) && end <= further
    ensures Raw(c, start, end) == UpTo(Raw(c, start, further), end)
  {
    if start > end {
      var beyond := Raw(c, start, further);
      forall k | 0 <= k < |beyond| ensures beyond[k] > end {
        GeneratesTheSeries(c, start, further, beyond[k]);
        SortHas(beyond, LessEq, beyond[k]);
      }
      UpToNothing(beyond, end);
    } else {
      match c.unit {
        case Days => CutDays(c, start, end, further);
        case Weeks => CutWeeks(c, start, start, end, further);
        case Months =>
          MonthOfMonotone(end, further);
          CutMonths(c, start, MonthOf(start), end, further);
        case Years =>
          YearOfDayMonotone(end, further);
          YearDatesAreYearly(c, end);
          YearDatesAreYearly(c, further);
          CutYears(YearDates(c), c.interval, start, YearOfDay(start), end, YearOfDay(end), further, YearOfDay(further));
      }
    }
  }

  lemma LessEqIsTotal()
    ensures TotalOrder(LessEq)
  {
  }

  lemma {:induction false} UpToKeepsOrder(days: seq<int>, end: int)
    requires Ordered(days, LessEq)
    ensures |UpTo(days, end)| <= |days| && UpTo(days, end) == days[..|UpTo(days, end)|]
    ensures forall k :: |UpTo(days, end)| <= k < |days| ==> days[k] > end
    ensures forall k :: 0 <= k < |UpTo(days, end)| ==> days[k] <= end
  {
    if days != [] {
      UpToKeepsOrder(days[..|days| - 1], end);
    }
  }

  lemma {:induction false} InsertUpTo(x: int, days: seq<int>, end: int)
    requires Ordered(days, LessEq)
    ensures UpTo(Insert(x, days, LessEq), end)
         == if x <= end then Insert(x, UpTo(days, end), LessEq) else UpTo(days, end)
  {
    if days == [] || x <= days[0] {
      assert Insert(x, days, LessEq) == [x] + days;
      UpToPut(x, days, end);
      UpToKeepsOrder(days, end);
    } else {
      var rest := days[1..];
      assert days == [days[0]] + rest;
      UpToPut(days[0], rest, end);
      UpToPut(days[0], Insert(x, rest, LessEq), end);
      InsertUpTo(x, rest, end);
      if x <= end {
        InsertAfter(x, days[0], UpTo(rest, end));
      }
    }
  }

  lemma InsertAfter(x: int, first: int, rest: seq<int>)
    requires first < x
    ensures Insert(x, [first] + rest, LessEq) == [first] + Insert(x, rest, LessEq)
  {
    assert ([first] + rest)[1..] == rest;
  }

  lemma SortPut(x: int, rest: seq<int>)
    ensures Sort([x] + rest, LessEq) == Insert(x, Sort(rest, LessEq), LessEq)
  {
    assert ([x] + rest)[1..] == rest;
  }

  lemma SortPutUpTo(x: int, rest: seq<int>, end: int)
    ensures UpTo(Sort([x] + rest, LessEq), end)
         == if x <= end then Insert(x, UpTo(Sort(rest, LessEq), end), LessEq) else UpTo(Sort(rest, LessEq), end)
  {
    LessEqIsTotal();
    SortOrders(rest, LessEq);
    SortPut(x, rest);
    InsertUpTo(x, Sort(rest, LessEq), end);
  }

  lemma SortUpToPut(x: int, rest: seq<int>, end: int)
    requires Sort(UpTo(rest, end), LessEq) == UpTo(Sort(rest, LessEq), end)
    ensures Sort(UpTo([x] + rest, end), LessEq) == UpTo(Sort([x] + rest, LessEq), end)
  {
    SortPutUpTo(x, rest, end);
    UpToPut(x, rest, end);
    if x <= end {
      SortPut(x, UpTo(rest, end));
    } else {
      assert [] + UpTo(rest, end) == UpTo(rest, end);
    }
  }

  lemma {:induction false} SortUpTo(days: seq<int>, end: int)
    ensures Sort(UpTo(days, end), LessEq) == UpTo(Sort(days, LessEq), end)
  {
    if days != [] {
      SortUpTo(days[1..], end);
      SortUpToPut(days[0], days[1..], end);
      assert days == [days[0]] + days[1..];
    }
  }

  /** Pushing the horizon out never changes the dates already produced: the
      shorter list is the beginning of the longer one, repeats and all. */
  lemma {:induction false} HorizonOnlyExtends(c: Cadence, start: int, end: int, further: int)
    requires WellFormed(c) && end <= further
    ensures
      var short, long := OccurrenceDates(c, start, end), OccurrenceDates(c, start, further);
      && Ordered(long, LessEq)
      && |short| <= |long| && short == long[..|short|]
      && (forall k :: |short| <= k < |long| ==> long[k] > end)
  {
    LessEqIsTotal();
    SortOrders(Raw(c, start, further), LessEq);
    RawCut(c, start, end, further);
    SortUpTo(Raw(c, start, further), end);
    UpToKeepsOrder(OccurrenceDates(c, start, further), end);
  }

  // --------------------------------------------- the generator, as it runs

  method StepDays(c: Cadence, start: int, end: int) returns (out: seq<int>)
    requires WellFormed(c)
    ensures out == RawDays(c, start, end)
  {
    out := [];
    var current := start;
    while current <= end
      invariant out + RawDays(c, current, end) == RawDays(c, start, end)
      decreases end - current
    {
      out := out + [current];
      current := current + c.interval;
    }
  }

  method ListWeek(weekdays: seq<DayOfWeek>, start: int, week: int, end: int) returns (out: seq<int>)
    ensures out == WeekDates(weekdays, start, week, end)
  {
    out := [];
    for k := 0 to |weekdays|
      invariant out == WeekDates(weekdays[..k], start, week, end)
    {
      assert weekdays[..k + 1][..k] == weekdays[..k];
      var d := WeekDate(week, weekdays[k]);
      if start <= d <= end {
        out := out + [d];
      }
    }
    assert weekdays[..|weekdays|] == weekdays;
  }

  lemma WeekTaken(c: Cadence, start: int, week: int, end: int, out: seq<int>, taken: seq<int>, all: seq<int>)
    requires WellFormed(c) && week <= end && taken == WeekDates(c.weekdays, start, week, end)
    requires out + RawWeeks(c, start, week, end) == all
    ensures out + taken + RawWeeks(c, start, week + 7 * c.interval, end) == all
  {
    ConcatAssociates(out, taken, RawWeeks(c, start, week + 7 * c.interval, end));
  }

  method StepWeeks(c: Cadence, start: int, end: int) returns (out: seq<int>)
    requires WellFormed(c)
    ensures out == RawWeeks(c, start, start, end)
  {
    out := [];
    var current := start;
    ghost var all := RawWeeks(c, start, start, end);
    while current <= end
      invariant out + RawWeeks(c, start, current, end) == all
      decreases end - current
    {
      var week := ListWeek(c.weekdays, start, current, end);
      WeekTaken(c, start, current, end, out, week, all);
      out := out + week;
      current := current + 7 * c.interval;
    }
  }

  method ListMonth(days: seq<MonthDay>, start: int, month: int, end: int) returns (out: seq<int>)
    ensures out == MonthDates(days, start, month, end)
  {
    out := [];
    for k := 0 to |days|
      invariant out == MonthDates(days[..k], start, month, end)
    {
      assert days[..k + 1][..k] == days[..k];
      var d := MonthDate(month, days[k]);
      if d.Some? && start <= d.value <= end {
        out := out + [d.value];
      }
    }
    assert days[..|days|] == days;
  }

  method StepMonths(c: Cadence, start: int, end: int) returns (out: seq<int>)
    requires WellFormed(c) && start <= end
    ensures out == RawMonths(c, start, MonthOf(start), end)
  {
    out := [];
    var month := MonthOf(start);
    MonthOfMonotone(start, end);
    while month <= MonthOf(end)
      invariant out + RawMonths(c, start, month, end) == RawMonths(c, start, MonthOf(start), end)
      decreases MonthOf(end) - month
    {
      var dates := ListMonth(DaysOfMonth(c), start, month, end);
      ConcatAssociates(out, dates, RawMonths(c, start, month + c.interval, end));
      out := out + dates;
      month := month + c.interval;
    }
  }

  method StepYears(dates: int -> Option<int>, step: int, start: int, from: int, end: int, last: int)
    returns (out: seq<int>)
    requires step >= 1 && Yearly(dates, end, last)
    ensures out == RawYears(dates, step, start, from, end, last)
  {
    out := [];
    var year := from;
    ghost var goal := RawYears(dates, step, start, from, end, last);
    ghost var rest := goal;
    while true
      invariant out + rest == goal
      invariant rest == RawYears(dates, step, start, year, end, last)
      decreases last + 2 - year
    {
      var d := dates(year);
      if d.None? && year + step > last + 1 {
        break;
      }
      if d.Some? && d.value > end {
        break;
      }
      ghost var before := rest;
      rest := RawYears(dates, step, start, year + step, end, last);
      if d.Some? && d.value >= start {
        assert before == [d.value] + rest;
        ConcatAssociates(out, [d.value], rest);
        out := out + [d.value];
      } else {
        assert before == rest;
      }
      year := year + step;
    }
    assert rest == [];
  }

  /** recurring_occurrence_dates. */
  method RecurringOccurrenceDates(c: Cadence, start: int, end: int) returns (out: seq<int>)
    requires WellFormed(c)
    ensures out == OccurrenceDates(c, start, end)
  {
    out := [];
    if start <= end {
      match c.unit {
        case Days => out := StepDays(c, start, end);
        case Weeks => out := StepWeeks(c, start, end);
        case Months => out := StepMonths(c, start, end);
        case Years =>
          YearDatesAreYearly(c, end);
          out := StepYears(YearDates(c), c.interval, start, YearOfDay(start), end, YearOfDay(end));
      }
    }
    out := Sort(out, LessEq);
  }

  // ------------------------------------------------------ in plain terms

  /** A day of a series: whole intervals of days on; a listed weekday, whole intervals of weeks
      on; a listed day of the month or its last, or the 1st with no list, whole intervals of
      months on; the one date of the year, 1 January with none named, whole intervals of years
      on. */
  ghost predicate SeriesHas(c: Cadence, start: int, d: int)
    requires WellFormed(c)
  {
    d >= start &&
    match c.unit
    case Days => (d - start) % c.interval == 0
    case Weeks => Weekday(d) in c.weekdays && ((d - start) / 7) % c.interval == 0
    case Months =>
      && (MonthOf(d) - MonthOf(start)) % c.interval == 0
      && (if c.monthlyDays.None? || c.monthlyDays.value == [] then DayOf(d) == 1
          else Day(DayOf(d)) in c.monthlyDays.value || (LastDay in c.monthlyDays.value && DayOf(d + 1) == 1))
    case Years =>
      && (YearOfDay(d) - YearOfDay(start)) % c.interval == 0
      && match c.yearly
         case None => MonthOf(d) % 12 == 0 && DayOf(d) == 1
         case Some((m, n)) => MonthOf(d) % 12 == m - 1 && DayOf(d) == n
  }

  lemma EndOfItsMonth(d: int)
    ensures DayOf(d + 1) == 1 <==> DayOf(d) == MonthLength(MonthOf(d))
  {
    var month := MonthOf(d);
    NextMonthStart(month);
    if DayOf(d) == MonthLength(month) {
      MonthOfUnique(d + 1, month + 1);
    } else {
      MonthOfUnique(d + 1, month);
    }
  }

  lemma MonthDayIs(d: int, day: MonthDay)
    ensures MonthDate(MonthOf(d), day) == Some(d) <==> day == Day(DayOf(d)) || (day == LastDay && DayOf(d + 1) == 1)
  {
    EndOfItsMonth(d);
  }

  lemma OnMonthDayIs(c: Cadence, d: int)
    ensures OnMonthDay(c, d)
       <==> if c.monthlyDays.None? || c.monthlyDays.value == [] then DayOf(d) == 1
            else Day(DayOf(d)) in c.monthlyDays.value || (LastDay in c.monthlyDays.value && DayOf(d + 1) == 1)
  {
    forall day ensures MonthDate(MonthOf(d), day) == Some(d)
                  <==> day == Day(DayOf(d)) || (day == LastDay && DayOf(d + 1) == 1)
    {
      MonthDayIs(d, day);
    }
    var days := DaysOfMonth(c);
    assert OnMonthDay(c, d) <==> Day(DayOf(d)) in days || (LastDay in days && DayOf(d + 1) == 1);
  }

  lemma YearDateIs(c: Cadence, d: int)
    ensures YearDate(c, YearOfDay(d)) == Some(d)
       <==> match c.yearly
            case None => MonthOf(d) % 12 == 0 && DayOf(d) == 1
            case Some((m, n)) => MonthOf(d) % 12 == m - 1 && DayOf(d) == n
  {
    var year := YearOfDay(d);
    match c.yearly
    case None => MonthOfUnique(YearStart(year), 12 * (year - 1));
    case Some((m, n)) =>
      if 1 <= m <= 12 && MonthOf(d) == 12 * (year - 1) + m - 1 {
        MonthDayIs(d, Day(n));
      }
  }

  /** So the series is, and with it every list of dates generated. */
  lemma SeriesIs(c: Cadence, start: int, d: int)
    requires WellFormed(c)
    ensures Occurs(c, start, d) <==> SeriesHas(c, start, d)
  {
    if d >= start {
      if c.unit == Months {
        MonthOfMonotone(start, d);
        OnMonthDayIs(c, d);
      } else if c.unit == Years {
        YearOfDayMonotone(start, d);
        YearDateIs(c, d);
      }
    }
  }

  // ------------------------------------------- walking back from the anchor

  const MAX_PERIODS_BACK := 3000

  /** One cadence earlier. */
  function OnePeriodBack(c: Cadence, when: int): (r: int)
    requires WellFormed(c)
    ensures r < when
  {
    match c.unit
    case Days => when - c.interval
    case Weeks => when - 7 * c.interval
    case Months => EarlierMonthEarlierDay(AddMonths(when, -c.interval), when); AddMonths(when, -c.interval)
    case Years => EarlierMonthEarlierDay(AddMonths(when, -12 * c.interval), when); AddMonths(when, -12 * c.interval)
  }

  function WalkBack(c: Cadence, when: int, start: int, periods: nat): int
    requires WellFormed(c)
    decreases periods
  {
    if when > start && periods > 0 then WalkBack(c, OnePeriodBack(c, when), start, periods - 1) else when
  }

  /** Where generation begins so that no date between `start` and the anchor is missed. */
  function GenerateFrom(c: Cadence, anchor: int, start: int): int
    requires WellFormed(c)
  {
    WalkBack(c, anchor, start, MAX_PERIODS_BACK)
  }

  /** The anchor, or so many cadences back of it: no more than it takes to reach the start, and
      never more than three thousand. */
  ghost predicate BackBy(c: Cadence, when: int, k: nat, r: int)
    requires WellFormed(c)
  {
    match c.unit
    case Days => r == when - k * c.interval
    case Weeks => r == when - 7 * (k * c.interval)
    case Months => MonthOf(r) == MonthOf(when) - k * c.interval
    case Years => MonthOf(r) == MonthOf(when) - 12 * (k * c.interval)
  }

  lemma {:induction false} WalkBackIs(c: Cadence, when: int, start: int, periods: nat) returns (k: nat, before: int)
    requires WellFormed(c)
    ensures k <= periods && BackBy(c, when, k, WalkBack(c, when, start, periods))
    ensures k == 0 ==> WalkBack(c, when, start, periods) == when
    ensures k == periods || WalkBack(c, when, start, periods) <= start
    ensures k > 0 ==> before > start && BackBy(c, when, k - 1, before)
    decreases periods
  {
    if when > start && periods > 0 {
      var n;
      n, before := WalkBackIs(c, OnePeriodBack(c, when), start, periods - 1);
      k := n + 1;
      assert k * c.interval == n * c.interval + c.interval;
      if n == 0 {
        before := when;
      } else {
        assert n * c.interval == (n - 1) * c.interval + c.interval;
      }
    } else {
      k, before := 0, when;
    }
  }

  lemma GenerateFromIs(c: Cadence, anchor: int, start: int) returns (k: nat, before: int)
    requires WellFormed(c)
    ensures k <= 3000 && BackBy(c, anchor, k, GenerateFrom(c, anchor, start))
    ensures k == 0 ==> GenerateFrom(c, anchor, start) == anchor
    ensures k == 3000 || GenerateFrom(c, anchor, start) <= start
    ensures k > 0 ==> before > start && BackBy(c, anchor, k - 1, before)
  {
    k, before := WalkBackIs(c, anchor, start, MAX_PERIODS_BACK);
  }

  /** _generate_from, as it runs. */
  method WalkBackToStart(c: Cadence, anchor: int, start: int) returns (when: int)
    requires WellFormed(c)
    ensures when == GenerateFrom(c, anchor, start)
  {
    when := anchor;
    var guard := 0;
    while when > start && guard < MAX_PERIODS_BACK
      invariant 0 <= guard <= MAX_PERIODS_BACK
      invariant WalkBack(c, when, start, MAX_PERIODS_BACK - guard) == GenerateFrom(c, anchor, start)
    {
      when := OnePeriodBack(c, when);
      guard := guard + 1;
    }
  }

  /** The measure a cadence steps through, and how far one period moves it. */
  function Position(c: Cadence, d: int): int {
    match c.unit
    case Days => d
    case Weeks => d
    case Months => MonthOf(d)
    case Years => YearOfDay(d)
  }

  function PeriodLength(c: Cadence): int {
    if c.unit == Weeks then 7 * c.interval else c.interval
  }

  ghost predicate SamePhase(c: Cadence, a: int, b: int) {
    exists periods :: Position(c, a) == Position(c, b) + periods * PeriodLength(c)
  }

  lemma OnePeriodBackKeepsPhase(c: Cadence, when: int)
    requires WellFormed(c)
    ensures Position(c, OnePeriodBack(c, when)) == Position(c, when) - PeriodLength(c)
  {
  }

  lemma {:induction false} WalkBackKeepsPhase(c: Cadence, when: int, start: int, periods: nat) returns (back: nat)
    requires WellFormed(c)
    ensures Position(c, WalkBack(c, when, start, periods)) == Position(c, when) - back * PeriodLength(c)
    decreases periods
  {
    back := 0;
    if when > start && periods > 0 {
      OnePeriodBackKeepsPhase(c, when);
      back := WalkBackKeepsPhase(c, OnePeriodBack(c, when), start, periods - 1);
      back := back + 1;
      assert back * PeriodLength(c) == (back - 1) * PeriodLength(c) + PeriodLength(c);
    }
  }

  /** A later start walks back less far, and the two only differ when it got there. */
  lemma {:induction false} WalkBackOrder(c: Cadence, when: int, start: int, later: int, periods: nat)
    requires WellFormed(c) && start <= later
    ensures WalkBack(c, when, start, periods) <= WalkBack(c, when, later, periods)
    ensures WalkBack(c, when, later, periods) > later
            ==> WalkBack(c, when, start, periods) == WalkBack(c, when, later, periods)
    decreases periods
  {
    if when > start && periods > 0 {
      WalkBackOrder(c, OnePeriodBack(c, when), start, later, periods - 1);
      WalkBackBelow(c, OnePeriodBack(c, when), start, periods - 1);
    }
  }

  lemma {:induction false} WalkBackBelow(c: Cadence, when: int, start: int, periods: nat)
    requires WellFormed(c)
    ensures WalkBack(c, when, start, periods) <= when
    decreases periods
  {
    if when > start && periods > 0 {
      WalkBackBelow(c, OnePeriodBack(c, when), start, periods - 1);
    }
  }

  lemma WeekGridShift(a: int, b: int, periods: int, interval: int, d: int)
    requires interval >= 1 && a == b + periods * (7 * interval) && a <= d && b <= d
    ensures OnGrid((d - a) / 7, 0, interval) <==> OnGrid((d - b) / 7, 0, interval)
  {
    assert periods * (7 * interval) == 7 * (periods * interval);
    assert (d - b) / 7 == (d - a) / 7 + periods * interval;
    ShiftByMultiple((d - a) / 7, periods, interval);
  }

  lemma MonthGridShift(a: int, b: int, periods: int, interval: int, d: int)
    requires interval >= 1 && MonthOf(a) == MonthOf(b) + periods * interval && a <= d && b <= d
    ensures OnGrid(MonthOf(d), MonthOf(a), interval) <==> OnGrid(MonthOf(d), MonthOf(b), interval)
  {
    MonthOfMonotone(a, d);
    MonthOfMonotone(b, d);
    GridShift(MonthOf(d), MonthOf(b), periods, interval);
  }

  lemma YearGridShift(a: int, b: int, periods: int, interval: int, d: int)
    requires interval >= 1 && YearOfDay(a) == YearOfDay(b) + periods * interval && a <= d && b <= d
    ensures OnGrid(YearOfDay(d), YearOfDay(a), interval) <==> OnGrid(YearOfDay(d), YearOfDay(b), interval)
  {
    MonthOfMonotone(a, d);
    MonthOfMonotone(b, d);
    GridShift(YearOfDay(d), YearOfDay(b), periods, interval);
  }

  /** Two starts in one phase begin the same series, wherever both have begun. */
  lemma PhaseDecidesTheSeries(c: Cadence, a: int, b: int, d: int)
    requires WellFormed(c) && SamePhase(c, a, b) && a <= d && b <= d
    ensures Occurs(c, a, d) <==> Occurs(c, b, d)
  {
    var periods :| Position(c, a) == Position(c, b) + periods * PeriodLength(c);
    match c.unit {
      case Days => GridShift(d, b, periods, c.interval);
      case Weeks => WeekGridShift(a, b, periods, c.interval, d);
      case Months => MonthGridShift(a, b, periods, c.interval, d);
      case Years => YearGridShift(a, b, periods, c.interval, d);
    }
  }

  lemma GenerateFromSamePhase(c: Cadence, anchor: int, start: int, later: int)
    requires WellFormed(c)
    ensures SamePhase(c, GenerateFrom(c, anchor, start), GenerateFrom(c, anchor, later))
  {
    var n := WalkBackKeepsPhase(c, anchor, start, MAX_PERIODS_BACK);
    var m := WalkBackKeepsPhase(c, anchor, later, MAX_PERIODS_BACK);
    assert (m - n) * PeriodLength(c) == m * PeriodLength(c) - n * PeriodLength(c);
  }

  /** _pay_date_before: the last date of the pattern in the cadence before `when`,
      or the stepped-back date when it has none. */
  function PayDateBefore(c: Cadence, when: int): (r: int)
    requires WellFormed(c)
    ensures r < when
  {
    var earlier := UpTo(OccurrenceDates(c, OnePeriodBack(c, when), when), when - 1);
    if |earlier| == 0 then OnePeriodBack(c, when)
    else
      UpToBelow(OccurrenceDates(c, OnePeriodBack(c, when), when), when - 1);
      earlier[|earlier| - 1]
  }

  lemma {:induction false} UpToBelow(days: seq<int>, end: int)
    ensures forall k :: 0 <= k < |UpTo(days, end)| ==> UpTo(days, end)[k] <= end
  {
    if days != [] {
      UpToBelow(days[..|days| - 1], end);
    }
  }

  // ------------------------------------------------------------- pay dates

  function Within(days: seq<int>, after: int, through: int): (r: seq<int>)
    ensures forall d :: d in r <==> d in days && after < d <= through
  {
    if days == [] then []
    else (if after < days[0] <= through then [days[0]] else []) + Within(days[1..], after, through)
  }

  /** pay_dates: the job's pay dates in (after, through]. */
  function PayDates(c: Cadence, anchor: Option<int>, after: int, through: int): seq<int>
    requires WellFormed(c)
  {
    if anchor.None? || through <= after then []
    else Within(OccurrenceDates(c, GenerateFrom(c, anchor.value, after), through), after, through)
  }

  lemma {:induction false} WithinInOrder(days: seq<int>, after: int, through: int)
    requires Ordered(days, LessEq)
    ensures Ordered(Within(days, after, through), LessEq)
  {
    if days != [] {
      var rest := Within(days[1..], after, through);
      WithinInOrder(days[1..], after, through);
      forall j | 0 <= j < |rest| ensures LessEq(days[0], rest[j]) {
        assert rest[j] in rest && rest[j] in days[1..];
        var k :| 0 <= k < |days[1..]| && days[1..][k] == rest[j];
        assert LessEq(days[0], days[k + 1]);
      }
    }
  }

  /** The pay dates of a span are those of the series begun behind it, in their order. */
  lemma PayDatesAre(c: Cadence, anchor: Option<int>, after: int, through: int, d: int)
    requires WellFormed(c)
    ensures d in PayDates(c, anchor, after, through)
       <==> anchor.Some? && after < d <= through && Occurs(c, GenerateFrom(c, anchor.value, after), d)
    ensures Ordered(PayDates(c, anchor, after, through), LessEq)
  {
    if anchor.Some? && after < through {
      GeneratesTheSeries(c, GenerateFrom(c, anchor.value, after), through, d);
      LessEqIsTotal();
      SortOrders(Raw(c, GenerateFrom(c, anchor.value, after), through), LessEq);
      WithinInOrder(OccurrenceDates(c, GenerateFrom(c, anchor.value, after), through), after, through);
    }
  }

  /** project's accrual dates: the same series, generated from the basket's start. */
  ghost function AccrualDates(c: Cadence, anchor: int, start: int, through: int): set<int>
    requires WellFormed(c)
  {
    set d | d in OccurrenceDates(c, GenerateFrom(c, anchor, start), through) && d > start
  }

  /** Whatever date generation begins from, every pay date reported after it is
      one the balance moved on, and the other way round. */
  lemma PayDatesAreAccrualDates(c: Cadence, anchor: int, start: int, after: int, through: int, d: int)
    requires WellFormed(c) && start <= after < through
    ensures d in PayDates(c, Some(anchor), after, through)
       <==> d in AccrualDates(c, anchor, start, through) && after < d
  {
    var early, late := GenerateFrom(c, anchor, start), GenerateFrom(c, anchor, after);
    GeneratesTheSeries(c, early, through, d);
    GeneratesTheSeries(c, late, through, d);
    WalkBackOrder(c, anchor, start, after, MAX_PERIODS_BACK);
    if after < d && early <= d && late <= d {
      GenerateFromSamePhase(c, anchor, start, after);
      PhaseDecidesTheSeries(c, early, late, d);
    }
  }
}
