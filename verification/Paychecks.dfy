/** pay_forecast.py, the pricing of an hourly paycheck: overtime by the workweek
    and rounding by the check. Hours are whole hundredths, money whole cents. */
module Paychecks {
  import opened Wrappers
  import opened Rounding
  import opened Calendar
  import Cadence
  import opened LoafWalk
  import opened Shelf

  const OVERTIME_AFTER := 4000

  /** A period of days, both ends included. */
  datatype Period = Period(start: int, end: int)

  // ---------------------------------------------------------------- hours

  datatype DayHours = DayHours(scheduled: nat, holiday: nat, pto: int, uto: int, worked: nat)

  /** One day: a holiday comes out of what is scheduled, time off out of what is left. */
  function HoursOf(shelf: Shelf, shut: set<int>, pto: Hours, uto: Hours, day: int): DayHours {
    var scheduled := if Attends(shelf, Weekday(day)) then AsHours(ScheduledMinutes(shelf, Weekday(day))) else 0;
    var holiday := if day in shut then scheduled else 0;
    DayHours(scheduled, holiday, On(pto, day), On(uto, day),
             Worked(scheduled, On(pto, day) + On(uto, day), holiday))
  }

  /** A figure for each day of a stretch. */
  function EachDay(figure: int -> DayHours, first: int, last: int): map<int, DayHours> {
    map day | first <= day <= last :: figure(day)
  }

  lemma OneMoreDay(figure: int -> DayHours, first: int, last: int)
    requires first <= last
    ensures EachDay(figure, first, last) == EachDay(figure, first, last - 1)[last := figure(last)]
  {
  }

  function Figures(shelf: Shelf, shut: set<int>, pto: Hours, uto: Hours): int -> DayHours {
    day => HoursOf(shelf, shut, pto, uto, day)
  }

  function HoursEachDay(shelf: Shelf, shut: set<int>, pto: Hours, uto: Hours, first: int, last: int)
    : map<int, DayHours>
  {
    EachDay(Figures(shelf, shut, pto, uto), first, last)
  }

  /** A day's four figures account for what was scheduled, unless time off is more than
      a holiday leaves of it, and then nothing is worked. */
  lemma DayAccountsFor(shelf: Shelf, shut: set<int>, pto: Hours, uto: Hours, day: int)
    ensures
      var figures := HoursOf(shelf, shut, pto, uto, day);
      && (!Attends(shelf, Weekday(day)) ==> figures.scheduled == 0)
      && (Attends(shelf, Weekday(day)) ==>
            figures.scheduled == RoundHalfEven(ScheduledMinutes(shelf, Weekday(day)) as real * 100.0 / 60.0))
      && figures.pto == (if day in pto then pto[day] else 0) && figures.uto == (if day in uto then uto[day] else 0)
      && figures.holiday == (if day in shut then figures.scheduled else 0)
      && (figures.pto + figures.uto <= figures.scheduled - figures.holiday ==>
            figures.scheduled == figures.holiday + figures.pto + figures.uto + figures.worked)
      && (figures.pto + figures.uto > figures.scheduled - figures.holiday ==> figures.worked == 0)
  {
  }

  /** Every day from the first to the last, and its own figures. */
  ghost predicate IsEachDay(days: map<int, DayHours>, shelf: Shelf, shut: set<int>, pto: Hours, uto: Hours, first: int,
                            last: int)
  {
    && (forall day :: day in days <==> first <= day <= last)
    && (forall day :: day in days ==> days[day] == HoursOf(shelf, shut, pto, uto, day))
  }

  lemma EachDayIs(shelf: Shelf, shut: set<int>, pto: Hours, uto: Hours, first: int, last: int)
    ensures IsEachDay(HoursEachDay(shelf, shut, pto, uto, first, last), shelf, shut, pto, uto, first, last)
  {
  }

  /** day_hours. */
  method ListDayHours(shelf: Shelf, first: int, last: int, pto: Hours, uto: Hours) returns (days: map<int, DayHours>)
    ensures days == HoursEachDay(shelf, Shut(shelf, first, last), pto, uto, first, last)
    ensures IsEachDay(days, shelf, Shut(shelf, first, last), pto, uto, first, last)
  {
    EachDayIs(shelf, Shut(shelf, first, last), pto, uto, first, last);
    days := map[];
    var figures := Figures(shelf, Shut(shelf, first, last), pto, uto);
    var day := first;
    while day <= last
      invariant first <= day && (day <= last + 1 || day == first)
      invariant days == EachDay(figures, first, day - 1)
    {
      OneMoreDay(figures, first, day);
      days := days[day := figures(day)];
      day := day + 1;
    }
    assert day > last + 1 ==> EachDay(figures, first, day - 1) == EachDay(figures, first, last);
  }

  /** Worked hours as a plain map. */
  function WorkedHours(days: map<int, DayHours>): (worked: Hours)
    ensures forall d :: On(worked, d) >= 0
  {
    map d | d in days :: days[d].worked
  }

  // ------------------------------------------------------------- overtime

  /** The hours over forty of the workweek that ends on a day. */
  function Excess(worked: Hours, day: int): nat {
    var hours := Sum(worked, day - 6, day);
    if hours > OVERTIME_AFTER then hours - OVERTIME_AFTER else 0
  }

  const SATURDAY: DayOfWeek := 5

  /** _workweek_end_weekday: paid by the week, the day its own period ends on. */
  function WorkweekEnd(unit: Cadence.Unit, period: Period): DayOfWeek {
    if unit == Cadence.Weeks then Weekday(period.end) else SATURDAY
  }

  function WeekEnds(unit: Cadence.Unit, periods: seq<Period>): (r: seq<DayOfWeek>)
    ensures |r| == |periods|
  {
    seq(|periods|, i requires 0 <= i < |periods| => WorkweekEnd(unit, periods[i]))
  }

  /** Over forty, of every workweek ending on the given weekday in a stretch of days. */
  function Overtime(worked: Hours, weekEnd: DayOfWeek, first: int, last: int): nat
    decreases last - first
  {
    if last < first then 0
    else Overtime(worked, weekEnd, first, last - 1) + if Weekday(last) == weekEnd then Excess(worked, last) else 0
  }

  /** The seven days ending on a day, counted back from it. */
  method WorkweekHours(worked: Hours, day: int) returns (hours: int)
    ensures hours == Sum(worked, day - 6, day)
  {
    hours := 0;
    for k := 0 to 7
      invariant hours == Sum(worked, day - k + 1, day)
    {
      SumFromTheFront(worked, day - k, day);
      if day - k in worked {
        hours := hours + worked[day - k];
      }
    }
  }

  lemma {:induction false} SumFromTheFront(hours: Hours, a: int, b: int)
    requires a <= b + 1
    ensures Sum(hours, a, b) == (if a <= b then On(hours, a) + Sum(hours, a + 1, b) else 0)
    decreases b - a
  {
    if a <= b - 1 {
      SumFromTheFront(hours, a, b - 1);
    } else if a == b {
      assert Sum(hours, a, b) == Sum(hours, a, b - 1) + On(hours, b);
    }
  }

  /** overtime_hours. */
  method OvertimeHours(worked: Hours, period: Period, weekEnd: DayOfWeek) returns (total: nat)
    ensures total == Overtime(worked, weekEnd, period.start, period.end)
  {
    total := 0;
    var day := period.start;
    while day <= period.end
      invariant period.start <= day && (day <= period.end + 1 || day == period.start)
      invariant total == Overtime(worked, weekEnd, period.start, day - 1)
    {
      if Weekday(day) == weekEnd {
        var hours := WorkweekHours(worked, day);
        if hours > OVERTIME_AFTER {
          total := total + (hours - OVERTIME_AFTER);
        }
      }
      day := day + 1;
    }
  }

  // ---------------------------------------------- once for each workweek

  ghost predicate Tiling(periods: seq<Period>) {
    && (forall i :: 0 <= i < |periods| ==> periods[i].start <= periods[i].end + 1)
    && forall i :: 0 <= i < |periods| - 1 ==> periods[i + 1].start == periods[i].end + 1
  }

  lemma {:induction false} OvertimeSplits(worked: Hours, weekEnd: DayOfWeek, first: int, middle: int, last: int)
    requires first <= middle + 1 && middle <= last
    ensures Overtime(worked, weekEnd, first, last)
         == Overtime(worked, weekEnd, first, middle) + Overtime(worked, weekEnd, middle + 1, last)
    decreases last - middle
  {
    if middle < last {
      OvertimeSplits(worked, weekEnd, first, middle, last - 1);
    }
  }

  /** What the first n checks of a run pay as overtime, each by its own week's end. */
  function OvertimePaid(worked: Hours, periods: seq<Period>, weekEnds: seq<DayOfWeek>, n: nat): nat
    requires n <= |periods| == |weekEnds|
  {
    if n == 0 then 0
    else
      OvertimePaid(worked, periods, weekEnds, n - 1)
      + Overtime(worked, weekEnds[n - 1], periods[n - 1].start, periods[n - 1].end)
  }

  /** With one fixed week end, a run of tiling periods pays the overtime of each
      workweek ending in the run once, wherever the periods are cut. */
  lemma {:induction false} OncePerWorkweek(worked: Hours, periods: seq<Period>, weekEnds: seq<DayOfWeek>,
                                           weekEnd: DayOfWeek,
                                           n: nat)
    requires Tiling(periods) && 0 < n <= |periods| == |weekEnds|
    requires forall i :: 0 <= i < |weekEnds| ==> weekEnds[i] == weekEnd
    ensures OvertimePaid(worked, periods, weekEnds, n)
         == Overtime(worked, weekEnd, periods[0].start, periods[n - 1].end)
    ensures periods[0].start <= periods[n - 1].end + 1
  {
    if n > 1 {
      OncePerWorkweek(worked, periods, weekEnds, weekEnd, n - 1);
      assert periods[(n - 2) + 1].start == periods[n - 2].end + 1;
      OvertimeSplits(worked, weekEnd, periods[0].start, periods[n - 2].end, periods[n - 1].end);
    } else {
      assert OvertimePaid(worked, periods, weekEnds, 0) == 0;
    }
  }

  /** In a stretch of at most a week only one workweek ends on a given weekday. */
  lemma {:induction false} OneEndAWeek(worked: Hours, e: int, first: int, last: int)
    requires first <= last + 1 <= first + 7 && first <= e < first + 7
    ensures Overtime(worked, Weekday(e), first, last) == if e <= last then Excess(worked, e) else 0
    decreases last - first
  {
    if first <= last {
      OneEndAWeek(worked, e, first, last - 1);
      if Weekday(last) == Weekday(e) {
        if e <= last {
          SameWeekday(e, last);
        } else {
          SameWeekday(last, e);
        }
      }
    }
  }

  /** The hours over forty of the seven days up to each of the first n ends. */
  function ExcessAtEnds(worked: Hours, periods: seq<Period>, n: nat): nat
    requires n <= |periods|
  {
    if n == 0 then 0 else ExcessAtEnds(worked, periods, n - 1) + Excess(worked, periods[n - 1].end)
  }

  /** Paid by the week in periods of at most a week, every check charges the seven
      days up to its own end, whichever weekdays the paydays are. */
  lemma {:induction false} EachCheckItsOwnWeek(worked: Hours, periods: seq<Period>, n: nat)
    requires n <= |periods|
             && forall i :: 0 <= i < |periods| ==> periods[i].start <= periods[i].end < periods[i].start + 7
    ensures OvertimePaid(worked, periods, WeekEnds(Cadence.Weeks, periods), n) == ExcessAtEnds(worked, periods, n)
  {
    if n > 0 {
      EachCheckItsOwnWeek(worked, periods, n - 1);
      OneEndAWeek(worked, periods[n - 1].end, periods[n - 1].start, periods[n - 1].end);
    }
  }

  /** Paid twice a week, each check's workweek ends where its own period does, so
      one week's two checks charge two overlapping workweeks: more than the one
      workweek comes to exactly when the other one is over forty too. */
  lemma TwoPaydaysAWeek(worked: Hours, first: int, middle: int)
    requires first <= middle < first + 6
    ensures
      var periods := [Period(first, middle), Period(middle + 1, first + 6)];
      var paid := OvertimePaid(worked, periods, WeekEnds(Cadence.Weeks, periods), 2);
      var once := Overtime(worked, Weekday(first + 6), first, first + 6);
      && paid == Excess(worked, middle) + Excess(worked, first + 6) && once == Excess(worked, first + 6)
      && (paid != once <==> Sum(worked, middle - 6, middle) > OVERTIME_AFTER)
  {
    var periods := [Period(first, middle), Period(middle + 1, first + 6)];
    EachCheckItsOwnWeek(worked, periods, 2);
    OneEndAWeek(worked, first + 6, first, first + 6);
    assert ExcessAtEnds(worked, periods, 1) == ExcessAtEnds(worked, periods, 0) + Excess(worked, middle);
  }

  // ---------------------------------------------------------------- money

  /** Straight time for the hours paid, and half again for those over forty.
      The rate is in cents for a hundredth of an hour. */
  function Pay(rate: real, paid: int, overtime: int): real {
    rate * (paid as real + 0.5 * overtime as real)
  }

  lemma PayAdds(rate: real, paid: int, overtime: int, paid': int, overtime': int)
    ensures Pay(rate, paid + paid', overtime + overtime') == Pay(rate, paid, overtime) + Pay(rate, paid', overtime')
  {
  }

  /** Worked hours and paid time off, and holidays when the income pays them. */
  function PaidHours(days: map<int, DayHours>, paidHolidays: bool): Hours {
    map d | d in days :: days[d].worked + days[d].pto + if paidHolidays then days[d].holiday else 0
  }

  /** The gross of one hourly check. */
  function Gross(rate: real, days: map<int, DayHours>, paidHolidays: bool, overtime: bool, period: Period,
                 weekEnd: DayOfWeek): int
  {
    RoundHalfUp(Pay(rate, Sum(PaidHours(days, paidHolidays), period.start, period.end),
                    if overtime then Overtime(WorkedHours(days), weekEnd, period.start, period.end) else 0))
  }

  function Net(gross: int, takeHome: real): int {
    RoundHalfUp(gross as real * takeHome / 100.0)
  }

  // --------------------------------------------------------------- salaries

  function AtLeastOne(n: nat): nat {
    if n > 0 then n else 1
  }

  /** paychecks_per_year: what a yearly salary is spread by. */
  function ChecksAYear(c: Cadence.Cadence): (per: real)
    requires Cadence.WellFormed(c)
    ensures per > 0.0
  {
    match c.unit
    case Weeks => (52 * AtLeastOne(|c.weekdays|)) as real / c.interval as real
    case Months =>
      (12 * AtLeastOne(if c.monthlyDays.Some? then |c.monthlyDays.value| else 0)) as real / c.interval as real
    case Years => 1.0 / c.interval as real
    case Days => 365.0 / c.interval as real
  }

  /** What a year pays: the yearly figure, or twelve of the monthly one. */
  function Yearly(rate: real, byTheMonth: bool): (yearly: real)
    ensures yearly == if byTheMonth then 12.0 * rate else rate
  {
    if byTheMonth then rate * 12.0 else rate
  }

  /** salary_per_check: a figure stated by the year or by the month. */
  function SalaryPerCheck(rate: real, byTheMonth: bool, c: Cadence.Cadence): real
    requires Cadence.WellFormed(c)
  {
    Yearly(rate, byTheMonth) / ChecksAYear(c)
  }

  /** The part of a check not lost to unpaid time: of the hours the employer counts in
      a period, or of those scheduled in it when none are fixed. */
  function PartKept(uto: int, periodHours: int, scheduled: int): (part: real)
    ensures 0.0 <= part && (uto >= 0 ==> part <= 1.0)
  {
    var counted := if periodHours != 0 then periodHours else scheduled;
    if counted <= 0 then 1.0
    else if uto >= counted then 0.0
    else 1.0 - uto as real / counted as real
  }

  function ScheduledHours(days: map<int, DayHours>): Hours {
    map d | d in days :: days[d].scheduled
  }

  function UnpaidHours(days: map<int, DayHours>): Hours {
    map d | d in days :: days[d].uto
  }

  function SalaryCheck(perCheck: real, part: real): int {
    RoundHalfUp(perCheck * part)
  }

  function SalaryGross(perCheck: real, periodHours: int, days: map<int, DayHours>, period: Period): int {
    SalaryCheck(perCheck, PartKept(Sum(UnpaidHours(days), period.start, period.end), periodHours,
                                   Sum(ScheduledHours(days), period.start, period.end)))
  }

  lemma RoundHalfUpMonotone(x: real, y: real)
    requires 0.0 <= x <= y
    ensures 0 <= RoundHalfUp(x) <= RoundHalfUp(y)
  {
  }

  lemma SalaryCheckMonotone(perCheck: real, low: real, high: real)
    requires perCheck >= 0.0 && 0.0 <= low <= high
    ensures SalaryCheck(perCheck, low) <= SalaryCheck(perCheck, high)
    ensures SalaryCheck(perCheck, 1.0) == RoundHalfUp(perCheck) && SalaryCheck(perCheck, 0.0) == 0
  {
    ScaleMonotone(perCheck, 0.0, low);
    ScaleMonotone(perCheck, low, high);
    RoundHalfUpMonotone(perCheck * low, perCheck * high);
    assert perCheck * 1.0 == perCheck && perCheck * 0.0 == 0.0;
  }

  /** Unpaid time only ever takes from a salary, which is whole without it and nothing
      once all the hours counted are unpaid. */
  lemma UnpaidTakesFromASalary(perCheck: real, periodHours: int, scheduled: int, less: nat, more: nat)
    requires perCheck >= 0.0 && less <= more && (periodHours > 0 || (periodHours == 0 && scheduled > 0))
    ensures SalaryCheck(perCheck, PartKept(more, periodHours, scheduled))
         <= SalaryCheck(perCheck, PartKept(less, periodHours, scheduled))
    ensures SalaryCheck(perCheck, PartKept(0, periodHours, scheduled)) == RoundHalfUp(perCheck)
    ensures more >= (if periodHours != 0 then periodHours else scheduled) ==>
      SalaryCheck(perCheck, PartKept(more, periodHours, scheduled)) == 0
  {
    KeptFalls(less, more, periodHours, scheduled);
    KeptFalls(0, less, periodHours, scheduled);
    SalaryCheckMonotone(perCheck, PartKept(more, periodHours, scheduled), PartKept(less, periodHours, scheduled));
  }

  lemma KeptFalls(less: nat, more: nat, periodHours: int, scheduled: int)
    requires less <= more && (periodHours > 0 || (periodHours == 0 && scheduled > 0))
    ensures 0.0 <= PartKept(more, periodHours, scheduled) <= PartKept(less, periodHours, scheduled)
    ensures PartKept(0, periodHours, scheduled) == 1.0
  {
    var counted := if periodHours != 0 then periodHours else scheduled;
    ShareRises(less, more, counted);
    assert 0 as real / counted as real == 0.0;
  }

  lemma ShareRises(less: nat, more: nat, counted: int)
    requires less <= more && counted > 0
    ensures less as real / counted as real <= more as real / counted as real
  {
  }

  datatype Income = Hourly(rate: real, paidHolidays: bool, overtime: bool) | Salary(rate: real, byTheMonth: bool)

  function GrossOf(income: Income, c: Cadence.Cadence, periodHours: int, days: map<int, DayHours>, period: Period): int
    requires Cadence.WellFormed(c)
  {
    match income
    case Hourly(rate, paidHolidays, overtime) =>
      Gross(rate, days, paidHolidays, overtime, period, WorkweekEnd(c.unit, period))
    case Salary(rate, byTheMonth) => SalaryGross(SalaryPerCheck(rate, byTheMonth, c), periodHours, days, period)
  }

  /** Days with no unpaid time in them. */
  ghost predicate AllPaid(days: map<int, DayHours>) {
    forall d :: d in days ==> days[d].uto == 0 && days[d].scheduled >= 0
  }

  lemma {:induction false} NoUnpaidHours(days: map<int, DayHours>, first: int, last: int)
    requires AllPaid(days)
    ensures Sum(UnpaidHours(days), first, last) == 0 && Sum(ScheduledHours(days), first, last) >= 0
    decreases last - first
  {
    if first <= last {
      NoUnpaidHours(days, first, last - 1);
    }
  }

  /** A salaried check with no unpaid time in it is the salary spread, to the cent. */
  lemma WholeCheck(rate: real, byTheMonth: bool, c: Cadence.Cadence, periodHours: int, days: map<int, DayHours>,
                   period: Period)
    requires Cadence.WellFormed(c) && rate >= 0.0 && AllPaid(days) && periodHours >= 0
    ensures SalaryPerCheck(rate, byTheMonth, c) >= 0.0
    ensures GrossOf(Salary(rate, byTheMonth), c, periodHours, days, period)
         == RoundHalfUp(SalaryPerCheck(rate, byTheMonth, c))
  {
    var perCheck := SalaryPerCheck(rate, byTheMonth, c);
    Spread(Yearly(rate, byTheMonth), ChecksAYear(c));
    NoUnpaidHours(days, period.start, period.end);
    assert PartKept(0, periodHours, Sum(ScheduledHours(days), period.start, period.end)) == 1.0;
    assert perCheck * 1.0 == perCheck;
  }

  lemma Spread(yearly: real, checks: real)
    requires yearly >= 0.0 && checks > 0.0
    ensures yearly / checks >= 0.0
  {
  }

  /** The gross of the first n salaried checks of a run. */
  function SalaryTotal(rate: real, byTheMonth: bool, c: Cadence.Cadence, periodHours: int, days: map<int, DayHours>,
                       periods: seq<Period>, n: nat): int
    requires n <= |periods| && Cadence.WellFormed(c)
  {
    if n == 0 then 0
    else
      SalaryTotal(rate, byTheMonth, c, periodHours, days, periods, n - 1)
      + GrossOf(Salary(rate, byTheMonth), c, periodHours, days, periods[n - 1])
  }

  function WholeChecks(perCheck: real, n: nat): int {
    if n == 0 then 0 else WholeChecks(perCheck, n - 1) + RoundHalfUp(perCheck)
  }

  function Times(n: nat, x: real): real {
    n as real * x
  }

  lemma OnceMore(n: nat, x: real)
    requires n > 0
    ensures Times(n, x) == Times(n - 1, x) + x
  {
    assert n as real == (n - 1) as real + 1.0;
  }

  lemma {:induction false} WholeChecksNear(perCheck: real, n: nat)
    ensures -0.5 * n as real <= WholeChecks(perCheck, n) as real - Times(n, perCheck) <= 0.5 * n as real
  {
    if n > 0 {
      WholeChecksNear(perCheck, n - 1);
      OnceMore(n, perCheck);
    }
  }

  lemma {:induction false} SalaryTotalIs(rate: real, byTheMonth: bool, c: Cadence.Cadence, periodHours: int,
                                         days: map<int, DayHours>, periods: seq<Period>, n: nat)
    requires n <= |periods| && Cadence.WellFormed(c) && rate >= 0.0 && AllPaid(days) && periodHours >= 0
    ensures SalaryTotal(rate, byTheMonth, c, periodHours, days, periods, n)
         == WholeChecks(SalaryPerCheck(rate, byTheMonth, c), n)
  {
    if n > 0 {
      SalaryTotalIs(rate, byTheMonth, c, periodHours, days, periods, n - 1);
      WholeCheck(rate, byTheMonth, c, periodHours, days, periods[n - 1]);
    }
  }

  /** So many checks' share of what a year pays. */
  function ShareOfAYear(yearly: real, checks: real, n: nat): real
    requires checks > 0.0
  {
    yearly * (n as real / checks)
  }

  lemma NearTheShare(n: nat, yearly: real, checks: real)
    requires checks > 0.0
    ensures Times(n, yearly / checks) == ShareOfAYear(yearly, checks, n)
    ensures n as real == checks ==> ShareOfAYear(yearly, checks, n) == yearly
  {
  }

  /** The checks of any run come to their share of what a year pays, of all the checks the
      cadence is counted to give in one, to half a cent a check. */
  lemma SalaryOfAYear(rate: real, byTheMonth: bool, c: Cadence.Cadence, periodHours: int, days: map<int, DayHours>,
                      periods: seq<Period>)
    requires Cadence.WellFormed(c) && rate >= 0.0 && AllPaid(days) && periodHours >= 0
    ensures
      var gap := SalaryTotal(rate, byTheMonth, c, periodHours, days, periods, |periods|) as real
                 - ShareOfAYear(Yearly(rate, byTheMonth), ChecksAYear(c), |periods|);
      -0.5 * |periods| as real <= gap <= 0.5 * |periods| as real
  {
    SalaryTotalIs(rate, byTheMonth, c, periodHours, days, periods, |periods|);
    WholeChecksNear(SalaryPerCheck(rate, byTheMonth, c), |periods|);
    NearTheShare(|periods|, Yearly(rate, byTheMonth), ChecksAYear(c));
  }

  /** The sum of one figure over the days of a period that are there. */
  method SumInside(hours: Hours, period: Period) returns (total: int)
    ensures total == Sum(hours, period.start, period.end)
  {
    total := 0;
    var day := period.start;
    while day <= period.end
      invariant period.start <= day && (day <= period.end + 1 || day == period.start)
      invariant total == Sum(hours, period.start, day - 1)
    {
      if day in hours {
        total := total + hours[day];
      }
      day := day + 1;
    }
  }

  /** paycheck. */
  method Paycheck(income: Income, takeHome: real, period: Period, c: Cadence.Cadence, periodHours: int,
                  days: map<int, DayHours>)
    returns (gross: int, net: int)
    requires Cadence.WellFormed(c)
    ensures gross == GrossOf(income, c, periodHours, days, period) && net == Net(gross, takeHome)
  {
    match income {
      case Hourly(rate, paidHolidays, overtime) =>
        var paid := SumInside(PaidHours(days, paidHolidays), period);
        var over := 0;
        if overtime {
          over := OvertimeHours(WorkedHours(days), period, WorkweekEnd(c.unit, period));
        }
        gross := RoundHalfUp(Pay(rate, paid, over));
      case Salary(rate, byTheMonth) =>
        var uto := SumInside(UnpaidHours(days), period);
        var scheduled := SumInside(ScheduledHours(days), period);
        gross := SalaryCheck(SalaryPerCheck(rate, byTheMonth, c), PartKept(uto, periodHours, scheduled));
    }
    net := Net(gross, takeHome);
  }

  // ------------------------------------------------------- in plain numbers

  /** The hours of each day that a check pays, and those worked. */
  ghost predicate ArePaid(paid: Hours, days: map<int, DayHours>, paidHolidays: bool) {
    && (forall d :: d in days ==>
          On(paid, d) == days[d].worked + days[d].pto + if paidHolidays then days[d].holiday else 0)
    && forall d :: d !in days ==> On(paid, d) == 0
  }

  ghost predicate AreWorked(worked: Hours, days: map<int, DayHours>) {
    (forall d :: d in days ==> On(worked, d) == days[d].worked) && forall d :: d !in days ==> On(worked, d) == 0
  }

  ghost predicate AreUnpaid(unpaid: Hours, days: map<int, DayHours>) {
    (forall d :: d in days ==> On(unpaid, d) == days[d].uto) && forall d :: d !in days ==> On(unpaid, d) == 0
  }

  ghost predicate AreScheduled(scheduled: Hours, days: map<int, DayHours>) {
    && (forall d :: d in days ==> On(scheduled, d) == days[d].scheduled)
    && forall d :: d !in days ==> On(scheduled, d) == 0
  }

  lemma {:induction false} SameSum(one: Hours, two: Hours, a: int, b: int)
    requires forall d :: On(one, d) == On(two, d)
    ensures Sum(one, a, b) == Sum(two, a, b)
    decreases b - a
  {
    if a <= b {
      SameSum(one, two, a, b - 1);
    }
  }

  /** Half again for the hours of a week beyond forty. */
  function HalfAgain(rate: real, paid: int, week: int): real {
    if week > 4000 then rate * paid as real + rate * (week - 4000) as real / 2.0 else rate * paid as real
  }

  lemma PayIs(rate: real, paid: int, worked: Hours, day: int)
    ensures Pay(rate, paid, Excess(worked, day)) == HalfAgain(rate, paid, Sum(worked, day - 6, day))
    ensures Pay(rate, paid, 0) == rate * paid as real
  {
  }

  /** An hourly check of at most a week, paid by the week: straight time, and half again
      for what the seven days up to its end have over forty hours. */
  lemma PaidByTheWeek(rate: real, paidHolidays: bool, overtime: bool, c: Cadence.Cadence, periodHours: int,
                      days: map<int, DayHours>, period: Period, paid: Hours, worked: Hours)
    requires Cadence.WellFormed(c) && c.unit == Cadence.Weeks && period.start <= period.end < period.start + 7
    requires ArePaid(paid, days, paidHolidays) && AreWorked(worked, days)
    ensures
      var hours := Sum(paid, period.start, period.end);
      GrossOf(Hourly(rate, paidHolidays, overtime), c, periodHours, days, period)
      == RoundHalfUp(if overtime then HalfAgain(rate, hours, Sum(worked, period.end - 6, period.end))
                     else rate * hours as real)
  {
    OneEndAWeek(WorkedHours(days), period.end, period.start, period.end);
    SameSum(PaidHours(days, paidHolidays), paid, period.start, period.end);
    SameSum(WorkedHours(days), worked, period.end - 6, period.end);
    PayIs(rate, Sum(paid, period.start, period.end), WorkedHours(days), period.end);
  }

  /** Paid otherwise, the week ends on a Saturday. */
  lemma PaidOtherwise(rate: real, paidHolidays: bool, overtime: bool, c: Cadence.Cadence, periodHours: int,
                      days: map<int, DayHours>, period: Period, saturday: int, paid: Hours, worked: Hours)
    requires Cadence.WellFormed(c) && c.unit != Cadence.Weeks && period.start <= period.end < period.start + 7
    requires Weekday(saturday) == 5 && period.start <= saturday < period.start + 7
    requires ArePaid(paid, days, paidHolidays) && AreWorked(worked, days)
    ensures
      var hours := Sum(paid, period.start, period.end);
      GrossOf(Hourly(rate, paidHolidays, overtime), c, periodHours, days, period)
      == RoundHalfUp(if overtime && saturday <= period.end
                     then HalfAgain(rate, hours, Sum(worked, saturday - 6, saturday)) else rate * hours as real)
  {
    OneEndAWeek(WorkedHours(days), saturday, period.start, period.end);
    SameSum(PaidHours(days, paidHolidays), paid, period.start, period.end);
    SameSum(WorkedHours(days), worked, saturday - 6, saturday);
    PayIs(rate, Sum(paid, period.start, period.end), WorkedHours(days), saturday);
  }

  /** A week of work and nothing else: time and a half over forty hours. */
  lemma {:induction false} TimeAndAHalf(rate: real, overtime: bool, c: Cadence.Cadence, periodHours: int,
                                        days: map<int, DayHours>, period: Period, worked: Hours)
    requires Cadence.WellFormed(c) && c.unit == Cadence.Weeks && period.end == period.start + 6
    requires AreWorked(worked, days) && forall d :: d in days ==> days[d].pto == 0
    ensures
      var hours := Sum(worked, period.start, period.end);
      GrossOf(Hourly(rate, false, overtime), c, periodHours, days, period)
      == RoundHalfUp(if overtime then OneAndAHalf(rate, hours) else rate * hours as real)
  {
    PaidByTheWeek(rate, false, overtime, c, periodHours, days, period, worked, worked);
    AllTheSame(rate, Sum(worked, period.start, period.end));
  }

  function OneAndAHalf(rate: real, hours: int): real {
    if hours > 4000 then rate * (4000.0 + 1.5 * (hours - 4000) as real) else rate * hours as real
  }

  lemma AllTheSame(rate: real, hours: int)
    ensures HalfAgain(rate, hours, hours) == OneAndAHalf(rate, hours)
  {
  }

  /** What is taken home: the whole of it at a hundred, nothing at nothing, in between no
      more than the whole, and so many cents in the hundred of it to half a cent. */
  lemma TakenHome(gross: int, takeHome: real)
    ensures -50.0 <= gross as real * takeHome - 100.0 * Net(gross, takeHome) as real <= 50.0
    ensures takeHome == 100.0 ==> Net(gross, takeHome) == gross
    ensures takeHome == 0.0 ==> Net(gross, takeHome) == 0
    ensures gross >= 0 && 0.0 <= takeHome <= 100.0 ==> 0 <= Net(gross, takeHome) <= gross
  {
    if gross >= 0 && 0.0 <= takeHome <= 100.0 {
      var taken := gross as real * takeHome / 100.0;
      TakenPart(gross as real, takeHome, taken);
      RoundsWithin(taken, gross);
    }
    if takeHome == 100.0 {
      assert gross as real * takeHome / 100.0 == gross as real;
    }
  }

  lemma RoundsWithin(x: real, most: nat)
    requires 0.0 <= x <= most as real
    ensures 0 <= RoundHalfUp(x) <= most
  {
  }

  lemma TakenPart(gross: real, takeHome: real, taken: real)
    requires gross >= 0.0 && 0.0 <= takeHome <= 100.0 && taken == gross * takeHome / 100.0
    ensures 0.0 <= taken <= gross
  {
    ScaleMonotone(gross, 0.0, takeHome);
    ScaleMonotone(gross, takeHome, 100.0);
  }

  /** How many checks there are in a year: every other Friday is 26, the 15th and the last
      day 24, every quarter 4, every day 365, once a year 1. */
  lemma ChecksOfAYear(c: Cadence.Cadence)
    requires Cadence.WellFormed(c)
    ensures c.unit == Cadence.Days ==> ChecksAYear(c) == 365.0 / c.interval as real
    ensures c.unit == Cadence.Years ==> ChecksAYear(c) == 1.0 / c.interval as real
    ensures c.unit == Cadence.Weeks && |c.weekdays| <= 1 ==> ChecksAYear(c) == 52.0 / c.interval as real
    ensures c.unit == Cadence.Weeks && |c.weekdays| > 1 ==>
              ChecksAYear(c) == (52 * |c.weekdays|) as real / c.interval as real
    ensures c.unit == Cadence.Months && (c.monthlyDays.None? || |c.monthlyDays.value| <= 1) ==>
              ChecksAYear(c) == 12.0 / c.interval as real
    ensures c.unit == Cadence.Months && c.monthlyDays.Some? && |c.monthlyDays.value| > 1 ==>
              ChecksAYear(c) == (12 * |c.monthlyDays.value|) as real / c.interval as real
  {
  }

  /** A salaried check: what a year's checks divide the salary into, less the part of the
      hours counted that is unpaid. */
  lemma SalaryKept(rate: real, byTheMonth: bool, c: Cadence.Cadence, periodHours: int, days: map<int, DayHours>,
                   period: Period, unpaid: Hours, scheduled: Hours, perCheck: real, counted: int)
    requires Cadence.WellFormed(c) && AreUnpaid(unpaid, days) && AreScheduled(scheduled, days)
    requires perCheck == Yearly(rate, byTheMonth) / ChecksAYear(c)
    requires counted == if periodHours == 0 then Sum(scheduled, period.start, period.end) else periodHours
    ensures
      var (lost, gross) := (Sum(unpaid, period.start, period.end),
                            GrossOf(Salary(rate, byTheMonth), c, periodHours, days, period));
      && (counted <= 0 ==> gross == RoundHalfUp(perCheck))
      && (counted > 0 && lost >= counted ==> gross == 0)
      && (counted > 0 && lost < counted ==> gross == RoundHalfUp(OutOf(perCheck, counted - lost, counted)))
  {
    SameSum(UnpaidHours(days), unpaid, period.start, period.end);
    SameSum(ScheduledHours(days), scheduled, period.start, period.end);
    KeptIs(perCheck, Sum(unpaid, period.start, period.end), periodHours, Sum(scheduled, period.start, period.end),
           counted);
  }

  /** So many hours out of so many, of a figure. */
  function OutOf(figure: real, hours: int, counted: int): real
    requires counted > 0
  {
    figure * Fraction(hours, counted)
  }

  function Fraction(hours: int, counted: int): real
    requires counted > 0
  {
    hours as real / counted as real
  }

  lemma PartIs(lost: int, periodHours: int, scheduled: int, counted: int)
    requires counted == if periodHours == 0 then scheduled else periodHours
    ensures 0 < counted && lost < counted ==>
      PartKept(lost, periodHours, scheduled) == Fraction(counted - lost, counted)
    ensures counted <= 0 ==> PartKept(lost, periodHours, scheduled) == 1.0
    ensures 0 < counted <= lost ==> PartKept(lost, periodHours, scheduled) == 0.0
  {
    if 0 < counted {
      RestOf(lost, counted);
    }
  }

  lemma KeptIs(perCheck: real, lost: int, periodHours: int, scheduled: int, counted: int)
    requires counted == if periodHours == 0 then scheduled else periodHours
    ensures
      var check := SalaryCheck(perCheck, PartKept(lost, periodHours, scheduled));
      && (counted <= 0 ==> check == RoundHalfUp(perCheck))
      && (counted > 0 && lost >= counted ==> check == 0)
      && (counted > 0 && lost < counted ==> check == RoundHalfUp(OutOf(perCheck, counted - lost, counted)))
  {
    PartIs(lost, periodHours, scheduled, counted);
    var part := PartKept(lost, periodHours, scheduled);
    assert part == 1.0 ==> perCheck * part == perCheck;
    assert part == 0.0 ==> perCheck * part == 0.0;
  }

  lemma RestOf(lost: int, counted: int)
    requires counted > 0
    ensures 1.0 - lost as real / counted as real == (counted - lost) as real / counted as real
  {
    assert (counted - lost) as real == counted as real - lost as real;
    Split(counted as real, lost as real);
  }

  lemma Split(counted: real, lost: real)
    requires counted > 0.0
    ensures (counted - lost) / counted == 1.0 - lost / counted
  {
    var whole, part := (counted - lost) / counted, lost / counted;
    assert whole * counted == counted - lost;
    assert (1.0 - part) * counted == counted - part * counted;
    Cancel(whole, 1.0 - part, counted);
  }

  lemma Cancel(one: real, two: real, factor: real)
    requires factor > 0.0 && one * factor == two * factor
    ensures one == two
  {
    assert (one - two) * factor == 0.0;
  }

  /** The gross of the first n checks of a run. */
  function GrossTotal(rate: real, days: map<int, DayHours>, paidHolidays: bool, overtime: bool, periods: seq<Period>,
                      weekEnd: DayOfWeek, n: nat): int
    requires n <= |periods|
  {
    if n == 0 then 0
    else
      GrossTotal(rate, days, paidHolidays, overtime, periods, weekEnd, n - 1)
      + Gross(rate, days, paidHolidays, overtime, periods[n - 1], weekEnd)
  }

  lemma {:induction false} SumSplits(hours: Hours, first: int, middle: int, last: int)
    requires first <= middle + 1 && middle <= last
    ensures Sum(hours, first, last) == Sum(hours, first, middle) + Sum(hours, middle + 1, last)
    decreases last - middle
  {
    if middle < last {
      SumSplits(hours, first, middle, last - 1);
    }
  }

  /** What a stretch of days earns, however it is cut into periods. */
  function Earnings(rate: real, days: map<int, DayHours>, paidHolidays: bool, overtime: bool, weekEnd: DayOfWeek,
                    first: int, last: int): real
  {
    Pay(rate, Sum(PaidHours(days, paidHolidays), first, last),
        if overtime then Overtime(WorkedHours(days), weekEnd, first, last) else 0)
  }

  lemma EarningsSplit(rate: real, days: map<int, DayHours>, paidHolidays: bool, overtime: bool, weekEnd: DayOfWeek,
                      first: int, middle: int, last: int)
    requires first <= middle + 1 && middle <= last
    ensures Earnings(rate, days, paidHolidays, overtime, weekEnd, first, last)
         == Earnings(rate, days, paidHolidays, overtime, weekEnd, first, middle)
            + Earnings(rate, days, paidHolidays, overtime, weekEnd, middle + 1, last)
  {
    var paid, worked := PaidHours(days, paidHolidays), WorkedHours(days);
    SumSplits(paid, first, middle, last);
    OvertimeSplits(worked, weekEnd, first, middle, last);
    PayAdds(rate, Sum(paid, first, middle), if overtime then Overtime(worked, weekEnd, first, middle) else 0,
            Sum(paid, middle + 1, last), if overtime then Overtime(worked, weekEnd, middle + 1, last) else 0);
  }

  /** The checks of a run come to what the whole run earns, straight time and
      half-premium counted once for each workweek, to half a cent a check. */
  lemma {:induction false} GrossNearEarnings(rate: real, days: map<int, DayHours>, paidHolidays: bool, overtime: bool,
                                             periods: seq<Period>, weekEnd: DayOfWeek, n: nat)
    requires Tiling(periods) && 0 < n <= |periods|
    ensures
      var gap := GrossTotal(rate, days, paidHolidays, overtime, periods, weekEnd, n) as real
                 - Earnings(rate, days, paidHolidays, overtime, weekEnd, periods[0].start, periods[n - 1].end);
      -0.5 * n as real <= gap <= 0.5 * n as real
    ensures periods[0].start <= periods[n - 1].end + 1
  {
    var last := periods[n - 1];
    OneCheck(rate, days, paidHolidays, overtime, last, weekEnd);
    if n > 1 {
      GrossNearEarnings(rate, days, paidHolidays, overtime, periods, weekEnd, n - 1);
      assert periods[(n - 2) + 1].start == periods[n - 2].end + 1;
      EarningsSplit(rate, days, paidHolidays, overtime, weekEnd, periods[0].start, periods[n - 2].end, last.end);
    } else {
      assert GrossTotal(rate, days, paidHolidays, overtime, periods, weekEnd, 0) == 0;
    }
  }

  lemma OneCheck(rate: real, days: map<int, DayHours>, paidHolidays: bool, overtime: bool, period: Period,
                 weekEnd: DayOfWeek)
    ensures -0.5 <= Gross(rate, days, paidHolidays, overtime, period, weekEnd) as real
                    - Earnings(rate, days, paidHolidays, overtime, weekEnd, period.start, period.end) <= 0.5
  {
  }
}
