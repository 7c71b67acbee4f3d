/** pay_forecast.py: the days money cannot arrive on, a job's pay periods with
    them worked out, and when its windows compose. */
module ClosedDays {
  import opened Wrappers
  import opened Calendar
  import opened Cadence
  import opened PayPeriods
  import Cuts
  import Holidays

  /** BANK_HOLIDAY_SLUGS. */
  const BANK_HOLIDAYS: seq<Holidays.Holiday> := [
    Holidays.NewYear, Holidays.Mlk, Holidays.Presidents, Holidays.Memorial, Holidays.Juneteenth,
    Holidays.Independence, Holidays.Labor, Holidays.Columbus, Holidays.Veterans, Holidays.Thanksgiving,
    Holidays.Christmas]

  /** How far beyond a window its closed days are listed. */
  const LOOKED_AROUND := 30

  /** A bank keeps a Sunday holiday on the Monday and leaves a Saturday one alone. */
  function BankDate(h: Holidays.Holiday, year: int): int {
    match Holidays.RuleOf(h)
    case Fixed(month, day) =>
      if 1 <= month <= 12 && 1 <= day <= MonthLength(12 * (year - 1) + month - 1)
      then
        BankObserved(DateOf(12 * (year - 1) + month - 1, day))
      else 0
    case _ => Holidays.HolidayDate(h, year)
  }

  function BankOn(year: int): Holidays.Holiday -> set<int> {
    h => {BankDate(h, year)}
  }

  function BankYear(): int -> set<int> {
    year => Holidays.Collect(BANK_HOLIDAYS, BankOn(year))
  }

  function BankHolidays(first: int, last: int): set<int> {
    if last < first then {}
    else Holidays.SpanDays(BankYear(), YearOfDay(first), Holidays.YearsSpanned(first, last), first, last)
  }

  /** bank_holidays, as it runs. */
  method ListBankHolidays(first: int, last: int) returns (out: set<int>)
    ensures out == BankHolidays(first, last)
  {
    out := {};
    if last < first {
      return;
    }
    out := ListYears(BANK_HOLIDAYS, year => BankOn(year), BankYear(), first, last);
  }

  /** Its loops: year by year across the span, holiday by holiday. */
  method ListYears(items: seq<Holidays.Holiday>, on: int -> Holidays.Holiday -> set<int>,
                   ghost yearDays: int -> set<int>, first: int, last: int)
    returns (out: set<int>)
    requires forall year :: yearDays(year) == Holidays.Collect(items, on(year))
    ensures out == Holidays.SpanDays(yearDays, YearOfDay(first), Holidays.YearsSpanned(first, last), first, last)
  {
    out := {};
    var years, firstYear := Holidays.YearsSpanned(first, last), YearOfDay(first);
    for k := 0 to years
      invariant out == Holidays.SpanDays(yearDays, firstYear, k, first, last)
    {
      out := AddYear(out, items, on(firstYear + k), first, last);
    }
  }

  method AddYear(before: set<int>, items: seq<Holidays.Holiday>, days: Holidays.Holiday -> set<int>, first: int,
                 last: int) returns (out: set<int>)
    ensures out == before + Holidays.Clip(Holidays.Collect(items, days), first, last)
  {
    out := before;
    for j := 0 to |items|
      invariant out == before + Holidays.Clip(Holidays.Collect(items[..j], days), first, last)
    {
      assert items[..j + 1][..j] == items[..j];
      out := out + Holidays.Clip(days(items[j]), first, last);
    }
    assert items[..|items|] == items;
  }

  /** closed_days: the bank's and the job's own. */
  function ClosedDays(named: seq<Holidays.Holiday>, own: seq<Holidays.OwnHoliday>, first: int, last: int): set<int> {
    BankHolidays(first, last) + Holidays.DatesBetween(named, own, first, last)
  }

  /** The bank and the job part exactly on a Saturday: the job takes the Friday off and the bank does not. */
  lemma BankKeepsItsFridays(h: Holidays.Holiday, year: int)
    requires h in BANK_HOLIDAYS
    ensures BankDate(h, year) == Holidays.HolidayDate(h, year) <==> Weekday(BankDate(h, year)) != 5
    ensures Weekday(BankDate(h, year)) == 5 ==> Holidays.HolidayDate(h, year) == BankDate(h, year) - 1
  {
    match Holidays.RuleOf(h) {
      case Fixed(month, day) =>
        var d := FixedDate(h, year);
      case Nth(month, weekday, n) => NotASaturday(h, year);
      case EasterPlus(offset) => assert false;
    }
  }

  lemma NotASaturday(h: Holidays.Holiday, year: int)
    requires Holidays.RuleOf(h).Nth?
    ensures BankDate(h, year) == Holidays.HolidayDate(h, year) && Weekday(BankDate(h, year)) != 5
  {
    var rule := Holidays.RuleOf(h);
    assert rule.weekday != 5;
    Holidays.NthIsTheNth(12 * (year - 1) + rule.month - 1, rule.weekday, rule.n);
  }

  // ------------------------------------ what a span can change of the closed days

  lemma BankStaysInItsYear(h: Holidays.Holiday, year: int)
    requires h in BANK_HOLIDAYS
    ensures YearOfDay(BankDate(h, year)) == year
  {
    match Holidays.RuleOf(h) {
      case Fixed(month, day) => BankFixedStays(h, year);
      case Nth(month, weekday, n) => Holidays.NthHolidayStays(h, year);
      case EasterPlus(offset) => assert false;
    }
  }

  lemma BankFixedStays(h: Holidays.Holiday, year: int)
    requires h in BANK_HOLIDAYS && Holidays.RuleOf(h).Fixed?
    ensures YearOfDay(BankDate(h, year)) == year
  {
    var d := FixedDate(h, year);
    NextDay(d);
    assert MonthOf(d + 1) == MonthOf(d);
  }

  predicate FallsOn(x: int, month: nat, day: nat) {
    MonthOf(x) % 12 + 1 == month && DayOf(x) == day
  }

  function BankObserved(day: int): int {
    if Weekday(day) == 6 then day + 1 else day
  }

  /** The date of a fixed holiday before it is moved. */
  lemma FixedDate(h: Holidays.Holiday, year: int) returns (d: int)
    requires Holidays.RuleOf(h).Fixed?
    ensures FallsOn(d, Holidays.RuleOf(h).month, Holidays.RuleOf(h).day) && YearOfDay(d) == year
    ensures Holidays.HolidayDate(h, year) == Holidays.Observed(d) && BankDate(h, year) == BankObserved(d)
    ensures h != Holidays.NewYearsEve ==> DayOf(d) < MonthLength(MonthOf(d))
  {
    var rule := Holidays.RuleOf(h);
    var m := 12 * (year - 1) + rule.month - 1;
    Holidays.FixedRules(h);
    MonthIndex(year, rule.month);
    d := DateOf(m, rule.day);
  }

  lemma MonthIndex(year: int, month: nat)
    requires 1 <= month <= 12
    ensures
      var m := 12 * (year - 1) + month - 1;
      m % 12 == month - 1 && YearOf(m) == year && MonthLength(m) >= 28 && (month == 12 ==> MonthLength(m) == 31)
  {
  }

  lemma NextDay(x: int)
    ensures (MonthOf(x + 1) == MonthOf(x) && DayOf(x + 1) == DayOf(x) + 1)
         || (MonthOf(x + 1) == MonthOf(x) + 1 && DayOf(x + 1) == 1)
    ensures MonthOf(x + 1) == MonthOf(x) + 1 <==> DayOf(x) == MonthLength(MonthOf(x))
  {
    NextMonthStart(MonthOf(x));
    NextMonthStart(MonthOf(x) + 1);
    Holidays.InThatMonth(x + 1, MonthOf(x));
    Holidays.InThatMonth(x + 1, MonthOf(x) + 1);
  }

  /** A bank's holidays are the same whatever span they are asked for within. */
  lemma BankDayIsItsYears(first: int, last: int, day: int)
    requires first <= last
    ensures day in BankHolidays(first, last) <==> first <= day <= last && day in BankYear()(YearOfDay(day))
  {
    Holidays.SpanHas(BankYear(), YearOfDay(first), Holidays.YearsSpanned(first, last), first, last, day);
    forall y | day in BankYear()(y) ensures y == YearOfDay(day) {
      Holidays.CollectHas(BANK_HOLIDAYS, BankOn(y), day);
      var h :| h in BANK_HOLIDAYS && day in BankOn(y)(h);
      BankStaysInItsYear(h, y);
    }
    if first <= day <= last {
      Holidays.SpanYears(first, last, day);
    }
  }

  /** Six days inside a span, whatever a neighbouring year can put on a day is in it. */
  lemma SpillsInside(named: seq<Holidays.Holiday>, first: int, last: int, day: int)
    requires first + 6 <= day <= last - 6
    ensures Holidays.SpillsOnto(named, first, last, day)
       <==> || Holidays.ReachesDown(named, YearOfDay(day) + 1, day)
            || Holidays.ReachesUp(named, YearOfDay(day) - 1, day)
  {
    if Holidays.ReachesDown(named, YearOfDay(day) + 1, day) {
      ReachesAhead(named, last, day);
    }
    if Holidays.ReachesUp(named, YearOfDay(day) - 1, day) {
      ReachesBehind(named, first, day);
    }
  }

  lemma ReachesAhead(named: seq<Holidays.Holiday>, last: int, day: int)
    requires Holidays.ReachesDown(named, YearOfDay(day) + 1, day) && day <= last - 6
    ensures YearOfDay(day) < YearOfDay(last)
  {
    var year := YearOfDay(day);
    Holidays.NewYearsDay(year + 1);
    YearAt(12 * year);
    MonthOfMonotone(YearStart(year + 1), last);
  }

  lemma ReachesBehind(named: seq<Holidays.Holiday>, first: int, day: int)
    requires Holidays.ReachesUp(named, YearOfDay(day) - 1, day) && first + 6 <= day
    ensures YearOfDay(first) < YearOfDay(day)
  {
    var eve := YearEnd(YearOfDay(day) - 1);
    MonthOfMonotone(first, eve);
  }

  lemma YearAt(month: int)
    ensures MonthOf(MonthStart(month)) == month
  {
    NextMonthStart(month);
    MonthOfUnique(MonthStart(month), month);
  }

  /** The last day of a year, which New Year's Eve is kept within a day of. */
  lemma YearEnd(year: int) returns (eve: int)
    ensures YearOfDay(eve) == year && eve - 1 <= Holidays.HolidayDate(Holidays.NewYearsEve, year) <= eve + 1
  {
    var m := 12 * (year - 1) + 11;
    assert m % 12 == 11;
    eve := DateOf(m, 31);
  }

  /** Two spans agree about every day six days inside them both. */
  lemma ClosedAlike(named: seq<Holidays.Holiday>, own: seq<Holidays.OwnHoliday>, first: int, last: int, from: int,
                    until: int, day: int)
    requires first + 6 <= day <= last - 6 && from + 6 <= day <= until - 6
    ensures day in ClosedDays(named, own, first, last) <==> day in ClosedDays(named, own, from, until)
  {
    BankDayIsItsYears(first, last, day);
    BankDayIsItsYears(from, until, day);
    Holidays.SpanIsYearAndSpill(named, own, first, last, day);
    Holidays.SpanIsYearAndSpill(named, own, from, until, day);
    SpillsInside(named, first, last, day);
    SpillsInside(named, from, until, day);
  }

  // ------------------------------------------------------ a job's pay periods

  /** What a job's paychecks are placed by. */
  datatype Job = Job(cadence: Cadence, anchor: Option<int>, lag: nat, rule: PayPeriods.Rule,
                     named: seq<Holidays.Holiday>, own: seq<Holidays.OwnHoliday>)

  /** The closed days of any span. */
  type Closing = (int, int) -> set<int>

  function ClosedIn(named: seq<Holidays.Holiday>, own: seq<Holidays.OwnHoliday>): Closing {
    (first, last) => ClosedDays(named, own, first, last)
  }

  function PeriodsWith(job: Job, closed: set<int>, first: int, last: int): seq<PayPeriod>
    requires WellFormed(job.cadence)
  {
    Periods(job.cadence, job.anchor, job.lag, job.rule, closed, first, last)
  }

  function PeriodsBy(job: Job, closing: Closing, first: int, last: int): seq<PayPeriod>
    requires WellFormed(job.cadence)
  {
    PeriodsWith(job, closing(first - LOOKED_AROUND, last + LOOKED_AROUND), first, last)
  }

  function JobPeriods(job: Job, first: int, last: int): seq<PayPeriod>
    requires WellFormed(job.cadence)
  {
    PeriodsBy(job, ClosedIn(job.named, job.own), first, last)
  }

  /** pay_periods, closed days and all. */
  method ListJobPeriods(job: Job, first: int, last: int) returns (out: seq<PayPeriod>)
    requires WellFormed(job.cadence)
    ensures out == JobPeriods(job, first, last)
  {
    var bank := ListBankHolidays(first - LOOKED_AROUND, last + LOOKED_AROUND);
    var own := Holidays.ListDatesBetween(Holidays.YearDays(job.named, job.own), first - LOOKED_AROUND,
                                         last + LOOKED_AROUND);
    out := ListPayPeriods(job.cadence, job.anchor, job.lag, job.rule, bank + own, first, last);
  }

  lemma {:induction false} ShiftsAlike(rule: PayPeriods.Rule, one: set<int>, two: set<int>, when: int, guard: nat)
    requires forall k :: 0 <= k < guard ==>
               (Shut(one, when + StepOf(rule) * k) <==> Shut(two, when + StepOf(rule) * k))
    ensures Shifted(rule, one, when, guard) == Shifted(rule, two, when, guard)
    decreases guard
  {
    if rule != NoShift && guard > 0 {
      assert Shut(one, when + StepOf(rule) * 0) <==> Shut(two, when + StepOf(rule) * 0);
      forall k | 0 <= k < guard - 1
        ensures Shut(one, when + StepOf(rule) + StepOf(rule) * k) <==> Shut(two, when + StepOf(rule) + StepOf(rule) * k)
      {
        assert Shut(one, when + StepOf(rule) * (k + 1)) <==> Shut(two, when + StepOf(rule) * (k + 1));
      }
      ShiftsAlike(rule, one, two, when + StepOf(rule), guard - 1);
    }
  }

  /** Two sets that shut the same days, as far as a window's paydays can move. */
  ghost predicate AgreeFor(one: set<int>, two: set<int>, first: int, last: int) {
    forall x :: first - 24 <= x <= last + 24 ==> (x in one <==> x in two)
  }

  /** A payday of a window only looks at days the window's closed days settle. */
  lemma LandsAlike(rule: PayPeriods.Rule, one: set<int>, two: set<int>, first: int, last: int, d: int)
    requires AgreeFor(one, two, first, last) && d <= last + MARGIN
    ensures
      var (p, q) := (PaydayFor(rule, one)(d), PaydayFor(rule, two)(d));
      first <= p <= last || first <= q <= last ==> p == q
  {
    if rule != NoShift {
      MovesOneWay(rule, one, d);
      MovesOneWay(rule, two, d);
      if first - MOST_DAYS_MOVED <= d && (rule == Before ==> first <= d) {
        PaydayAlike(rule, one, two, first, last, d);
      }
    }
  }

  lemma MovesOneWay(rule: PayPeriods.Rule, closed: set<int>, d: int)
    requires rule != NoShift
    ensures rule == Before ==> d - MOST_DAYS_MOVED <= PaydayFor(rule, closed)(d) <= d
    ensures rule == After ==> d <= PaydayFor(rule, closed)(d) <= d + MOST_DAYS_MOVED
  {
    NearestOpenDay(rule, closed, d, MOST_DAYS_MOVED, 0);
  }

  lemma PaydayAlike(rule: PayPeriods.Rule, one: set<int>, two: set<int>, first: int, last: int, d: int)
    requires AgreeFor(one, two, first, last) && rule != NoShift
    requires first - MOST_DAYS_MOVED <= d <= last + MARGIN && (rule == Before ==> first <= d)
    ensures PaydayFor(rule, one)(d) == PaydayFor(rule, two)(d)
  {
    forall k | 0 <= k < MOST_DAYS_MOVED
      ensures Shut(one, d + StepOf(rule) * k) <==> Shut(two, d + StepOf(rule) * k)
    {
      var x := d + StepOf(rule) * k;
      assert x == if rule == Before then d - k else d + k;
      assert x in one <==> x in two;
    }
    ShiftsAlike(rule, one, two, d, MOST_DAYS_MOVED);
  }

  lemma {:induction false} LandingAlike(nominals: seq<int>, before: int, lag: nat, pay: int -> int, other: int -> int,
                                        first: int, last: int, n: nat)
    requires n <= |nominals|
    requires forall k :: 0 <= k < n && (first <= pay(nominals[k]) <= last || first <= other(nominals[k]) <= last) ==>
               pay(nominals[k]) == other(nominals[k])
    ensures Landing(nominals, before, lag, pay, first, last, n) == Landing(nominals, before, lag, other, first, last, n)
  {
    if n > 0 {
      LandingAlike(nominals, before, lag, pay, other, first, last, n - 1);
    }
  }

  /** However far a span is listed, it settles the days six days inside it. */
  ghost predicate Settles(closing: Closing) {
    forall first, last, from, until :: SettlesAlike(closing, first, last, from, until)
  }

  ghost predicate SettlesAlike(closing: Closing, first: int, last: int, from: int, until: int) {
    forall day :: first + 6 <= day <= last - 6 && from + 6 <= day <= until - 6 ==>
                    (day in closing(first, last) <==> day in closing(from, until))
  }

  lemma ClosedSettles(named: seq<Holidays.Holiday>, own: seq<Holidays.OwnHoliday>)
    ensures Settles(ClosedIn(named, own))
  {
    forall first, last, from, until ensures SettlesAlike(ClosedIn(named, own), first, last, from, until) {
      ClosedSettlesAlike(named, own, first, last, from, until);
    }
  }

  lemma ClosedSettlesAlike(named: seq<Holidays.Holiday>, own: seq<Holidays.OwnHoliday>, first: int, last: int,
                           from: int, until: int)
    ensures SettlesAlike(ClosedIn(named, own), first, last, from, until)
  {
    forall day | first + 6 <= day <= last - 6 && from + 6 <= day <= until - 6
      ensures day in ClosedIn(named, own)(first, last) <==> day in ClosedIn(named, own)(from, until)
    {
      ClosedAlike(named, own, first, last, from, until, day);
    }
  }

  /** Within a longer window, a job's closed days may as well be the longer window's. */
  lemma ClosedAsAround(job: Job, closing: Closing, from: int, until: int, first: int, last: int)
    requires WellFormed(job.cadence) && Settles(closing)
    requires from + LOOKED_AROUND <= first <= last <= until - LOOKED_AROUND
    ensures PeriodsBy(job, closing, first, last) == PeriodsWith(job, closing(from, until), first, last)
  {
    assert SettlesAlike(closing, first - LOOKED_AROUND, last + LOOKED_AROUND, from, until);
    PeriodsAlike(job.cadence, job.anchor, job.lag, job.rule, closing(first - LOOKED_AROUND, last + LOOKED_AROUND),
                 closing(from, until), first, last);
  }

  lemma PeriodsAlike(c: Cadence, anchor: Option<int>, lag: nat, rule: PayPeriods.Rule, one: set<int>, two: set<int>,
                     first: int, last: int)
    requires WellFormed(c) && AgreeFor(one, two, first, last)
    ensures Periods(c, anchor, lag, rule, one, first, last) == Periods(c, anchor, lag, rule, two, first, last)
  {
    if anchor.Some? {
      var nominals := Nominals(c, anchor.value, first, last);
      forall k | 0 <= k < |nominals|
        ensures
          var (p, q) := (PaydayFor(rule, one)(nominals[k]), PaydayFor(rule, two)(nominals[k]));
          first <= p <= last || first <= q <= last ==> p == q
      {
        assert nominals[k] in nominals;
        NominalsAre(c, anchor.value, first, last, nominals[k]);
        LandsAlike(rule, one, two, first, last, nominals[k]);
      }
      if |nominals| > 0 {
        LandingAlike(nominals, PayDateBefore(c, nominals[0]), lag, PaydayFor(rule, one), PaydayFor(rule, two),
                     first, last, |nominals|);
      }
    }
  }

  // ---------------------------------------------------- how far a payday moves

  /** Eleven days in a row with no money. */
  ghost predicate ElevenShut(closed: set<int>) {
    exists d :: ShutFor(closed, d)
  }

  ghost predicate ShutFor(closed: set<int>, d: int) {
    forall k :: d <= k <= d + MARGIN ==> Shut(closed, k)
  }

  lemma {:induction false} OpenWithin(rule: PayPeriods.Rule, closed: set<int>, when: int, guard: nat, days: nat)
    requires rule != NoShift && days <= guard && !Shut(closed, when + StepOf(rule) * days)
    ensures -(days as int) <= Shifted(rule, closed, when, guard) - when <= days
    decreases guard
  {
    if days > 0 && Shut(closed, when) {
      OpenWithin(rule, closed, when + StepOf(rule), guard - 1, days - 1);
    }
  }

  /** No payday moves past the margin exactly when eleven days are never shut in a row. */
  lemma NearExactly(rule: PayPeriods.Rule, closed: set<int>)
    ensures StaysNear(PaydayFor(rule, closed)) <==> rule == NoShift || !ElevenShut(closed)
  {
    if rule != NoShift {
      if ElevenShut(closed) {
        var d :| ShutFor(closed, d);
        MovesPast(rule, closed, d);
      } else {
        forall d ensures d - MARGIN <= PaydayFor(rule, closed)(d) <= d + MARGIN {
          var start := if rule == Before then d - MARGIN else d;
          assert !ShutFor(closed, start);
          var x :| start <= x <= start + MARGIN && !Shut(closed, x);
          OpenWithin(rule, closed, d, MOST_DAYS_MOVED, if rule == Before then d - x else x - d);
        }
      }
    }
  }

  lemma MovesPast(rule: PayPeriods.Rule, closed: set<int>, d: int)
    requires rule != NoShift && ShutFor(closed, d)
    ensures !StaysNear(PaydayFor(rule, closed))
  {
    var when := if rule == Before then d + MARGIN else d;
    var paid := PaydayFor(rule, closed)(when);
    NearestOpenDay(rule, closed, when, MOST_DAYS_MOVED, 0);
    assert d <= paid <= d + MARGIN ==> Shut(closed, paid);
  }

  // ------------------------------------- the holidays alone never shut so many

  /** Where a named holiday can be kept, by bank or by job. */
  predicate Plausible(h: Holidays.Holiday, x: int) {
    match Holidays.RuleOf(h)
    case Fixed(month, day) =>
      FallsOn(x, month, day) || (Weekday(x) == 0 && FallsOn(x - 1, month, day)) || Weekday(x) == 4
    case Nth(month, weekday, n) => Weekday(x) == weekday && MonthOf(x) % 12 + 1 == month
    case EasterPlus(offset) => Weekday(x) == 4
  }

  lemma NamedIsPlausible(h: Holidays.Holiday, year: int)
    ensures Plausible(h, Holidays.HolidayDate(h, year))
  {
    match Holidays.RuleOf(h) {
      case Fixed(month, day) => FixedIsPlausible(h, year);
      case Nth(month, weekday, n) => NthIsPlausible(h, year);
      case EasterPlus(offset) => GoodFridayIsAFriday(year);
    }
  }

  lemma GoodFridayIsAFriday(year: int)
    ensures Weekday(Holidays.EasterSunday(year) - 2) == 4
  {
    Holidays.EasterIsASpringSunday(year);
    TwoDaysBefore(Holidays.EasterSunday(year));
  }

  lemma TwoDaysBefore(sunday: int)
    requires Weekday(sunday) == 6
    ensures Weekday(sunday - 2) == 4
  {
  }

  lemma FixedIsPlausible(h: Holidays.Holiday, year: int)
    requires Holidays.RuleOf(h).Fixed?
    ensures Plausible(h, Holidays.HolidayDate(h, year)) && Plausible(h, BankDate(h, year))
  {
    var d := FixedDate(h, year);
    ObservedIs(d);
  }

  lemma {:induction false} ObservedIs(d: int)
    ensures forall x :: x in {Holidays.Observed(d), BankObserved(d)} ==>
              x == d || (x == d + 1 && Weekday(x) == 0) || Weekday(x) == 4
  {
  }

  lemma NthIsPlausible(h: Holidays.Holiday, year: int)
    requires Holidays.RuleOf(h).Nth?
    ensures Plausible(h, Holidays.HolidayDate(h, year))
  {
    var rule := Holidays.RuleOf(h);
    var m := 12 * (year - 1) + rule.month - 1;
    Holidays.NthIsTheNth(m, rule.weekday, rule.n);
    MonthIndex(year, rule.month);
  }

  lemma {:induction false} ClosedIsPlausible(named: seq<Holidays.Holiday>, first: int, last: int, x: int)
    requires first <= last && x in ClosedDays(named, [], first, last)
    ensures exists h :: Plausible(h, x)
  {
    if x in BankHolidays(first, last) {
      BankDayIsItsYears(first, last, x);
      BankIsPlausible(YearOfDay(x), x);
    } else {
      Holidays.SpanHas(Holidays.YearDays(named, []), YearOfDay(first), Holidays.YearsSpanned(first, last), first, last,
                       x);
      var y :| y >= YearOfDay(first) && x in Holidays.YearDays(named, [])(y);
      Holidays.YearDaysHas(named, [], y, x);
      var h :| h in named && x in Holidays.NamedOn(y)(h);
      NamedIsPlausible(h, y);
    }
  }

  lemma {:induction false} BankIsPlausible(year: int, x: int)
    requires x in BankYear()(year)
    ensures exists h :: Plausible(h, x)
  {
    Holidays.CollectHas(BANK_HOLIDAYS, BankOn(year), x);
    var h :| h in BANK_HOLIDAYS && x in BankOn(year)(h);
    if Holidays.RuleOf(h).Fixed? {
      FixedIsPlausible(h, year);
    } else {
      NamedIsPlausible(h, year);
    }
  }

  /** A Tuesday, the Wednesday after it and the Thursday after that are never all shut. */
  lemma OpenMidweek(tuesday: int, one: Holidays.Holiday, two: Holidays.Holiday, three: Holidays.Holiday)
    requires Weekday(tuesday) == 1
    ensures !(Plausible(one, tuesday) && Plausible(two, tuesday + 1) && Plausible(three, tuesday + 2))
  {
    NextDay(tuesday);
    NextDay(tuesday + 1);
  }

  /** No payday is ever moved past eleven days shut in a row. */
  ghost predicate SeldomShut(rule: PayPeriods.Rule, closed: set<int>) {
    rule == NoShift || !ElevenShut(closed)
  }

  /** With no holidays of its own, a job is never shut for eleven days, whichever
      public holidays it keeps. */
  lemma NeverElevenShut(named: seq<Holidays.Holiday>, first: int, last: int)
    requires first <= last
    ensures !ElevenShut(ClosedIn(named, [])(first, last))
  {
    forall x | x in ClosedIn(named, [])(first, last) ensures exists h :: Plausible(h, x) {
      ClosedIsPlausible(named, first, last, x);
    }
    OpenEveryWeek(ClosedIn(named, [])(first, last));
  }

  lemma Midweek(tuesday: int)
    requires Weekday(tuesday) == 1
    ensures Weekday(tuesday + 1) == 2 && Weekday(tuesday + 2) == 3
  {
  }

  lemma {:induction false} OpenEveryWeek(closed: set<int>)
    requires forall x :: x in closed ==> exists h :: Plausible(h, x)
    ensures !ElevenShut(closed)
  {
    forall d ensures !ShutFor(closed, d) {
      if ShutFor(closed, d) {
        var tuesday := d + DaysUntil(d, 1);
        Midweek(tuesday);
        var one := ShutBy(closed, tuesday);
        var two := ShutBy(closed, tuesday + 1);
        var three := ShutBy(closed, tuesday + 2);
        OpenMidweek(tuesday, one, two, three);
      }
    }
  }

  lemma {:induction false} ShutBy(closed: set<int>, x: int) returns (h: Holidays.Holiday)
    requires forall x :: x in closed ==> exists h :: Plausible(h, x)
    requires Weekday(x) < 5 && Shut(closed, x)
    ensures Plausible(h, x)
  {
    h :| Plausible(h, x);
  }

  // --------------------------------------------------------- windows compose

  /** What a job has to know of the days around a window: nothing, if it has no
      holidays of its own. */
  ghost predicate NeverShutSoLong(job: Job, first: int, last: int) {
    job.own == [] || SeldomShut(job.rule, ClosedIn(job.named, job.own)(first, last))
  }

  lemma SeldomShutAround(job: Job, first: int, last: int)
    requires first <= last && NeverShutSoLong(job, first, last)
    ensures SeldomShut(job.rule, ClosedIn(job.named, job.own)(first, last))
  {
    if job.own == [] {
      NeverElevenShut(job.named, first, last);
    }
  }

  /** A job's paychecks over a window are those of its two halves, each half working
      out its own closed days. */
  predicate JobComposes(job: Job, a: int, b: int, e: int)
    requires WellFormed(job.cadence)
  {
    JobPeriods(job, a, e) == JobPeriods(job, a, b) + JobPeriods(job, b + 1, e)
  }

  lemma HalvesOf(job: Job, closing: Closing, first: int, last: int, a: int, b: int, e: int)
    requires WellFormed(job.cadence) && a <= b < e && Settles(closing)
    requires first == a - LOOKED_AROUND && last == e + LOOKED_AROUND
    ensures PeriodsBy(job, closing, a, e) == PeriodsBy(job, closing, a, b) + PeriodsBy(job, closing, b + 1, e)
            <==> Composes(job.cadence, job.anchor, job.lag, job.rule, closing(first, last), a, b, e)
  {
    var closed := closing(first, last);
    ClosedAsAround(job, closing, first, last, a, e);
    ClosedAsAround(job, closing, first, last, a, b);
    ClosedAsAround(job, closing, first, last, b + 1, e);
    Rejoin(PeriodsBy(job, closing, a, e), PeriodsBy(job, closing, a, b), PeriodsBy(job, closing, b + 1, e),
           PeriodsWith(job, closed, a, e), PeriodsWith(job, closed, a, b), PeriodsWith(job, closed, b + 1, e));
  }

  lemma Rejoin<T>(whole: seq<T>, left: seq<T>, right: seq<T>, whole': seq<T>, left': seq<T>, right': seq<T>)
    requires whole == whole' && left == left' && right == right'
    ensures whole == left + right <==> whole' == left' + right'
  {
  }

  lemma HalvesWith(job: Job, closed: set<int>, a: int, b: int, e: int)
    requires WellFormed(job.cadence) && a <= b < e && SeldomShut(job.rule, closed)
    requires job.anchor.Some? ==>
               Cuts.CutsAnywhere(job.cadence, job.anchor.value) || job.anchor.value <= a - MARGIN
    ensures Composes(job.cadence, job.anchor, job.lag, job.rule, closed, a, b, e)
  {
    NearExactly(job.rule, closed);
    Cuts.WindowsCompose(job.cadence, job.anchor, job.lag, job.rule, closed, a, b, e);
  }

  lemma JobComposesBy(job: Job, first: int, last: int, a: int, b: int, e: int)
    requires WellFormed(job.cadence) && a <= b < e && first == a - LOOKED_AROUND && last == e + LOOKED_AROUND
    ensures JobComposes(job, a, b, e)
            <==> Composes(job.cadence, job.anchor, job.lag, job.rule, ClosedIn(job.named, job.own)(first, last),
                          a, b, e)
  {
    ClosedSettles(job.named, job.own);
    HalvesOf(job, ClosedIn(job.named, job.own), first, last, a, b, e);
  }

  /** A job's paychecks over a long window are those of its two halves, each half
      working out its own closed days, listed from `first` to `last` for the whole. */
  lemma JobWindowsCompose(job: Job, first: int, last: int, a: int, b: int, e: int)
    requires WellFormed(job.cadence) && a <= b < e
    requires first == a - LOOKED_AROUND && last == e + LOOKED_AROUND && NeverShutSoLong(job, first, last)
    requires job.anchor.Some? ==>
               Cuts.CutsAnywhere(job.cadence, job.anchor.value) || job.anchor.value <= a - MARGIN
    ensures JobComposes(job, a, b, e)
  {
    SeldomShutAround(job, first, last);
    HalvesWith(job, ClosedIn(job.named, job.own)(first, last), a, b, e);
    JobComposesBy(job, first, last, a, b, e);
  }

  lemma JobBreaks(job: Job, anchor: int, first: int, last: int, a: int, b: int, e: int, p: int, d: int)
    requires WellFormed(job.cadence) && job.anchor == Some(anchor) && Cuts.CutAt(job.cadence, anchor, a, b, e, p, d)
    requires first == a - LOOKED_AROUND && last == e + LOOKED_AROUND && NeverShutSoLong(job, first, last)
    ensures !JobComposes(job, a, b, e)
  {
    SeldomShutAround(job, first, last);
    NearExactly(job.rule, ClosedIn(job.named, job.own)(first, last));
    Cuts.BrokenThere(job.cadence, anchor, job.lag, job.rule, ClosedIn(job.named, job.own)(first, last), a, b, e, p, d);
    JobComposesBy(job, first, last, a, b, e);
  }

  /** A job's windows are their halves wherever they are cut exactly when its cadence
      goes by the week or keeps its phase, or it has no anchor to have one. */
  lemma {:induction false} JobCutsAnywhereExactly(job: Job)
    requires WellFormed(job.cadence) && forall first, last | first <= last :: NeverShutSoLong(job, first, last)
    ensures (forall a, b, e | a <= b < e :: JobComposes(job, a, b, e))
            <==> job.anchor.None? || Cuts.CutsAnywhere(job.cadence, job.anchor.value)
  {
    if job.anchor.None? || Cuts.CutsAnywhere(job.cadence, job.anchor.value) {
      forall a, b, e | a <= b < e ensures JobComposes(job, a, b, e) {
        JobWindowsCompose(job, a - LOOKED_AROUND, e + LOOKED_AROUND, a, b, e);
      }
    } else {
      var a, b, e, p, d := Cuts.BrokenSomewhere(job.cadence, job.anchor.value);
      JobBreaks(job, job.anchor.value, a - LOOKED_AROUND, e + LOOKED_AROUND, a, b, e, p, d);
    }
  }
}
