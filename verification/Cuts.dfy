/** pay_forecast.py's windows of paychecks: for which cadences a window is its two
    halves, one after the other, whichever day it is cut on. */
module Cuts {
  import opened Wrappers
  import opened Sorting
  import opened Calendar
  import opened Arithmetic
  import opened Cadence
  import opened PayPeriods
  import opened PayPhase

  // --------------------------------------------------------- windows compose

  /** What a caller has to know for a window to be cut anywhere. */
  predicate CutsAnywhere(c: Cadence, anchor: int) {
    c.unit == Weeks || KeepsPhase(c, anchor)
  }

  lemma NotInTail(days: seq<int>, k: nat, i: nat)
    requires Ascending(days) && i < |days| && k <= |days|
    ensures days[i] in days[k..] <==> k <= i
  {
    if k <= i {
      assert days[k..][i - k] == days[i];
    }
  }

  lemma WeeksOn(d: int, weeks: int)
    ensures Weekday(d + 7 * weeks) == Weekday(d)
  {
  }

  /** The days of a week of the series, however far from its first. */
  lemma InAWeekOf(c: Cadence, g: int, x: int, weeks: nat, r: int)
    requires WellFormed(c) && c.unit == Weeks && OnWeekday(c, x) && x == g + 7 * (c.interval * weeks) + r && 0 <= r < 7
    ensures Occurs(c, g, x)
  {
    ShiftByMultiple(0, weeks, c.interval);
    DivisionUnique(0, c.interval, 0, 0);
    TimesMonotone(0, weeks, c.interval);
    assert (x - g) / 7 == c.interval * weeks == 0 + weeks * c.interval;
  }

  lemma WeekOf(c: Cadence, g: int, x: int) returns (weeks: nat, r: int)
    requires WellFormed(c) && c.unit == Weeks && Occurs(c, g, x)
    ensures x == g + 7 * (c.interval * weeks) + r && 0 <= r < 7
  {
    weeks, r := (x - g) / 7 / c.interval, (x - g) % 7;
    assert (x - g) / 7 == c.interval * weeks;
  }

  /** Begun a whole number of cadences later, the series is at its first date within the week. */
  lemma FirstWithinTheWeek(c: Cadence, g: int, late: int, m: nat, p: int, d: int)
    requires WellFormed(c) && c.unit == Weeks && late == g + 7 * (c.interval * m)
    requires Next(c, g, p, d) && p < late <= d
    ensures d < late + 7
  {
    var x := WeekDate(late, Weekday(d));
    InAWeekOf(c, g, x, m, x - late);
  }

  lemma BeforeTheWeek(c: Cadence, g: int, late: int, m: nat, p: int)
    requires WellFormed(c) && c.unit == Weeks && late == g + 7 * (c.interval * m) && Occurs(c, g, p) && p < late
    ensures m >= 1 && 7 * (c.interval * (m - 1)) == 7 * (c.interval * m) - 7 * c.interval
    ensures p < late - 7 * c.interval + 7
  {
    var q, r := WeekOf(c, g, p);
    if m <= q {
      TimesMonotone(m, q, c.interval);
    }
    TimesMonotone(q, m - 1, c.interval);
  }

  /** The first week of a series begun later is traced to the week before: one week
      in its cadence is looked back on, weekday by weekday. */
  lemma FirstOfAWeekIsTraced(c: Cadence, g: int, late: int, m: nat, p: int, d: int)
    requires WellFormed(c) && c.unit == Weeks && late == g + 7 * (c.interval * m)
    requires Next(c, g, p, d) && p < late <= d
    ensures PayDateBefore(c, d) == p
  {
    var n, back := 7 * c.interval, OnePeriodBack(c, d);
    FirstWithinTheWeek(c, g, late, m, p, d);
    BeforeTheWeek(c, g, late, m, p);
    WeeksOn(d, -c.interval);
    InAWeekOf(c, g, back, m - 1, back - (late - n));
    InAWeekOf(c, back, p, 0, p - back);
    forall x | p < x < d ensures !Occurs(c, back, x) {
      if Occurs(c, back, x) {
        NotInBetween(c, g, late, m, p, d, x);
      }
    }
    PayDateBeforeIs(c, d, back, p);
  }

  lemma OnlyTheFirstWeek(c: Cadence, back: int, x: int)
    requires WellFormed(c) && c.unit == Weeks && Occurs(c, back, x) && x < back + 7 * c.interval
    ensures x < back + 7
  {
    var weeks, r := WeekOf(c, back, x);
    if weeks >= 1 {
      TimesMonotone(1, weeks, c.interval);
    }
  }

  lemma NotInBetween(c: Cadence, g: int, late: int, m: nat, p: int, d: int, x: int)
    requires WellFormed(c) && c.unit == Weeks && late == g + 7 * (c.interval * m)
    requires m >= 1 && 7 * (c.interval * (m - 1)) == 7 * (c.interval * m) - 7 * c.interval
    requires late - 7 * c.interval <= p && late <= d < late + 7
    requires p < x < d && Occurs(c, OnePeriodBack(c, d), x)
    ensures !Next(c, g, p, d)
  {
    OnlyTheFirstWeek(c, OnePeriodBack(c, d), x);
    if x < late - 7 * c.interval + 7 {
      InAWeekOf(c, g, x, m - 1, x - (late - 7 * c.interval));
    } else {
      var y := x + 7 * (c.interval - 1);
      WeeksOn(x, c.interval - 1);
      InAWeekOf(c, g, y, m, y - late);
    }
  }

  /** By the week, the first date of the second window is always traced to the last
      one the second window does not look at. */
  lemma WeeksPickUp(c: Cadence, anchor: int, a: int, b: int, e: int, pay: int -> int)
    requires WellFormed(c) && c.unit == Weeks && a <= b < e
    ensures PicksUp(c, Nominals(c, anchor, a, e), Skipped(c, anchor, a, b, e), pay, b + 1, e)
  {
    var all := Nominals(c, anchor, a, e);
    var k := LaterNominals(c, anchor, a, b, e);
    if 0 < k < |all| {
      EitherSide(c, anchor, a, b, e, k);
      NominalsAreNext(c, anchor, a, e, k);
      var m := WholeCadencesLater(c, anchor, a, b);
      FirstOfAWeekIsTraced(c, GenerateFrom(c, anchor, a - MARGIN), GenerateFrom(c, anchor, b + 1 - MARGIN), m,
                           all[k - 1], all[k]);
    }
  }

  lemma WholeCadencesLater(c: Cadence, anchor: int, a: int, b: int) returns (m: nat)
    requires WellFormed(c) && c.unit == Weeks && a <= b
    ensures GenerateFrom(c, anchor, b + 1 - MARGIN) == GenerateFrom(c, anchor, a - MARGIN) + 7 * (c.interval * m)
  {
    var g, late := GenerateFrom(c, anchor, a - MARGIN), GenerateFrom(c, anchor, b + 1 - MARGIN);
    EarlyBeforeLate(c, anchor, a, b);
    var periods :| Position(c, g) == Position(c, late) + periods * PeriodLength(c);
    WeeksLater(g, late, c.interval, periods);
    m := -periods;
  }

  lemma WeeksLater(g: int, late: int, interval: int, periods: int)
    requires interval >= 1 && g <= late && g == late + periods * (7 * interval)
    ensures periods <= 0 && late == g + 7 * (interval * -periods)
  {
    if periods >= 1 {
      TimesMonotone(1, periods, 7 * interval);
    }
    assert periods * (7 * interval) == -7 * (interval * -periods);
  }

  /** Where a window is cut, the dates of its second half are those from where it begins. */
  lemma EitherSide(c: Cadence, anchor: int, a: int, b: int, e: int, k: nat)
    requires WellFormed(c) && a <= b < e && 0 < k < |Nominals(c, anchor, a, e)|
    requires Nominals(c, anchor, b + 1, e) == Nominals(c, anchor, a, e)[k..]
    ensures Nominals(c, anchor, a, e)[k - 1] < GenerateFrom(c, anchor, b + 1 - MARGIN) <= Nominals(c, anchor, a, e)[k]
  {
    var all := Nominals(c, anchor, a, e);
    NominalsAre(c, anchor, a, e, 0);
    assert all[k - 1] in all && all[k] in all;
    NotInTail(all, k, k - 1);
    NotInTail(all, k, k);
    LaterHas(c, anchor, a, b, e, all[k - 1]);
    LaterHas(c, anchor, a, b, e, all[k]);
  }

  lemma NothingSkipped(c: Cadence, anchor: int, a: int, b: int, e: int)
    requires WellFormed(c) && a <= b && anchor <= a - MARGIN
    ensures Skipped(c, anchor, a, b, e) == 0
  {
    assert GenerateFrom(c, anchor, a - MARGIN) == anchor == GenerateFrom(c, anchor, b + 1 - MARGIN);
  }

  /** The paychecks of a long window are those of its two halves, one after the
      other, whichever day it is cut on: by the week, when the cadence keeps its
      phase, and once its series has begun before either half. */
  lemma WindowsCompose(c: Cadence, anchor: Option<int>, lag: nat, rule: Rule, closed: set<int>, a: int, b: int, e: int)
    requires WellFormed(c) && a <= b < e && StaysNear(PaydayFor(rule, closed))
    requires anchor.Some? ==> CutsAnywhere(c, anchor.value) || anchor.value <= a - MARGIN
    ensures Composes(c, anchor, lag, rule, closed, a, b, e)
  {
    if anchor.Some? {
      WindowsComposeExactly(c, anchor.value, lag, rule, closed, a, b, e);
      if KeepsPhase(c, anchor.value) {
        PhaseIsKept(c, anchor.value, a, e);
      } else if anchor.value <= a - MARGIN {
        NothingSkipped(c, anchor.value, a, b, e);
      } else {
        WeeksPickUp(c, anchor.value, a, b, e, PaydayFor(rule, closed));
      }
    }
  }

  // ----------------------------------------------------- windows that do not

  lemma NotPickedUp(c: Cadence, anchor: int, a: int, b: int, e: int, p: int, d: int, pay: int -> int)
    requires WellFormed(c) && a <= b < d <= e && Next(c, GenerateFrom(c, anchor, a - MARGIN), p, d)
    requires p < GenerateFrom(c, anchor, b + 1 - MARGIN) <= d && PayDateBefore(c, d) != p && b + 1 <= pay(d) <= e
    ensures !PicksUp(c, Nominals(c, anchor, a, e), Skipped(c, anchor, a, b, e), pay, b + 1, e)
  {
    var k := LaterNominals(c, anchor, a, b, e);
    InBoth(c, anchor, a, b, e, p, d);
    CutBetween(c, anchor, a, b, e, p, d, k);
  }

  lemma InBoth(c: Cadence, anchor: int, a: int, b: int, e: int, p: int, d: int)
    requires WellFormed(c) && a <= b < d <= e && Next(c, GenerateFrom(c, anchor, a - MARGIN), p, d)
    requires p < GenerateFrom(c, anchor, b + 1 - MARGIN) <= d
    ensures p in Nominals(c, anchor, a, e) && d in Nominals(c, anchor, b + 1, e) && p !in Nominals(c, anchor, b + 1, e)
  {
    NominalsAre(c, anchor, a, e, d);
    NominalsAre(c, anchor, a, e, p);
    LaterHas(c, anchor, a, b, e, d);
    LaterHas(c, anchor, a, b, e, p);
  }

  /** Cut between two dates, the second of which is not traced to the first. */
  lemma BrokenCut(c: Cadence, anchor: int, lag: nat, rule: Rule, closed: set<int>, a: int, b: int, e: int, p: int,
                  d: int)
    requires WellFormed(c) && a <= b < d <= e && Next(c, GenerateFrom(c, anchor, a - MARGIN), p, d)
    requires p < GenerateFrom(c, anchor, b + 1 - MARGIN) <= d && PayDateBefore(c, d) != p
    requires StaysNear(PaydayFor(rule, closed)) && b + 1 <= PaydayFor(rule, closed)(d) <= e
    ensures !Composes(c, Some(anchor), lag, rule, closed, a, b, e)
  {
    WindowsComposeExactly(c, anchor, lag, rule, closed, a, b, e);
    NotPickedUp(c, anchor, a, b, e, p, d, PaydayFor(rule, closed));
  }

  lemma CutBetween(c: Cadence, anchor: int, a: int, b: int, e: int, p: int, d: int, k: nat)
    requires WellFormed(c) && a <= b < e && Next(c, GenerateFrom(c, anchor, a - MARGIN), p, d)
    requires k <= |Nominals(c, anchor, a, e)| && Nominals(c, anchor, b + 1, e) == Nominals(c, anchor, a, e)[k..]
    requires p in Nominals(c, anchor, a, e) && d in Nominals(c, anchor, b + 1, e)
    requires p !in Nominals(c, anchor, b + 1, e)
    ensures 0 < k < |Nominals(c, anchor, a, e)|
    ensures Nominals(c, anchor, a, e)[k - 1] == p && Nominals(c, anchor, a, e)[k] == d
  {
    var all := Nominals(c, anchor, a, e);
    NominalsAre(c, anchor, a, e, 0);
    forall i | 0 <= i < |all| ensures !(p < all[i] < d) {
      OccursAt(c, anchor, a, e, i);
    }
    CutIndex(all, k, p, d);
  }

  lemma {:induction false} CutIndex(all: seq<int>, k: nat, p: int, d: int)
    requires Ascending(all) && k <= |all| && p in all && p !in all[k..] && d in all[k..] && p < d
    requires forall i :: 0 <= i < |all| ==> !(p < all[i] < d)
    ensures 0 < k < |all| && all[k - 1] == p && all[k] == d
  {
    var i :| 0 <= i < |all| && all[i] == p;
    var j :| 0 <= j < |all| - k && all[k..][j] == d;
    NotInTail(all, k, i);
    assert all[k + j] == d && i < k;
    assert all[i] < all[i + 1];
    assert !(p < all[i + 1] < d);
  }

  lemma OccursAt(c: Cadence, anchor: int, a: int, e: int, i: nat)
    requires WellFormed(c)
    ensures
      var all := Nominals(c, anchor, a, e);
      i < |all| ==> Occurs(c, GenerateFrom(c, anchor, a - MARGIN), all[i])
  {
    var all := Nominals(c, anchor, a, e);
    if i < |all| {
      assert all[i] in all;
      NominalsAre(c, anchor, a, e, all[i]);
    }
  }

  // --------------------------------------------- a short month in between

  /** Paid on the 31st by the month. */
  function OnTheThirtyFirst(): Cadence {
    Cadence(1, Months, [], Some([Day(31)]), None)
  }

  lemma ThirtyFirstDated(month: int)
    ensures Dated(OnTheThirtyFirst(), month) <==> MonthLength(month) == 31
  {
    assert DaysOfMonth(OnTheThirtyFirst())[0] == Day(31);
  }

  lemma ThirtyFirstOccurs(g: int, d: int)
    ensures Occurs(OnTheThirtyFirst(), g, d) <==> d >= g && DayOf(d) == 31
  {
    assert DaysOfMonth(OnTheThirtyFirst())[0] == Day(31);
    if d >= g {
      MonthOfMonotone(g, d);
    }
    if DayOf(d) == 31 {
      assert Day(31) in DaysOfMonth(OnTheThirtyFirst()) && MonthDate(MonthOf(d), Day(31)) == Some(d);
    }
  }

  lemma WalkBackStops(c: Cadence, when: int, start: int, periods: nat)
    requires WellFormed(c)
    ensures when <= start ==> WalkBack(c, when, start, periods) == when
    ensures when > start && periods > 0
            ==> WalkBack(c, when, start, periods) == WalkBack(c, OnePeriodBack(c, when), start, periods - 1)
  {
  }

  lemma MonthBack(day: int)
    ensures
      var back := OnePeriodBack(OnTheThirtyFirst(), day);
      MonthOf(back) == MonthOf(day) - 1 && DayOf(back) <= DayOf(day)
      && (DayOf(back) == DayOf(day) || DayOf(back) == MonthLength(MonthOf(back)))
  {
  }

  /** A 31st of January, the end of February and the 31st of March. */
  ghost predicate Winter(p: int, february: int, d: int) {
    && MonthOf(p) % 12 == 0 && DayOf(p) == 31 && DayOf(d) == 31
    && MonthOf(february) == MonthOf(p) + 1 && MonthOf(d) == MonthOf(p) + 2
    && DayOf(february) == MonthLength(MonthOf(february))
  }

  lemma WinterMonths(january: int)
    requires january % 12 == 0
    ensures 28 <= MonthLength(january + 1) <= 29
    ensures MonthStart(january + 1) == MonthStart(january) + 31
    ensures MonthStart(january + 2) == MonthStart(january + 1) + MonthLength(january + 1)
  {
    NextMonthStart(january);
    NextMonthStart(january + 1);
  }

  lemma SameDayOfMonth(one: int, two: int)
    requires MonthOf(one) == MonthOf(two) && DayOf(one) == DayOf(two)
    ensures one == two
  {
  }

  lemma DayFrom(day: int, month: int)
    requires MonthOf(day) == month
    ensures day == MonthStart(month) + DayOf(day) - 1
  {
  }

  lemma WinterDays(p: int, february: int, d: int)
    requires Winter(p, february, d)
    ensures p + 28 <= february <= p + 29 && d == february + 31
    ensures OnePeriodBack(OnTheThirtyFirst(), d) == february
    ensures 28 <= MonthLength(MonthOf(february)) <= 29
  {
    var january := MonthOf(p);
    WinterMonths(january);
    DayFrom(p, january);
    DayFrom(february, january + 1);
    DayFrom(d, january + 2);
    MonthBack(d);
    SameDayOfMonth(OnePeriodBack(OnTheThirtyFirst(), d), february);
  }

  lemma WinterStarts(p: int, february: int, d: int)
    requires Winter(p, february, d)
    ensures GenerateFrom(OnTheThirtyFirst(), d, february) == february
    ensures GenerateFrom(OnTheThirtyFirst(), d, p) <= p
    ensures MonthOf(GenerateFrom(OnTheThirtyFirst(), d, p)) == MonthOf(p)
  {
    var c := OnTheThirtyFirst();
    WinterDays(p, february, d);
    WalkBackStops(c, d, february, MAX_PERIODS_BACK);
    WalkBackStops(c, february, february, MAX_PERIODS_BACK - 1);
    WalkBackStops(c, d, p, MAX_PERIODS_BACK);
    WalkBackStops(c, february, p, MAX_PERIODS_BACK - 1);
    var start := OnePeriodBack(c, february);
    MonthBack(february);
    LaterInTheMonth(p, start);
    WalkBackStops(c, start, p, MAX_PERIODS_BACK - 2);
  }

  lemma NoThirtyFirstBetween(g: int, p: int, february: int, d: int)
    requires Winter(p, february, d) && g <= p
    ensures Next(OnTheThirtyFirst(), g, p, d)
  {
    WinterDays(p, february, d);
    ThirtyFirstOccurs(g, p);
    ThirtyFirstOccurs(g, d);
    forall x | p < x < d ensures !Occurs(OnTheThirtyFirst(), g, x) {
      ThirtyFirstOccurs(g, x);
      MonthOfMonotone(p, x);
      MonthOfMonotone(x, d);
      if DayOf(x) == 31 {
        assert MonthOf(x) != MonthOf(p) + 1;
        LaterInTheMonth(x, if MonthOf(x) == MonthOf(p) then p else d);
        LaterInTheMonth(if MonthOf(x) == MonthOf(p) then p else d, x);
      }
    }
  }

  lemma WinterGap(p: int, february: int, d: int)
    requires Winter(p, february, d)
    ensures Gap(OnTheThirtyFirst(), p, d)
  {
    WinterDays(p, february, d);
    ThirtyFirstDated(MonthOf(february));
  }

  /** Paid on the 31st: cut in February's wake, March's check is said to begin at the
      end of February, where the whole window has it begin at the end of January. */
  lemma ShortMonthMisplaces(lag: nat, p: int, february: int, d: int, a: int, b: int)
    requires Winter(p, february, d) && a - MARGIN == p && b + 1 - MARGIN == february
    ensures !Composes(OnTheThirtyFirst(), Some(d), lag, NoShift, {}, a, b, d)
  {
    WinterDays(p, february, d);
    WinterStarts(p, february, d);
    WinterLost(p, february, d);
    BrokenCut(OnTheThirtyFirst(), d, lag, NoShift, {}, a, b, d, p, d);
  }

  lemma WinterLost(p: int, february: int, d: int)
    requires Winter(p, february, d)
    ensures Next(OnTheThirtyFirst(), GenerateFrom(OnTheThirtyFirst(), d, p), p, d)
    ensures PayDateBefore(OnTheThirtyFirst(), d) != p
  {
    var g := GenerateFrom(OnTheThirtyFirst(), d, p);
    WinterStarts(p, february, d);
    NoThirtyFirstBetween(g, p, february, d);
    WinterGap(p, february, d);
    UndatedLoses(OnTheThirtyFirst(), g, p, d);
  }

  // ------------------------------------------ how often a period has a date

  /** Something is so at least once in every `within` steps. */
  ghost predicate EverySo(f: int -> bool, value: bool, within: int) {
    forall k :: Soon(f, value, k, within)
  }

  ghost predicate Soon(f: int -> bool, value: bool, k: int, within: int) {
    exists j :: k <= j < k + within && f(j) == value
  }

  ghost predicate ComesRound(f: int -> bool, round: int) {
    forall k, times :: f(On(k, round, times)) == f(k)
  }

  function On(k: int, round: int, times: int): int {
    k + round * times
  }

  lemma MovedInto(i: int, k: int, round: int) returns (times: int)
    requires round >= 1
    ensures k <= On(i, round, times) < k + round
  {
    times := -((i - k) / round);
    assert i - k == round * ((i - k) / round) + (i - k) % round;
    assert round * times == -(round * ((i - k) / round));
  }

  lemma OnceARound(f: int -> bool, round: int, i: int)
    requires round >= 1 && ComesRound(f, round)
    ensures EverySo(f, f(i), round)
  {
    forall k ensures Soon(f, f(i), k, round) {
      var times := MovedInto(i, k, round);
      assert f(On(i, round, times)) == f(i);
    }
  }

  lemma Sooner(f: int -> bool, value: bool, within: int, longer: int)
    requires EverySo(f, value, within) && within <= longer
    ensures EverySo(f, value, longer)
  {
    forall k ensures Soon(f, value, k, longer) {
      assert Soon(f, value, k, within);
      var j :| k <= j < k + within && f(j) == value;
    }
  }

  /** Months of one length go by the same days. */
  lemma LongerIsDated(c: Cadence, one: int, two: int)
    requires c.unit == Months && MonthLength(one) <= MonthLength(two) && Dated(c, one)
    ensures Dated(c, two)
  {
    var i :| 0 <= i < |DaysOfMonth(c)| && MonthDate(one, DaysOfMonth(c)[i]).Some?;
    assert MonthDate(two, DaysOfMonth(c)[i]).Some?;
  }

  /** So many steps on being whole rounds of the calendar, the pattern repeats. */
  lemma RoundOfSteps(c: Cadence, anchor: int, round: int, calendars: int)
    requires WellFormed(c) && c.unit == Months && round * c.interval == CALENDAR_ROUND * calendars
    ensures ComesRound(DatedSteps(c, anchor), round)
  {
    forall k, times ensures DatedSteps(c, anchor)(On(k, round, times)) == DatedSteps(c, anchor)(k) {
      SteppedAdds(c, anchor, k, round * times);
      assert round * times * c.interval == CALENDAR_ROUND * (calendars * times) by {
        Rearranged(round, times, c.interval);
        Rearranged(CALENDAR_ROUND, times, calendars);
      }
      DatedRepeats(c, Stepped(c, anchor, k), calendars * times);
    }
  }

  lemma Rearranged(a: int, b: int, n: int)
    ensures a * b * n == a * n * b == a * (n * b)
  {
  }

  lemma RoundOfYears(c: Cadence, anchor: int)
    requires WellFormed(c) && c.unit == Years
    ensures ComesRound(DatedSteps(c, anchor), 400)
  {
    forall k, times ensures DatedSteps(c, anchor)(On(k, 400, times)) == DatedSteps(c, anchor)(k) {
      SteppedAdds(c, anchor, k, 400 * times);
      Rearranged(400, times, c.interval);
      YearDatedRepeats(c, Stepped(c, anchor, k), c.interval * times);
    }
  }

  lemma YearDatedRepeats(c: Cadence, year: int, times: int)
    requires c.unit == Years
    ensures Dated(c, year + 400 * times) == Dated(c, year)
  {
    if c.yearly.Some? {
      var (m, d) := c.yearly.value;
      MonthDateRepeats(12 * (year - 1) + m - 1, times, Day(d));
      assert 12 * (year + 400 * times - 1) + m - 1 == RoundsOn(12 * (year - 1) + m - 1, times);
    }
  }

  predicate IsFebruary(month: int) {
    month % 12 == 1
  }

  /** Twelve steps on it is the same month of a year. */
  lemma TwelveStepsOn(c: Cadence, anchor: int, k: int, times: int)
    requires c.unit == Months
    ensures Stepped(c, anchor, On(k, 12, times)) == Stepped(c, anchor, k) + 12 * (times * c.interval)
    ensures Stepped(c, anchor, On(k, 12, times)) % 12 == Stepped(c, anchor, k) % 12
    ensures !IsFebruary(Stepped(c, anchor, k))
            ==> MonthLength(Stepped(c, anchor, On(k, 12, times))) == MonthLength(Stepped(c, anchor, k))
  {
    SteppedAdds(c, anchor, k, 12 * times);
    assert 12 * times * c.interval == 12 * (times * c.interval);
    ShiftByMultiple(Stepped(c, anchor, k), times * c.interval, 12);
  }

  lemma NotTwoFebruaries(c: Cadence, anchor: int, k: int)
    requires c.unit == Months && c.interval % 12 != 0
    ensures !IsFebruary(Stepped(c, anchor, k)) || !IsFebruary(Stepped(c, anchor, k + 1))
  {
    SteppedAdds(c, anchor, k, 1);
    NoMonthTwice(Stepped(c, anchor, k), Stepped(c, anchor, k + 1), c.interval);
  }

  lemma NoMonthTwice(one: int, two: int, more: int)
    requires two == one + more && more % 12 != 0
    ensures !IsFebruary(one) || !IsFebruary(two)
  {
  }

  /** With a date in some period stepped onto, there is one at least every so often. */
  lemma DatedEverySo(c: Cadence, anchor: int, i: int)
    requires WellFormed(c) && ByPeriod(c) && DatedSteps(c, anchor)(i)
    ensures EverySo(DatedSteps(c, anchor), true, 400)
  {
    if c.unit == Years {
      RoundOfYears(c, anchor);
      OnceARound(DatedSteps(c, anchor), 400, i);
    } else if c.interval % 12 == 0 {
      assert 400 * c.interval == CALENDAR_ROUND * (c.interval / 12);
      RoundOfSteps(c, anchor, 400, c.interval / 12);
      OnceARound(DatedSteps(c, anchor), 400, i);
    } else {
      forall k ensures Soon(DatedSteps(c, anchor), true, k, 12) {
        var j := DatedWithinTwelve(c, anchor, i, k);
      }
      Sooner(DatedSteps(c, anchor), true, 12, 400);
    }
  }

  lemma DatedWithinTwelve(c: Cadence, anchor: int, i: int, k: int) returns (j: int)
    requires WellFormed(c) && c.unit == Months && c.interval % 12 != 0 && DatedSteps(c, anchor)(i)
    ensures k <= j < k + 12 && DatedSteps(c, anchor)(j)
  {
    if IsFebruary(Stepped(c, anchor, i)) {
      NotTwoFebruaries(c, anchor, k);
      j := if IsFebruary(Stepped(c, anchor, k)) then k + 1 else k;
    } else {
      var times := MovedInto(i, k, 12);
      TwelveStepsOn(c, anchor, i, times);
      j := On(i, 12, times);
    }
    LongerIsDated(c, Stepped(c, anchor, i), Stepped(c, anchor, j));
  }

  /** Without one in some period stepped onto, that is so at least every so often. */
  lemma UndatedEverySo(c: Cadence, anchor: int, i: int)
    requires WellFormed(c) && ByPeriod(c) && !DatedSteps(c, anchor)(i)
    ensures EverySo(DatedSteps(c, anchor), false, 1200)
  {
    if c.unit == Years {
      RoundOfYears(c, anchor);
      OnceARound(DatedSteps(c, anchor), 400, i);
      Sooner(DatedSteps(c, anchor), false, 400, 1200);
    } else if c.interval % 4 == 0 {
      assert 1200 * c.interval == CALENDAR_ROUND * (c.interval / 4);
      RoundOfSteps(c, anchor, 1200, c.interval / 4);
      OnceARound(DatedSteps(c, anchor), 1200, i);
    } else {
      forall k ensures Soon(DatedSteps(c, anchor), false, k, 24) {
        var j := UndatedWithinTwoYears(c, anchor, i, k);
      }
      Sooner(DatedSteps(c, anchor), false, 24, 1200);
    }
  }

  lemma UndatedWithinTwoYears(c: Cadence, anchor: int, i: int, k: int) returns (j: int)
    requires WellFormed(c) && c.unit == Months && c.interval % 4 != 0 && !DatedSteps(c, anchor)(i)
    ensures k <= j < k + 24 && !DatedSteps(c, anchor)(j)
  {
    var times := MovedInto(i, k, 12);
    j := On(i, 12, times);
    TwelveStepsOn(c, anchor, i, times);
    if MonthLength(Stepped(c, anchor, i)) < MonthLength(Stepped(c, anchor, j)) {
      TwelveStepsOn(c, anchor, j, 1);
      NotTwoLeapYears(Stepped(c, anchor, j), c.interval);
      j := On(j, 12, 1);
    }
    if Dated(c, Stepped(c, anchor, j)) {
      LongerIsDated(c, Stepped(c, anchor, j), Stepped(c, anchor, i));
    }
  }

  lemma NotTwoLeapYears(month: int, years: int)
    requires IsFebruary(month) && MonthLength(month) == 29 && years % 4 != 0
    ensures MonthLength(month + 12 * years) == 28
  {
    ShiftByMultiple(month, years, 12);
    NoLeapYear(YearOf(month), years);
  }

  lemma NoLeapYear(year: int, years: int)
    requires year % 4 == 0 && years % 4 != 0
    ensures (year + years) % 4 != 0
  {
  }

  // ------------------------------------------- a gap the walk back reaches

  /** A step with dates, then a gap, then the step after the gap; the first begun one before. */
  predicate AroundAGap(dated: int -> bool, from: int, u: int, gap: int, v: int) {
    from + 1 == u < gap == v - 1 && dated(u) && !dated(gap) && dated(v)
  }

  /** Stepping back from the anchor there is a gap, and dates on both sides of it. */
  lemma GapBehind(f: int -> bool) returns (from: int, u: int, gap: int, v: int)
    requires EverySo(f, true, 400) && EverySo(f, false, 1200)
    ensures -MAX_PERIODS_BACK <= from && v <= 0 && AroundAGap(f, from, u, gap, v)
  {
    assert Soon(f, false, -1600, 1200);
    gap :| -1600 <= gap < -400 && f(gap) == false;
    assert Soon(f, true, gap, 400) && Soon(f, true, gap - 400, 400);
    var top :| gap <= top < gap + 400 && f(top) == true;
    u :| gap - 400 <= u < gap && f(u) == true;
    from, v := u - 1, gap + 1;
    while !f(v)
      invariant u < gap == v - 1 && v <= top && !f(gap)
      decreases top - v
    {
      gap, v := v, v + 1;
    }
  }

  // ------------------------------------------------ where the walk back stops

  /** The anchor so many periods back, counted as steps are. */
  function BackBy(c: Cadence, when: int, k: int): (r: int)
    requires WellFormed(c) && k <= 0
    ensures r <= when && (k < 0 ==> r < when)
    decreases -k
  {
    if k == 0 then when else BackBy(c, OnePeriodBack(c, when), k + 1)
  }

  lemma {:induction false} WalksBackThere(c: Cadence, when: int, k: int, most: nat)
    requires WellFormed(c) && 0 <= -k <= most
    ensures WalkBack(c, when, BackBy(c, when, k), most) == BackBy(c, when, k)
    decreases most
  {
    if k < 0 {
      WalksBackThere(c, OnePeriodBack(c, when), k + 1, most - 1);
    }
  }

  lemma {:induction false} BackByIs(c: Cadence, when: int, k: int)
    requires WellFormed(c) && ByPeriod(c) && k <= 0
    ensures Position(c, BackBy(c, when, k)) == Stepped(c, when, k)
    decreases -k
  {
    if k < 0 {
      OnePeriodBackKeepsPhase(c, when);
      BackByIs(c, OnePeriodBack(c, when), k + 1);
      Distribute(k, 1, c.interval);
    }
  }

  /** Generation for a window that begins a margin after it begins on the day itself. */
  ghost predicate Begins(c: Cadence, anchor: int, first: int, g: int)
    requires WellFormed(c)
  {
    GenerateFrom(c, anchor, first - MARGIN) == g
  }

  /** Generation begins on any step within reach of the walk back. */
  lemma BeginsOn(c: Cadence, anchor: int, k: int) returns (first: int, g: int)
    requires WellFormed(c) && ByPeriod(c) && -MAX_PERIODS_BACK <= k <= 0
    ensures first == g + MARGIN && Begins(c, anchor, first, g) && OnStep(c, anchor, k, g)
  {
    g := BackBy(c, anchor, k);
    first := g + MARGIN;
    WalksBackThere(c, anchor, k, MAX_PERIODS_BACK);
    BackByIs(c, anchor, k);
  }

  /** A month, or year, without a date when others have one: the dates are at the end
      of the month. */
  lemma LateInTheMonth(c: Cadence, undated: int, d: int)
    requires WellFormed(c) && ByPeriod(c) && !Dated(c, undated) && OnADay(c, d)
    ensures DayOf(d) >= 29
  {
    if c.unit == Months {
      var day :| day in DaysOfMonth(c) && MonthDate(MonthOf(d), day) == Some(d);
      var i :| 0 <= i < |DaysOfMonth(c)| && DaysOfMonth(c)[i] == day;
      assert MonthDate(undated, DaysOfMonth(c)[i]) == None;
    } else {
      SameDayEachYear(c, YearOfDay(d), d);
    }
  }

  lemma WellAfter(c: Cadence, at: int, d: int)
    requires ByPeriod(c) && Position(c, at) < Position(c, d) && DayOf(d) >= 29
    ensures d >= at + 29
  {
    PositionMonotone(c, at, d);
    if MonthOf(at) >= MonthOf(d) {
      MonthOfMonotone(at, d);
    }
    MonthsInOrder(MonthOf(at), MonthOf(d));
  }

  /** Two dates of a series with a later beginning between them, and the second not
      traced to the first. */
  ghost predicate Lost(c: Cadence, g: int, late: int, p: int, d: int)
    requires WellFormed(c)
  {
    Next(c, g, p, d) && p < late <= d && PayDateBefore(c, d) != p
  }

  /** A cut no cadence of months or years survives once its phase is not kept. */
  ghost predicate CutAt(c: Cadence, anchor: int, a: int, b: int, e: int, p: int, d: int)
    requires WellFormed(c)
  {
    && a <= b && b + 1 + MARGIN <= d <= e - MARGIN
    && Lost(c, GenerateFrom(c, anchor, a - MARGIN), GenerateFrom(c, anchor, b + 1 - MARGIN), p, d)
  }

  /** A day in the month, or year, of a step. */
  predicate OnStep(c: Cadence, anchor: int, k: int, d: int) {
    Position(c, d) == Stepped(c, anchor, k)
  }

  lemma CutThere(c: Cadence, anchor: int, from: int, u: int, gap: int, v: int)
    returns (a: int, b: int, e: int, p: int, d: int)
    requires WellFormed(c) && ByPeriod(c) && -MAX_PERIODS_BACK <= from && v <= 0
    requires AroundAGap(DatedSteps(c, anchor), from, u, gap, v)
    ensures CutAt(c, anchor, a, b, e, p, d)
  {
    var first, early := BeginsOn(c, anchor, from);
    var second, late := BeginsOn(c, anchor, gap);
    InStepOrder(c, anchor, from, gap, early, late);
    e, p, d := LostBetween(c, anchor, from, u, gap, v, first, early, late);
    a, b := first, second - 1;
    AsACut(c, anchor, first, second, e, early, late, p, d);
  }

  lemma LostBetween(c: Cadence, anchor: int, from: int, u: int, gap: int, v: int, a: int, early: int, late: int)
    returns (e: int, p: int, d: int)
    requires WellFormed(c) && ByPeriod(c) && Begins(c, anchor, a, early)
    requires AroundAGap(DatedSteps(c, anchor), from, u, gap, v)
    requires OnStep(c, anchor, from, early) && OnStep(c, anchor, gap, late)
    ensures Lost(c, early, late, p, d) && late + 29 <= d <= e - MARGIN
  {
    var p0 := DateOn(c, anchor, early, from, u);
    var d0 := DateOn(c, anchor, early, from, v);
    InStepOrder(c, anchor, u, v, p0, d0);
    e := d0 + MARGIN;
    p, d := GapIn(c, anchor, a, e, early, u, v, p0, d0);
    CutWellAfter(c, anchor, late, v, p, d);
  }

  lemma AsACut(c: Cadence, anchor: int, first: int, second: int, e: int, early: int, late: int, p: int, d: int)
    requires WellFormed(c) && Begins(c, anchor, first, early) && Begins(c, anchor, second, late)
    requires first < second == late + MARGIN && Lost(c, early, late, p, d) && late + 29 <= d <= e - MARGIN
    ensures CutAt(c, anchor, first, second - 1, e, p, d)
  {
    assert second - 1 + 1 - MARGIN == second - MARGIN;
  }

  lemma InStepOrder(c: Cadence, anchor: int, u: int, v: int, one: int, two: int)
    requires WellFormed(c) && ByPeriod(c) && u < v
    requires OnStep(c, anchor, u, one) && OnStep(c, anchor, v, two)
    ensures one < two
  {
    StepsInOrder(c, anchor, u, v);
    PositionMonotone(c, one, two);
  }

  lemma CutWellAfter(c: Cadence, anchor: int, late: int, v: int, p: int, d: int)
    requires WellFormed(c) && ByPeriod(c) && !DatedSteps(c, anchor)(v - 1) && OnADay(c, d)
    requires Position(c, late) == Stepped(c, anchor, v - 1) && Position(c, d) == Stepped(c, anchor, v)
    requires Position(c, p) < Stepped(c, anchor, v - 1)
    ensures p < late && late + 29 <= d
  {
    LateInTheMonth(c, Stepped(c, anchor, v - 1), d);
    StepsInOrder(c, anchor, v - 1, v);
    WellAfter(c, late, d);
    PositionMonotone(c, p, late);
  }

  lemma GapIn(c: Cadence, anchor: int, a: int, e: int, g: int, u: int, v: int, p0: int, d0: int)
    returns (p: int, d: int)
    requires WellFormed(c) && ByPeriod(c) && u < v && !DatedSteps(c, anchor)(v - 1) && Begins(c, anchor, a, g)
    requires Position(c, p0) == Stepped(c, anchor, u) && Position(c, d0) == Stepped(c, anchor, v)
    requires Occurs(c, g, p0) && Occurs(c, g, d0) && p0 <= e && d0 <= e
    ensures Next(c, g, p, d) && PayDateBefore(c, d) != p
    ensures Position(c, p) < Stepped(c, anchor, v - 1) && Position(c, d) == Stepped(c, anchor, v) && d <= d0
    ensures OnADay(c, d)
  {
    var all := Nominals(c, anchor, a, e);
    StepsInOrder(c, anchor, u, v);
    SteppedAdds(c, anchor, v - 1, 1);
    NominalsAre(c, anchor, a, e, p0);
    NominalsAre(c, anchor, a, e, d0);
    var k := FirstListed(c, all, p0, d0);
    p, d := all[k - 1], all[k];
    NominalsAreNext(c, anchor, a, e, k);
    OccursByPeriod(c, g, d);
    UndatedLoses(c, g, p, d);
    BeforeTheGap(c, anchor, a - MARGIN, p, d, v);
  }

  lemma BeforeTheGap(c: Cadence, anchor: int, start: int, p: int, d: int, v: int)
    requires WellFormed(c) && ByPeriod(c) && Next(c, GenerateFrom(c, anchor, start), p, d) && Gap(c, p, d)
    requires Position(c, d) == Stepped(c, anchor, v) && !DatedSteps(c, anchor)(v - 1)
    ensures Position(c, p) < Stepped(c, anchor, v - 1)
  {
    var k := OnAStep(c, anchor, start, p);
    NextIsDated(c, GenerateFrom(c, anchor, start), p, d);
    StepsInOrder(c, anchor, k, v);
    StepsInOrder(c, anchor, k, v - 1);
    assert DatedSteps(c, anchor)(k);
  }

  lemma BrokenSomewhere(c: Cadence, anchor: int) returns (a: int, b: int, e: int, p: int, d: int)
    requires WellFormed(c) && !CutsAnywhere(c, anchor)
    ensures CutAt(c, anchor, a, b, e, p, d)
  {
    var dated := DatedSteps(c, anchor);
    var i :| 0 <= i < CALENDAR_ROUND && dated(i);
    var j :| 0 <= j < CALENDAR_ROUND && !dated(j);
    DatedEverySo(c, anchor, i);
    UndatedEverySo(c, anchor, j);
    var from, u, gap, v := GapBehind(dated);
    a, b, e, p, d := CutThere(c, anchor, from, u, gap, v);
  }

  /** A cadence's windows are their two halves wherever they are cut exactly when it goes
      by the week or keeps its phase: whatever days are closed, and however paydays are
      moved off them. */
  lemma {:induction false} CutsAnywhereExactly(c: Cadence, anchor: int, lag: nat, rule: Rule, closed: set<int>)
    requires WellFormed(c) && StaysNear(PaydayFor(rule, closed))
    ensures (forall a, b, e | a <= b < e :: Composes(c, Some(anchor), lag, rule, closed, a, b, e))
            <==> CutsAnywhere(c, anchor)
  {
    if CutsAnywhere(c, anchor) {
      forall a, b, e | a <= b < e ensures Composes(c, Some(anchor), lag, rule, closed, a, b, e) {
        WindowsCompose(c, Some(anchor), lag, rule, closed, a, b, e);
      }
    } else {
      var a, b, e, p, d := BrokenSomewhere(c, anchor);
      BrokenThere(c, anchor, lag, rule, closed, a, b, e, p, d);
    }
  }

  lemma BrokenThere(c: Cadence, anchor: int, lag: nat, rule: Rule, closed: set<int>, a: int, b: int, e: int, p: int,
                    d: int)
    requires WellFormed(c) && StaysNear(PaydayFor(rule, closed)) && CutAt(c, anchor, a, b, e, p, d)
    ensures !Composes(c, Some(anchor), lag, rule, closed, a, b, e)
  {
    var when := PaydayFor(rule, closed)(d);
    assert d - MARGIN <= when <= d + MARGIN;
    BrokenCut(c, anchor, lag, rule, closed, a, b, e, p, d);
  }
}
