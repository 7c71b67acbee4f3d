/** pay_forecast.py and loaf_forecast.py, the phase of a cadence: for which
    cadences _pay_date_before finds the very date the series has before another;
    which dates the windows of paychecks miss; and overtime over a window. */
module PayPhase {
  import opened Wrappers
  import opened Sorting
  import opened Calendar
  import opened Arithmetic
  import opened Cadence
  import opened PayPeriods
  import Paychecks

  /** _pay_date_before finds the date before, for every date of a list but its first. */
  ghost predicate PhaseKept(c: Cadence, nominals: seq<int>)
    requires WellFormed(c)
  {
    forall k :: 0 < k < |nominals| ==> PayDateBefore(c, nominals[k]) == nominals[k - 1]
  }

  // --------------------------------------- what _pay_date_before comes to

  lemma {:induction false} UpToHas(days: seq<int>, end: int, d: int)
    ensures d in UpTo(days, end) <==> d in days && d <= end
  {
    if days != [] {
      var n := |days| - 1;
      assert days == days[..n] + [days[n]];
      UpToHas(days[..n], end, d);
    }
  }

  lemma {:induction false} LastUpTo(days: seq<int>, end: int, p: int)
    requires Ordered(days, LessEq) && p in days && p <= end
    requires forall k :: 0 <= k < |days| && days[k] <= end ==> days[k] <= p
    ensures UpTo(days, end) != [] && UpTo(days, end)[|UpTo(days, end)| - 1] == p
  {
    var upTo := UpTo(days, end);
    UpToKeepsOrder(days, end);
    UpToHas(days, end, p);
    var k :| 0 <= k < |upTo| && upTo[k] == p;
    assert k == |upTo| - 1 || LessEq(days[k], days[|upTo| - 1]);
  }

  lemma {:induction false} OccurrencesUpTo(c: Cadence, start: int, end: int, p: int)
    requires WellFormed(c) && p < end && Occurs(c, start, p)
    requires forall x :: p < x < end ==> !Occurs(c, start, x)
    ensures
      var dates := OccurrenceDates(c, start, end);
      Ordered(dates, LessEq) && p in dates && forall k :: 0 <= k < |dates| && dates[k] <= end - 1 ==> dates[k] <= p
  {
    var dates := OccurrenceDates(c, start, end);
    LessEqIsTotal();
    SortOrders(Raw(c, start, end), LessEq);
    GeneratesTheSeries(c, start, end, p);
    forall k | 0 <= k < |dates| && dates[k] <= end - 1 ensures dates[k] <= p {
      assert dates[k] in dates;
      GeneratesTheSeries(c, start, end, dates[k]);
    }
  }

  /** _pay_date_before is the last day before a date of the series begun one
      cadence back, when that series has one. */
  lemma {:induction false} PayDateBeforeIs(c: Cadence, when: int, back: int, p: int)
    requires WellFormed(c) && back == OnePeriodBack(c, when) && p < when && Occurs(c, back, p)
    requires forall x :: p < x < when ==> !Occurs(c, back, x)
    ensures PayDateBefore(c, when) == p
  {
    OccurrencesUpTo(c, back, when, p);
    LastPayDateUpTo(c, when, OccurrenceDates(c, back, when), p);
  }

  lemma {:induction false} LastPayDateUpTo(c: Cadence, when: int, dates: seq<int>, p: int)
    requires WellFormed(c) && dates == OccurrenceDates(c, OnePeriodBack(c, when), when)
    requires Ordered(dates, LessEq) && p in dates && p < when
    requires forall k :: 0 <= k < |dates| && dates[k] <= when - 1 ==> dates[k] <= p
    ensures PayDateBefore(c, when) == p
  {
    LastUpTo(dates, when - 1, p);
    LastOfThose(c, when, UpTo(dates, when - 1));
  }

  lemma LastOfThose(c: Cadence, when: int, earlier: seq<int>)
    requires WellFormed(c) && earlier == UpTo(OccurrenceDates(c, OnePeriodBack(c, when), when), when - 1)
    requires earlier != []
    ensures PayDateBefore(c, when) == earlier[|earlier| - 1]
  {
  }

  lemma ConsecutiveNominals(c: Cadence, anchor: int, a: int, e: int, k: nat, x: int)
    requires WellFormed(c) && 0 < k < |Nominals(c, anchor, a, e)|
    ensures
      var all, g := Nominals(c, anchor, a, e), GenerateFrom(c, anchor, a - MARGIN);
      && all[k - 1] < all[k] && Occurs(c, g, all[k - 1]) && Occurs(c, g, all[k])
      && (all[k - 1] < x < all[k] ==> !Occurs(c, g, x))
  {
    var all := Nominals(c, anchor, a, e);
    assert all[k - 1] in all && all[k] in all;
    NominalsAre(c, anchor, a, e, all[k - 1]);
    NominalsAre(c, anchor, a, e, all[k]);
    NominalsAre(c, anchor, a, e, x);
    NothingBetween(all, k, x);
  }

  lemma NothingBetween(days: seq<int>, k: nat, x: int)
    requires Ascending(days) && 0 < k < |days|
    ensures x in days ==> !(days[k - 1] < x < days[k])
  {
    if x in days {
      var i :| 0 <= i < |days| && days[i] == x;
      assert i < k - 1 ==> days[i] < days[k - 1];
      assert k < i ==> days[k] < days[i];
    }
  }

  lemma {:induction false} PayDateBeforeFallsBack(c: Cadence, when: int)
    requires WellFormed(c)
    requires forall x :: OnePeriodBack(c, when) <= x < when ==> !Occurs(c, OnePeriodBack(c, when), x)
    ensures PayDateBefore(c, when) == OnePeriodBack(c, when)
  {
    var dates := OccurrenceDates(c, OnePeriodBack(c, when), when);
    var earlier := UpTo(dates, when - 1);
    if earlier != [] {
      UpToHas(dates, when - 1, earlier[0]);
      GeneratesTheSeries(c, OnePeriodBack(c, when), when, earlier[0]);
    }
  }

  lemma PayDateBeforeFinds(c: Cadence, when: int)
    requires WellFormed(c)
    ensures PayDateBefore(c, when) == OnePeriodBack(c, when)
            || Occurs(c, OnePeriodBack(c, when), PayDateBefore(c, when))
  {
    var dates := OccurrenceDates(c, OnePeriodBack(c, when), when);
    var earlier := UpTo(dates, when - 1);
    if earlier != [] {
      UpToHas(dates, when - 1, earlier[|earlier| - 1]);
      GeneratesTheSeries(c, OnePeriodBack(c, when), when, earlier[|earlier| - 1]);
    }
  }

  /** Two dates of a series with none between them. */
  ghost predicate Next(c: Cadence, g: int, p: int, d: int)
    requires WellFormed(c)
  {
    p < d && Occurs(c, g, p) && Occurs(c, g, d) && forall x :: p < x < d ==> !Occurs(c, g, x)
  }

  lemma NominalsAreNext(c: Cadence, anchor: int, a: int, e: int, k: nat)
    requires WellFormed(c) && 0 < k < |Nominals(c, anchor, a, e)|
    ensures
      var all := Nominals(c, anchor, a, e);
      Next(c, GenerateFrom(c, anchor, a - MARGIN), all[k - 1], all[k])
  {
    var all, g := Nominals(c, anchor, a, e), GenerateFrom(c, anchor, a - MARGIN);
    ConsecutiveNominals(c, anchor, a, e, k, 0);
    forall x | all[k - 1] < x < all[k] ensures !Occurs(c, g, x) {
      ConsecutiveNominals(c, anchor, a, e, k, x);
    }
  }

  /** The date before is found once the stepped-back day is in phase and not past it. */
  lemma FoundInPhase(c: Cadence, g: int, p: int, d: int)
    requires WellFormed(c) && Next(c, g, p, d)
    requires SamePhase(c, OnePeriodBack(c, d), g) && OnePeriodBack(c, d) <= p
    ensures PayDateBefore(c, d) == p
  {
    var back := OnePeriodBack(c, d);
    PhaseDecidesTheSeries(c, back, g, p);
    forall x | p < x < d ensures !Occurs(c, back, x) {
      PhaseDecidesTheSeries(c, back, g, x);
    }
    PayDateBeforeIs(c, d, back, p);
  }

  // ------------------------------------------------------------- every n days

  lemma DaysKeep(c: Cadence, g: int, p: int, d: int)
    requires WellFormed(c) && c.unit == Days && Next(c, g, p, d)
    ensures PayDateBefore(c, d) == p
  {
    var back, n := OnePeriodBack(c, d), (d - g) / c.interval;
    assert d == g + n * c.interval;
    assert back == g + (n - 1) * c.interval by {
      assert n * c.interval == (n - 1) * c.interval + c.interval;
    }
    if back >= g {
      ShiftOnce(back - g, c.interval);
      assert Occurs(c, g, back);
    }
    assert Position(c, back) == Position(c, g) + (n - 1) * PeriodLength(c);
    FoundInPhase(c, g, p, d);
  }

  // ----------------------------------------------------------- every n weeks

  lemma OffTheGrid(x: int, more: nat, n: int)
    requires n >= 1 && x % n == 0 && more < n
    ensures (x + more) % n == more
  {
    DivisionUnique(x + more, n, x / n, more);
  }

  lemma SameWeekdayWeeksApart(p: int, d: int, start: int) returns (weeks: int)
    requires Weekday(p) == Weekday(d)
    ensures d == p + 7 * weeks && (d - start) / 7 == (p - start) / 7 + weeks
  {
    weeks := (d - p) / 7;
  }

  /** On one weekday, a date and the next of its series are one cadence apart. */
  lemma OneCadenceApart(c: Cadence, start: int, p: int, d: int)
    requires WellFormed(c) && c.unit == Weeks && OneWeekday(c)
    requires Occurs(c, start, p) && Occurs(c, start, d) && p < d
    ensures p <= OnePeriodBack(c, d)
  {
    var weeks := SameWeekdayWeeksApart(p, d, start);
    if weeks < c.interval {
      OffTheGrid((p - start) / 7, weeks, c.interval);
    }
  }

  lemma OneCadenceBackOccurs(c: Cadence, start: int, d: int)
    requires WellFormed(c) && c.unit == Weeks && Occurs(c, start, d) && start <= OnePeriodBack(c, d)
    ensures Occurs(c, start, OnePeriodBack(c, d)) && Occurs(c, OnePeriodBack(c, d), OnePeriodBack(c, d))
  {
    var back := OnePeriodBack(c, d);
    assert (back - start) / 7 == (d - start) / 7 - c.interval;
    ShiftByMultiple((back - start) / 7, 1, c.interval);
    assert 0 % c.interval == 0 by {
      DivisionUnique(0, c.interval, 0, 0);
    }
  }

  /** Every listed weekday is the same one. */
  predicate OneWeekday(c: Cadence) {
    forall i, j :: 0 <= i < |c.weekdays| && 0 <= j < |c.weekdays| ==> c.weekdays[i] == c.weekdays[j]
  }

  lemma OneWeekdayKeeps(c: Cadence, g: int, p: int, d: int)
    requires WellFormed(c) && c.unit == Weeks && OneWeekday(c) && Next(c, g, p, d)
    ensures PayDateBefore(c, d) == p
  {
    OneCadenceApart(c, g, p, d);
    OneCadenceBackOccurs(c, g, d);
    assert p == OnePeriodBack(c, d);
    forall x | p < x < d ensures !Occurs(c, p, x) {
      if Occurs(c, p, x) {
        OneCadenceApart(c, p, p, x);
      }
    }
    PayDateBeforeIs(c, d, p, p);
  }

  /** With an interval of one week, the weekday alone decides. */
  lemma EveryWeek(c: Cadence, start: int, d: int)
    requires WellFormed(c) && c.interval == 1 && c.unit == Weeks
    ensures Occurs(c, start, d) <==> d >= start && OnWeekday(c, d)
  {
  }

  lemma EveryWeekBack(c: Cadence, g: int, d: int)
    requires WellFormed(c) && c.interval == 1 && c.unit == Weeks && Occurs(c, g, d) && OnePeriodBack(c, d) >= g
    ensures Occurs(c, g, OnePeriodBack(c, d))
  {
    EveryWeek(c, g, d);
    EveryWeek(c, g, OnePeriodBack(c, d));
    assert Weekday(OnePeriodBack(c, d)) == Weekday(d);
  }

  lemma EveryWeekAlike(c: Cadence, one: int, two: int, d: int)
    requires WellFormed(c) && c.interval == 1 && c.unit == Weeks && one <= d && two <= d
    ensures Occurs(c, one, d) <==> Occurs(c, two, d)
  {
    EveryWeek(c, one, d);
    EveryWeek(c, two, d);
  }

  lemma EveryWeekKeeps(c: Cadence, g: int, p: int, d: int)
    requires WellFormed(c) && c.interval == 1 && c.unit == Weeks && Next(c, g, p, d)
    ensures PayDateBefore(c, d) == p
  {
    var back := OnePeriodBack(c, d);
    if back >= g {
      EveryWeekBack(c, g, d);
    }
    EveryWeekAlike(c, g, back, p);
    forall x | p < x < d ensures !Occurs(c, back, x) {
      EveryWeekAlike(c, g, back, x);
    }
    PayDateBeforeIs(c, d, back, p);
  }

  /** Every other week or less often, the later of two dates in one seven days of
      the series is never traced back to the earlier one. */
  lemma TwoInOneWeek(c: Cadence, d: int, p: int)
    requires WellFormed(c) && c.unit == Weeks && c.interval >= 2 && p < d < p + 7
    ensures PayDateBefore(c, d) < p
  {
    var back := OnePeriodBack(c, d);
    PayDateBeforeFinds(c, d);
    var x := PayDateBefore(c, d);
    if x >= p {
      assert 0 < (x - back) / 7 < c.interval;
      DivisionUnique((x - back) / 7, c.interval, 0, (x - back) / 7);
    }
  }

  lemma InTheFirstWeek(c: Cadence, start: int, i: nat)
    requires WellFormed(c) && c.unit == Weeks && i < |c.weekdays|
    ensures Occurs(c, start, WeekDate(start, c.weekdays[i]))
  {
    var d := WeekDate(start, c.weekdays[i]);
    assert (d - start) / 7 == 0;
    GridStep(0, 0, c.interval);
    assert OnWeekday(c, d);
  }

  lemma TwoWeekdaysDiffer(c: Cadence, start: int) returns (p: int, d: int)
    requires WellFormed(c) && c.unit == Weeks && !OneWeekday(c)
    ensures p < d < start + 7 && Occurs(c, start, p) && Occurs(c, start, d)
  {
    var i, j :| 0 <= i < |c.weekdays| && 0 <= j < |c.weekdays| && c.weekdays[i] != c.weekdays[j];
    InTheFirstWeek(c, start, i);
    InTheFirstWeek(c, start, j);
    p, d := WeekDate(start, c.weekdays[i]), WeekDate(start, c.weekdays[j]);
    if d < p {
      p, d := d, p;
    }
  }

  /** Where a date is in the list, and that another is before it. */
  lemma PlaceOf(c: Cadence, anchor: int, a: int, e: int, p: int, d: int) returns (k: nat)
    requires WellFormed(c) && p < d && p in Nominals(c, anchor, a, e) && d in Nominals(c, anchor, a, e)
    ensures 0 < k < |Nominals(c, anchor, a, e)|
    ensures Nominals(c, anchor, a, e)[k] == d && p <= Nominals(c, anchor, a, e)[k - 1]
  {
    var all := Nominals(c, anchor, a, e);
    NominalsAre(c, anchor, a, e, 0);
    k :| 0 <= k < |all| && all[k] == d;
    var j :| 0 <= j < |all| && all[j] == p;
    assert j < k;
    assert j < k - 1 ==> all[j] < all[k - 1];
  }

  lemma TwoWeekdaysLoseIt(c: Cadence, anchor: int)
    requires WellFormed(c) && c.unit == Weeks && c.interval >= 2 && !OneWeekday(c)
    ensures !PhaseKept(c, Nominals(c, anchor, anchor + MARGIN, anchor + MARGIN))
  {
    var at := anchor + MARGIN;
    assert GenerateFrom(c, anchor, at - MARGIN) == anchor;
    var p, d := TwoWeekdaysDiffer(c, anchor);
    NominalsAre(c, anchor, at, at, p);
    NominalsAre(c, anchor, at, at, d);
    var k := PlaceOf(c, anchor, at, at, p, d);
    TwoInOneWeek(c, d, p);
  }

  // ------------------------------------------------ every n months, or years

  predicate ByPeriod(c: Cadence) {
    c.unit == Months || c.unit == Years
  }

  /** Whether a month, or a year, has one of the cadence's dates in it. */
  predicate Dated(c: Cadence, at: int) {
    if c.unit == Months then exists i :: 0 <= i < |DaysOfMonth(c)| && MonthDate(at, DaysOfMonth(c)[i]).Some?
    else YearDate(c, at).Some?
  }

  lemma PositionMonotone(c: Cadence, a: int, b: int)
    requires ByPeriod(c) && Position(c, a) < Position(c, b)
    ensures a < b
  {
    if b <= a {
      MonthOfMonotone(b, a);
    }
  }

  /** One of the cadence's days, in a month or year whatever. */
  ghost predicate OnADay(c: Cadence, d: int) {
    if c.unit == Months then OnMonthDay(c, d) else YearDate(c, YearOfDay(d)) == Some(d)
  }

  lemma OccursByPeriod(c: Cadence, g: int, d: int)
    requires WellFormed(c) && ByPeriod(c)
    ensures Occurs(c, g, d)
            <==> d >= g && OnADay(c, d) && OnGrid(Position(c, d), Position(c, g), c.interval)
  {
  }

  lemma OnADayIsDated(c: Cadence, d: int)
    requires ByPeriod(c) && OnADay(c, d)
    ensures Dated(c, Position(c, d))
  {
    if c.unit == Months {
      var day :| day in DaysOfMonth(c) && MonthDate(MonthOf(d), day) == Some(d);
      var i :| 0 <= i < |DaysOfMonth(c)| && DaysOfMonth(c)[i] == day;
    }
  }

  /** No date of its own month or year comes before it. */
  ghost predicate FirstThere(c: Cadence, d: int) {
    forall x :: Position(c, x) == Position(c, d) && OnADay(c, x) ==> d <= x
  }

  /** A month with a date has one no earlier in it than the first date of another. */
  lemma MonthReaches(c: Cadence, at: int, d: int) returns (q: int)
    requires c.unit == Months && FirstThere(c, d) && Dated(c, at)
    ensures MonthOf(q) == at && OnMonthDay(c, q)
    ensures DayOf(q) >= DayOf(d) || DayOf(q) == MonthLength(at)
  {
    var i :| 0 <= i < |DaysOfMonth(c)| && MonthDate(at, DaysOfMonth(c)[i]).Some?;
    var day := DaysOfMonth(c)[i];
    q := MonthDate(at, day).value;
    MonthDateInMonth(at, day);
    assert day in DaysOfMonth(c);
    if day.Day? && day.n <= MonthLength(MonthOf(d)) {
      var x := MonthDate(MonthOf(d), day).value;
      MonthDateInMonth(MonthOf(d), day);
      assert OnADay(c, x) && Position(c, x) == Position(c, d);
    }
  }

  lemma LaterInTheMonth(q: int, back: int)
    requires MonthOf(q) == MonthOf(back) && DayOf(q) >= DayOf(back)
    ensures q >= back
  {
  }

  lemma MonthReachesBack(c: Cadence, d: int) returns (q: int)
    requires WellFormed(c) && c.unit == Months && FirstThere(c, d) && Dated(c, MonthOf(d) - c.interval)
    ensures MonthOf(q) == MonthOf(d) - c.interval && OnMonthDay(c, q) && q >= OnePeriodBack(c, d)
  {
    q := MonthReaches(c, MonthOf(d) - c.interval, d);
    LaterInTheMonth(q, AddMonths(d, -c.interval));
  }

  lemma YearReachesBack(c: Cadence, d: int) returns (q: int)
    requires WellFormed(c) && c.unit == Years && YearDate(c, YearOfDay(d)) == Some(d)
    requires Dated(c, YearOfDay(d) - c.interval)
    ensures YearOfDay(q) == YearOfDay(d) - c.interval && YearDate(c, YearOfDay(q)) == Some(q)
    ensures q >= OnePeriodBack(c, d)
  {
    var year := YearOfDay(d) - c.interval;
    q := YearDate(c, year).value;
    YearDateInYear(c, year);
    SameDayEachYear(c, YearOfDay(d), d);
    SameDayEachYear(c, year, q);
    LaterInTheMonth(q, AddMonths(d, -12 * c.interval));
  }

  /** The day one period back from a first date is not past the last date there. */
  lemma PeriodReaches(c: Cadence, d: int) returns (q: int)
    requires WellFormed(c) && ByPeriod(c) && OnADay(c, d) && FirstThere(c, d) && Dated(c, Position(c, d) - c.interval)
    ensures Position(c, q) == Position(c, d) - c.interval && OnADay(c, q) && q >= OnePeriodBack(c, d)
  {
    if c.unit == Months {
      q := MonthReachesBack(c, d);
    } else {
      q := YearReachesBack(c, d);
    }
  }

  /** The month and the day of it that a yearly cadence names. */
  function YearlyMonth(c: Cadence): int {
    if c.yearly.Some? then c.yearly.value.0 - 1 else 0
  }

  function YearlyDay(c: Cadence): int {
    if c.yearly.Some? then c.yearly.value.1 else 1
  }

  lemma SameDayEachYear(c: Cadence, year: int, d: int)
    requires YearDate(c, year) == Some(d)
    ensures MonthOf(d) == 12 * (year - 1) + YearlyMonth(c) && DayOf(d) == YearlyDay(c)
  {
    if c.yearly.None? {
      MonthOfUnique(YearStart(year), 12 * (year - 1));
    }
  }

  lemma GridBack(x: int, first: int, n: int)
    requires n >= 1 && OnGrid(x, first, n)
    ensures OnGrid(x - n, first, n) <==> x - n >= first
    ensures x - n == first + ((x - first) / n - 1) * n
  {
    ShiftOnce(x - n - first, n);
    assert ((x - first) / n - 1) * n == (x - first) / n * n - n;
  }

  lemma SteppedBackInPhase(c: Cadence, g: int, d: int)
    requires WellFormed(c) && ByPeriod(c) && Occurs(c, g, d)
    ensures SamePhase(c, OnePeriodBack(c, d), g)
  {
    OccursByPeriod(c, g, d);
    OnePeriodBackKeepsPhase(c, d);
    GridBack(Position(c, d), Position(c, g), c.interval);
    var periods := (Position(c, d) - Position(c, g)) / c.interval - 1;
    assert Position(c, OnePeriodBack(c, d)) == Position(c, g) + periods * PeriodLength(c);
  }

  lemma FirstOfItsPeriod(c: Cadence, g: int, p: int, d: int)
    requires WellFormed(c) && ByPeriod(c) && Next(c, g, p, d) && Position(c, p) < Position(c, d)
    ensures FirstThere(c, d)
  {
    OccursByPeriod(c, g, p);
    OccursByPeriod(c, g, d);
    forall x | Position(c, x) == Position(c, d) && OnADay(c, x) ensures d <= x {
      PositionMonotone(c, p, x);
      OccursByPeriod(c, g, x);
    }
  }

  /** Where the period before has a date, the date before is found. */
  lemma DatedKeeps(c: Cadence, g: int, p: int, d: int)
    requires WellFormed(c) && ByPeriod(c) && Next(c, g, p, d) && Dated(c, Position(c, d) - c.interval)
    ensures PayDateBefore(c, d) == p
  {
    var back := OnePeriodBack(c, d);
    OnePeriodBackKeepsPhase(c, d);
    SteppedBackInPhase(c, g, d);
    OccursByPeriod(c, g, p);
    OccursByPeriod(c, g, d);
    if Position(c, p) >= Position(c, d) {
      PositionMonotone(c, back, p);
    } else {
      FirstOfItsPeriod(c, g, p, d);
      var q := PeriodReaches(c, d);
      PositionMonotone(c, q, d);
      ReachedFirst(c, g, p, d, q);
    }
    FoundInPhase(c, g, p, d);
  }

  lemma OccursBack(c: Cadence, g: int, d: int, q: int)
    requires WellFormed(c) && ByPeriod(c) && Occurs(c, g, d) && q >= g
    requires Position(c, q) == Position(c, d) - c.interval && OnADay(c, q)
    ensures Occurs(c, g, q)
  {
    OccursByPeriod(c, g, d);
    OccursByPeriod(c, g, q);
    if Position(c, q) < Position(c, g) {
      PositionMonotone(c, q, g);
    }
    GridBack(Position(c, d), Position(c, g), c.interval);
  }

  lemma ReachedFirst(c: Cadence, g: int, p: int, d: int, q: int)
    requires WellFormed(c) && ByPeriod(c) && Next(c, g, p, d) && q < d
    requires Position(c, q) == Position(c, d) - c.interval && OnADay(c, q)
    ensures q <= p
  {
    OccursByPeriod(c, g, p);
    if q >= g {
      OccursBack(c, g, d, q);
    }
  }

  lemma WithinOneStep(x: int, first: int, n: int)
    requires n >= 1 && OnGrid(x, first, n) && x <= first + n
    ensures x == first || x == first + n
  {
    if first < x < first + n {
      DivisionUnique(x - first, n, 0, x - first);
    }
  }

  lemma NoneOneBack(c: Cadence, d: int, x: int)
    requires WellFormed(c) && ByPeriod(c) && FirstThere(c, d)
    requires !Dated(c, Position(c, d) - c.interval) && x < d
    ensures !Occurs(c, OnePeriodBack(c, d), x)
  {
    var back := OnePeriodBack(c, d);
    OnePeriodBackKeepsPhase(c, d);
    OccursByPeriod(c, back, x);
    if Occurs(c, back, x) {
      if Position(c, d) < Position(c, x) {
        PositionMonotone(c, d, x);
      }
      WithinOneStep(Position(c, x), Position(c, back), c.interval);
      OnADayIsDated(c, x);
    }
  }

  lemma FallsBackUndated(c: Cadence, d: int)
    requires WellFormed(c) && ByPeriod(c) && FirstThere(c, d) && !Dated(c, Position(c, d) - c.interval)
    ensures PayDateBefore(c, d) == OnePeriodBack(c, d)
  {
    forall x | OnePeriodBack(c, d) <= x < d ensures !Occurs(c, OnePeriodBack(c, d), x) {
      NoneOneBack(c, d, x);
    }
    PayDateBeforeFallsBack(c, d);
  }

  /** A date in an earlier period, and none in the period just before. */
  ghost predicate Gap(c: Cadence, p: int, d: int) {
    Position(c, p) < Position(c, d) && !Dated(c, Position(c, d) - c.interval)
  }

  /** Where it has none, and there is an earlier date all the same, that one is missed. */
  lemma UndatedLoses(c: Cadence, g: int, p: int, d: int)
    requires WellFormed(c) && ByPeriod(c) && Next(c, g, p, d) && Gap(c, p, d)
    ensures PayDateBefore(c, d) != p
  {
    FirstOfItsPeriod(c, g, p, d);
    FallsBackUndated(c, d);
    NextIsDated(c, g, p, d);
    UndatedBack(c, d);
    DatedIsNot(c, p, OnePeriodBack(c, d));
  }

  lemma UndatedBack(c: Cadence, d: int)
    requires WellFormed(c) && ByPeriod(c) && !Dated(c, Position(c, d) - c.interval)
    ensures !Dated(c, Position(c, OnePeriodBack(c, d)))
  {
    OnePeriodBackKeepsPhase(c, d);
    assert Position(c, OnePeriodBack(c, d)) == Position(c, d) - c.interval;
  }

  lemma NextIsDated(c: Cadence, g: int, p: int, d: int)
    requires WellFormed(c) && ByPeriod(c) && Next(c, g, p, d)
    ensures Dated(c, Position(c, p))
  {
    OccursByPeriod(c, g, p);
    OnADayIsDated(c, p);
  }

  lemma DatedIsNot(c: Cadence, p: int, back: int)
    requires Dated(c, Position(c, p)) && !Dated(c, Position(c, back))
    ensures p != back
  {
  }

  // ------------------------------------------- which months, or years, it is

  /** The months, or years, a cadence steps onto from its anchor, either way. */
  function Stepped(c: Cadence, anchor: int, k: int): int {
    Position(c, anchor) + k * c.interval
  }

  function DatedSteps(c: Cadence, anchor: int): int -> bool {
    k => Dated(c, Stepped(c, anchor, k))
  }

  /** Over one round of the calendar. */
  predicate Always(dated: int -> bool) {
    forall k :: 0 <= k < CALENDAR_ROUND ==> dated(k)
  }

  predicate Never(dated: int -> bool) {
    forall k :: 0 <= k < CALENDAR_ROUND ==> !dated(k)
  }

  function RoundsOn(k: int, rounds: int): int {
    k + CALENDAR_ROUND * rounds
  }

  ghost predicate Repeats(dated: int -> bool) {
    forall k, rounds :: dated(RoundsOn(k, rounds)) == dated(k)
  }

  lemma MonthDateRepeats(month: int, rounds: int, day: MonthDay)
    ensures MonthDate(RoundsOn(month, rounds), day).Some? == MonthDate(month, day).Some?
  {
    MonthLengthRepeats(month, rounds);
  }

  lemma DatedRepeats(c: Cadence, at: int, rounds: int)
    requires ByPeriod(c)
    ensures Dated(c, RoundsOn(at, rounds)) == Dated(c, at)
  {
    if c.unit == Months {
      forall i | 0 <= i < |DaysOfMonth(c)|
        ensures MonthDate(RoundsOn(at, rounds), DaysOfMonth(c)[i]).Some? == MonthDate(at, DaysOfMonth(c)[i]).Some?
      {
        MonthDateRepeats(at, rounds, DaysOfMonth(c)[i]);
      }
    } else if c.yearly.Some? {
      var (m, d) := c.yearly.value;
      MonthDateRepeats(12 * (at - 1) + m - 1, 12 * rounds, Day(d));
      assert 12 * (RoundsOn(at, rounds) - 1) + m - 1 == RoundsOn(12 * (at - 1) + m - 1, 12 * rounds);
    }
  }

  lemma StepsRepeat(c: Cadence, anchor: int)
    requires WellFormed(c) && ByPeriod(c)
    ensures Repeats(DatedSteps(c, anchor))
  {
    forall k, rounds ensures DatedSteps(c, anchor)(RoundsOn(k, rounds)) == DatedSteps(c, anchor)(k) {
      DatedRepeats(c, Stepped(c, anchor, k), rounds * c.interval);
      SteppedOn(c, anchor, k, rounds);
    }
  }

  lemma SteppedOn(c: Cadence, anchor: int, k: int, rounds: int)
    ensures Stepped(c, anchor, RoundsOn(k, rounds)) == RoundsOn(Stepped(c, anchor, k), rounds * c.interval)
  {
    assert (k + CALENDAR_ROUND * rounds) * c.interval == k * c.interval + CALENDAR_ROUND * (rounds * c.interval);
  }

  lemma AlwaysEver(dated: int -> bool, k: int)
    requires Repeats(dated)
    ensures Always(dated) ==> dated(k)
    ensures Never(dated) ==> !dated(k)
  {
    assert RoundsOn(k % CALENDAR_ROUND, k / CALENDAR_ROUND) == k;
  }

  /** A pattern that neither always holds nor never does comes back after a gap. */
  lemma ComesBack(dated: int -> bool) returns (u: int, v: int)
    requires Repeats(dated) && !Always(dated) && !Never(dated)
    ensures 1 <= u < v - 1 && dated(u) && !dated(v - 1) && dated(v)
  {
    var i :| 0 <= i < CALENDAR_ROUND && dated(i);
    var j :| 0 <= j < CALENDAR_ROUND && !dated(j);
    u := RoundsOn(i, 1);
    var top := RoundsOn(i, 3);
    v := RoundsOn(j, 2);
    while !dated(v)
      invariant u < v <= top && dated(top)
      invariant !dated(v) || (u < v - 1 && !dated(v - 1))
      decreases top - v
    {
      v := v + 1;
    }
  }

  // ------------------------------------------------------ when phase is kept

  /** The cadences whose phase is kept: every so many days; every week, or on one
      weekday; by the month or the year, with a date in every one stepped onto. */
  predicate KeepsPhase(c: Cadence, anchor: int) {
    match c.unit
    case Days => true
    case Weeks => c.interval == 1 || OneWeekday(c)
    case _ => Always(DatedSteps(c, anchor)) || Never(DatedSteps(c, anchor))
  }

  /** The step a date of the series is on. */
  lemma OnAStep(c: Cadence, anchor: int, start: int, d: int) returns (k: int)
    requires WellFormed(c) && ByPeriod(c) && Occurs(c, GenerateFrom(c, anchor, start), d)
    ensures Position(c, d) == Stepped(c, anchor, k) && Position(c, d) - c.interval == Stepped(c, anchor, k - 1)
  {
    var g := GenerateFrom(c, anchor, start);
    OccursByPeriod(c, g, d);
    var back := WalkBackKeepsPhase(c, anchor, start, MAX_PERIODS_BACK);
    k := StepAt(Position(c, d), Position(c, g), Position(c, anchor), back, c.interval);
  }

  lemma StepAt(at: int, first: int, anchored: int, back: int, n: int) returns (k: int)
    requires n >= 1 && OnGrid(at, first, n) && first == anchored - back * n
    ensures at == anchored + k * n && at - n == anchored + (k - 1) * n
  {
    var on := (at - first) / n;
    k := on - back;
    assert on * n == at - first;
    assert k * n == on * n - back * n;
    assert (k - 1) * n == k * n - n;
  }

  lemma StepBeforeDated(c: Cadence, anchor: int, k: int)
    requires WellFormed(c) && ByPeriod(c) && KeepsPhase(c, anchor) && Dated(c, Stepped(c, anchor, k))
    ensures Dated(c, Stepped(c, anchor, k - 1))
  {
    var dated := DatedSteps(c, anchor);
    StepsRepeat(c, anchor);
    AlwaysEver(dated, k);
    AlwaysEver(dated, k - 1);
    assert dated(k);
  }

  lemma PeriodBeforeDated(c: Cadence, anchor: int, start: int, d: int)
    requires WellFormed(c) && ByPeriod(c) && KeepsPhase(c, anchor) && Occurs(c, GenerateFrom(c, anchor, start), d)
    ensures Dated(c, Position(c, d) - c.interval)
  {
    var k := OnAStep(c, anchor, start, d);
    OccursByPeriod(c, GenerateFrom(c, anchor, start), d);
    OnADayIsDated(c, d);
    StepBeforeDated(c, anchor, k);
  }

  lemma PeriodsKeep(c: Cadence, anchor: int, start: int, p: int, d: int)
    requires WellFormed(c) && ByPeriod(c) && KeepsPhase(c, anchor) && Next(c, GenerateFrom(c, anchor, start), p, d)
    ensures PayDateBefore(c, d) == p
  {
    PeriodBeforeDated(c, anchor, start, d);
    DatedKeeps(c, GenerateFrom(c, anchor, start), p, d);
  }

  lemma NextIsKept(c: Cadence, anchor: int, start: int, p: int, d: int)
    requires WellFormed(c) && KeepsPhase(c, anchor) && Next(c, GenerateFrom(c, anchor, start), p, d)
    ensures PayDateBefore(c, d) == p
  {
    var g := GenerateFrom(c, anchor, start);
    match c.unit {
      case Days => DaysKeep(c, g, p, d);
      case Weeks =>
        if c.interval == 1 {
          EveryWeekKeeps(c, g, p, d);
        } else {
          OneWeekdayKeeps(c, g, p, d);
        }
      case _ => PeriodsKeep(c, anchor, start, p, d);
    }
  }

  lemma PhaseIsKept(c: Cadence, anchor: int, a: int, e: int)
    requires WellFormed(c) && KeepsPhase(c, anchor)
    ensures PhaseKept(c, Nominals(c, anchor, a, e))
  {
    var all := Nominals(c, anchor, a, e);
    forall k | 0 < k < |all| ensures PayDateBefore(c, all[k]) == all[k - 1] {
      NominalsAreNext(c, anchor, a, e, k);
      NextIsKept(c, anchor, a - MARGIN, all[k - 1], all[k]);
    }
  }

  lemma SteppedAdds(c: Cadence, anchor: int, k: int, more: int)
    ensures Stepped(c, anchor, k + more) == Stepped(c, anchor, k) + more * c.interval
  {
    Distribute(k, more, c.interval);
  }

  lemma StepsInOrder(c: Cadence, anchor: int, u: int, v: int)
    requires WellFormed(c)
    ensures u < v <==> Stepped(c, anchor, u) < Stepped(c, anchor, v)
  {
    if u < v {
      TimesMonotone(u + 1, v, c.interval);
      Distribute(u, 1, c.interval);
    } else {
      TimesMonotone(v, u, c.interval);
    }
  }

  /** A date on a step, in the series begun on an earlier one. */
  lemma DateOn(c: Cadence, anchor: int, from: int, at: int, k: int) returns (d: int)
    requires WellFormed(c) && ByPeriod(c) && Position(c, from) == Stepped(c, anchor, at) && at < k
    requires DatedSteps(c, anchor)(k)
    ensures Position(c, d) == Stepped(c, anchor, k) && OnADay(c, d) && Occurs(c, from, d)
  {
    var here := Stepped(c, anchor, k);
    if c.unit == Months {
      var i :| 0 <= i < |DaysOfMonth(c)| && MonthDate(here, DaysOfMonth(c)[i]).Some?;
      d := MonthDate(here, DaysOfMonth(c)[i]).value;
      MonthDateInMonth(here, DaysOfMonth(c)[i]);
    } else {
      d := YearDate(c, here).value;
      YearDateInYear(c, here);
    }
    StepsInOrder(c, anchor, at, k);
    PositionMonotone(c, from, d);
    StepsOnGrid(c, anchor, at, k);
    OccursByPeriod(c, from, d);
  }

  lemma StepsOnGrid(c: Cadence, anchor: int, at: int, k: int)
    requires WellFormed(c) && at <= k
    ensures OnGrid(Stepped(c, anchor, k), Stepped(c, anchor, at), c.interval)
  {
    SteppedAdds(c, anchor, at, k - at);
    ShiftByMultiple(0, k - at, c.interval);
    DivisionUnique(0, c.interval, 0, 0);
    TimesMonotone(0, k - at, c.interval);
  }

  ghost predicate Rising(positions: seq<int>) {
    forall i, j :: 0 <= i <= j < |positions| ==> positions[i] <= positions[j]
  }

  lemma FirstReached(positions: seq<int>, j: nat, k: nat) returns (first: nat)
    requires Rising(positions) && j < k < |positions| && positions[j] < positions[k]
    ensures j < first <= k && positions[first - 1] < positions[k] == positions[first]
  {
    first := k;
    while positions[first - 1] >= positions[k]
      invariant j < first <= k && positions[first] == positions[k]
      decreases first
    {
      first := first - 1;
    }
  }

  function PositionAt(c: Cadence, days: seq<int>): seq<int> {
    seq(|days|, i requires 0 <= i < |days| => Position(c, days[i]))
  }

  lemma PositionsRise(c: Cadence, days: seq<int>)
    requires ByPeriod(c) && Ascending(days)
    ensures Rising(PositionAt(c, days))
  {
    forall i, j | 0 <= i <= j < |days| ensures PositionAt(c, days)[i] <= PositionAt(c, days)[j] {
      if Position(c, days[j]) < Position(c, days[i]) {
        PositionMonotone(c, days[j], days[i]);
      }
    }
  }

  /** The first listed date of a period, after some date of an earlier one. */
  lemma FirstListed(c: Cadence, all: seq<int>, p: int, d: int) returns (k: nat)
    requires WellFormed(c) && ByPeriod(c) && Ascending(all) && Gap(c, p, d) && p in all && d in all
    ensures 0 < k < |all| && Gap(c, all[k - 1], all[k])
    ensures all[k] <= d && Position(c, all[k]) == Position(c, d)
  {
    PositionMonotone(c, p, d);
    PositionsRise(c, all);
    k := FirstIn(all, PositionAt(c, all), p, d);
    var j :| 0 <= j < |all| && all[j] == d;
    assert PositionAt(c, all)[k] == PositionAt(c, all)[j];
  }

  lemma {:induction false} FirstIn(all: seq<int>, positions: seq<int>, p: int, d: int) returns (k: nat)
    requires Ascending(all) && |positions| == |all| && Rising(positions) && p in all && d in all && p < d
    requires forall i, j :: 0 <= i < |all| && 0 <= j < |all| && all[i] == p && all[j] == d ==>
               positions[i] < positions[j]
    ensures 0 < k < |all| && all[k] <= d
            && forall j :: 0 <= j < |all| && all[j] == d ==> positions[k - 1] < positions[j] == positions[k]
  {
    var i :| 0 <= i < |all| && all[i] == p;
    var j :| 0 <= j < |all| && all[j] == d;
    k := FirstReached(positions, i, j);
    assert forall x :: 0 <= x < |all| && all[x] == d ==> x == j;
  }

  /** A date after a gap, with one listed before the gap, is traced to the gap. */
  lemma LostAfterTheGap(c: Cadence, anchor: int, e: int, p: int, d: int)
    requires WellFormed(c) && ByPeriod(c) && Occurs(c, anchor, p) && Occurs(c, anchor, d) && p <= e && d <= e
    requires Gap(c, p, d)
    ensures !PhaseKept(c, Nominals(c, anchor, anchor + MARGIN, e))
  {
    var at := anchor + MARGIN;
    assert GenerateFrom(c, anchor, at - MARGIN) == anchor;
    NominalsAre(c, anchor, at, e, p);
    NominalsAre(c, anchor, at, e, d);
    var k := FirstListed(c, Nominals(c, anchor, at, e), p, d);
    NominalsAreNext(c, anchor, at, e, k);
    UndatedLoses(c, anchor, Nominals(c, anchor, at, e)[k - 1], Nominals(c, anchor, at, e)[k]);
  }

  lemma BrokenPeriodsLoseIt(c: Cadence, anchor: int) returns (e: int)
    requires WellFormed(c) && ByPeriod(c) && !KeepsPhase(c, anchor)
    ensures !PhaseKept(c, Nominals(c, anchor, anchor + MARGIN, e))
  {
    StepsRepeat(c, anchor);
    var u, v := ComesBack(DatedSteps(c, anchor));
    var p := DateOn(c, anchor, anchor, 0, u);
    var d := DateOn(c, anchor, anchor, 0, v);
    e := if p < d then d else p;
    GapBetween(c, anchor, u, v, p, d);
    LostAfterTheGap(c, anchor, e, p, d);
  }

  lemma GapBetween(c: Cadence, anchor: int, u: nat, v: nat, p: int, d: int)
    requires WellFormed(c) && u < v && !DatedSteps(c, anchor)(v - 1)
    requires Position(c, p) == Stepped(c, anchor, u) && Position(c, d) == Stepped(c, anchor, v)
    ensures Gap(c, p, d)
  {
    StepsInOrder(c, anchor, u, v);
    SteppedAdds(c, anchor, v, -1);
  }

  /** In every window of an anchor the date before is found exactly for these cadences. */
  lemma {:induction false} PhaseKeptExactly(c: Cadence, anchor: int)
    requires WellFormed(c)
    ensures (forall a, e :: PhaseKept(c, Nominals(c, anchor, a, e))) <==> KeepsPhase(c, anchor)
  {
    if KeepsPhase(c, anchor) {
      forall a, e ensures PhaseKept(c, Nominals(c, anchor, a, e)) {
        PhaseIsKept(c, anchor, a, e);
      }
    } else if c.unit == Weeks {
      TwoWeekdaysLoseIt(c, anchor);
    } else {
      var e := BrokenPeriodsLoseIt(c, anchor);
    }
  }

  /** A month has a date whenever the last day is listed, or a day all months have. */
  lemma {:induction false} EveryMonthDated(c: Cadence, anchor: int)
    requires c.unit == Months
    requires exists i :: 0 <= i < |DaysOfMonth(c)|
                  && match DaysOfMonth(c)[i] case LastDay => true case Day(n) => 1 <= n <= 28
    ensures KeepsPhase(c, anchor)
  {
    var i :| 0 <= i < |DaysOfMonth(c)| && match DaysOfMonth(c)[i] case LastDay => true case Day(n) => 1 <= n <= 28;
    forall k | 0 <= k < CALENDAR_ROUND ensures DatedSteps(c, anchor)(k) {
      assert MonthDate(Stepped(c, anchor, k), DaysOfMonth(c)[i]).Some?;
    }
  }

  /** A year has one unless it is a 29th of February, or no day at all. */
  lemma EveryYearDated(c: Cadence, anchor: int)
    requires c.unit == Years && (c.yearly.None? || 1 <= c.yearly.value.1 <= 28)
    ensures KeepsPhase(c, anchor)
  {
    forall k | 0 <= k < CALENDAR_ROUND
      ensures DatedSteps(c, anchor)(k) <==> c.yearly.None? || 1 <= c.yearly.value.0 <= 12
    {
    }
  }

  // ------------------------------------------------------- past the margin

  /** Every day walked over being shut and the next one open, that is the payday. */
  lemma {:induction false} StepsThrough(rule: Rule, closed: set<int>, when: int, guard: nat, days: nat)
    requires rule != NoShift && days <= guard && !Shut(closed, when + StepOf(rule) * days)
    requires forall i :: 0 <= i < days ==> Shut(closed, when + StepOf(rule) * i)
    ensures Shifted(rule, closed, when, guard) == when + StepOf(rule) * days
    decreases days
  {
    if days > 0 {
      assert Shut(closed, when + StepOf(rule) * 0);
      forall i | 0 <= i < days - 1 ensures Shut(closed, when + StepOf(rule) + StepOf(rule) * i) {
        assert Shut(closed, when + StepOf(rule) * (i + 1));
      }
      StepsThrough(rule, closed, when + StepOf(rule), guard - 1, days - 1);
    }
  }

  ghost predicate Pays(periods: seq<PayPeriod>, nominal: int) {
    exists i :: 0 <= i < |periods| && periods[i].nominal == nominal
  }

  /** What a window lists: the dates it looks at whose money lands in it. */
  lemma {:induction false} LandingPays(nominals: seq<int>, before: int, lag: nat, pay: int -> int, first: int,
                                       last: int, n: nat, d: int)
    requires n <= |nominals|
    ensures Pays(Landing(nominals, before, lag, pay, first, last, n), d)
            <==> d in nominals[..n] && first <= pay(d) <= last
  {
    if n > 0 {
      var front := Landing(nominals, before, lag, pay, first, last, n - 1);
      var all := Landing(nominals, before, lag, pay, first, last, n);
      LandingPays(nominals, before, lag, pay, first, last, n - 1, d);
      assert nominals[..n] == nominals[..n - 1] + [nominals[n - 1]];
      assert forall i :: 0 <= i < |front| ==> all[i] == front[i];
      if nominals[n - 1] == d && first <= pay(d) <= last {
        assert all[|front|].nominal == d;
      }
    }
  }

  lemma PeriodsPay(c: Cadence, anchor: int, lag: nat, rule: Rule, closed: set<int>, first: int, last: int, d: int)
    requires WellFormed(c) && first <= last
    ensures Pays(Periods(c, Some(anchor), lag, rule, closed, first, last), d)
            <==> d in Nominals(c, anchor, first, last) && first <= PaydayFor(rule, closed)(d) <= last
  {
    var nominals := Nominals(c, anchor, first, last);
    assert nominals[..|nominals|] == nominals;
    if |nominals| > 0 {
      LandingPays(nominals, PayDateBefore(c, nominals[0]), lag, PaydayFor(rule, closed), first, last, |nominals|, d);
    }
  }

  /** A check whose payday moved back past the margin is in neither half of a window
      cut on the day it lands, though the whole window has it. */
  lemma LostPastTheMargin(c: Cadence, anchor: int, lag: nat, rule: Rule, closed: set<int>, a: int, b: int,
                          e: int, d: int)
    requires WellFormed(c) && a <= b < e && d in Nominals(c, anchor, a, e)
    requires PaydayFor(rule, closed)(d) == b && d > b + MARGIN
    ensures Pays(Periods(c, Some(anchor), lag, rule, closed, a, e), d)
    ensures !Pays(Periods(c, Some(anchor), lag, rule, closed, a, b), d)
    ensures !Pays(Periods(c, Some(anchor), lag, rule, closed, b + 1, e), d)
  {
    PeriodsPay(c, anchor, lag, rule, closed, a, e, d);
    PeriodsPay(c, anchor, lag, rule, closed, a, b, d);
    PeriodsPay(c, anchor, lag, rule, closed, b + 1, e, d);
    NominalsAre(c, anchor, a, b, d);
  }

  /** Eleven days shut up to a Friday payday, paid every two weeks: the money comes
      on the Monday eleven days before, and cut there no window has the check. */
  lemma {:induction false} ElevenDaysShut(lag: nat, friday: int, closed: set<int>)
    requires Weekday(friday) == 4 && forall x :: x in closed <==> friday - 10 <= x <= friday
    ensures
      var c, b := Cadence(14, Days, [], None, None), friday - 11;
      && PaydayFor(Before, closed)(friday) == b
      && Pays(Periods(c, Some(friday), lag, Before, closed, b, friday), friday)
      && !Pays(Periods(c, Some(friday), lag, Before, closed, b, b), friday)
      && !Pays(Periods(c, Some(friday), lag, Before, closed, b + 1, friday), friday)
  {
    var c, b := Cadence(14, Days, [], None, None), friday - 11;
    StepsThrough(Before, closed, friday, MOST_DAYS_MOVED, 11);
    var g := GenerateFrom(c, friday, b - MARGIN);
    GenerateFromSamePhase(c, friday, b - MARGIN, friday);
    assert GenerateFrom(c, friday, friday) == friday;
    WalkBackBelow(c, friday, b - MARGIN, MAX_PERIODS_BACK);
    PhaseDecidesTheSeries(c, g, friday, friday);
    NominalsAre(c, friday, b, friday, friday);
    LostPastTheMargin(c, friday, lag, Before, closed, b, b, friday, friday);
  }

  // ----------------------------------------------- overtime over a window

  predicate EndsAtNominal(nominals: seq<int>, lag: nat, period: PayPeriod) {
    period.nominal in nominals && period.end == period.nominal - lag
  }

  lemma {:induction false} LandingEnds(nominals: seq<int>, before: int, lag: nat, pay: int -> int, first: int,
                                       last: int, n: nat, i: nat)
    requires n <= |nominals| && i < |Landing(nominals, before, lag, pay, first, last, n)|
    ensures EndsAtNominal(nominals, lag, Landing(nominals, before, lag, pay, first, last, n)[i])
  {
    if n > 0 {
      if i < |Landing(nominals, before, lag, pay, first, last, n - 1)| {
        LandingEnds(nominals, before, lag, pay, first, last, n - 1, i);
      } else {
        assert nominals[n - 1] in nominals;
      }
    }
  }

  lemma PeriodsEnd(c: Cadence, anchor: int, lag: nat, rule: Rule, closed: set<int>, first: int, last: int, i: nat)
    requires WellFormed(c) && first <= last && i < |Periods(c, Some(anchor), lag, rule, closed, first, last)|
    ensures EndsAtNominal(Nominals(c, anchor, first, last), lag,
                          Periods(c, Some(anchor), lag, rule, closed, first, last)[i])
  {
    var nominals := Nominals(c, anchor, first, last);
    LandingEnds(nominals, PayDateBefore(c, nominals[0]), lag, PaydayFor(rule, closed), first, last, |nominals|, i);
  }

  lemma WeekdayBack(d: int, e: int, lag: int)
    requires Weekday(d) == Weekday(e)
    ensures Weekday(d - lag) == Weekday(e - lag)
  {
    var weeks := (d - e) / 7;
    assert d == e + 7 * weeks;
  }

  lemma OneWeekdayEnds(c: Cadence, anchor: int, first: int, last: int, lag: nat, d: int, e: int)
    requires WellFormed(c) && c.unit == Weeks && OneWeekday(c)
    requires d in Nominals(c, anchor, first, last) && e in Nominals(c, anchor, first, last)
    ensures Weekday(d - lag) == Weekday(e - lag)
  {
    NominalsAre(c, anchor, first, last, d);
    NominalsAre(c, anchor, first, last, e);
    OnOneWeekday(c, d, e);
    WeekdayBack(d, e, lag);
  }

  lemma OnOneWeekday(c: Cadence, d: int, e: int)
    requires OneWeekday(c) && OnWeekday(c, d) && OnWeekday(c, e)
    ensures Weekday(d) == Weekday(e)
  {
  }

  lemma EndOnOneWeekday(c: Cadence, anchor: int, first: int, last: int, lag: nat, one: PayPeriod, two: PayPeriod)
    requires WellFormed(c) && c.unit == Weeks && OneWeekday(c)
    requires EndsAtNominal(Nominals(c, anchor, first, last), lag, one)
    requires EndsAtNominal(Nominals(c, anchor, first, last), lag, two)
    ensures Weekday(one.end) == Weekday(two.end)
  {
    OneWeekdayEnds(c, anchor, first, last, lag, one.nominal, two.nominal);
  }

  lemma SpansEndTogether(periods: seq<PayPeriod>, unit: Unit, i: nat, j: nat)
    requires i < |periods| && j < |periods|
    requires unit == Weeks ==> Weekday(periods[i].end) == Weekday(periods[j].end)
    ensures Paychecks.WorkweekEnd(unit, Spans(periods)[i]) == Paychecks.WorkweekEnd(unit, Spans(periods)[j])
  {
  }

  lemma SameWeekEnd(c: Cadence, anchor: int, lag: nat, rule: Rule, closed: set<int>, first: int, last: int, i: nat,
                    j: nat)
    requires WellFormed(c) && first <= last && (c.unit != Weeks || OneWeekday(c))
    requires
      var out := Periods(c, Some(anchor), lag, rule, closed, first, last);
      i < |out| && j < |out|
    ensures
      var spans := Spans(Periods(c, Some(anchor), lag, rule, closed, first, last));
      Paychecks.WorkweekEnd(c.unit, spans[i]) == Paychecks.WorkweekEnd(c.unit, spans[j])
  {
    var out := Periods(c, Some(anchor), lag, rule, closed, first, last);
    if c.unit == Weeks {
      PeriodsEnd(c, anchor, lag, rule, closed, first, last, i);
      PeriodsEnd(c, anchor, lag, rule, closed, first, last, j);
      EndOnOneWeekday(c, anchor, first, last, lag, out[i], out[j]);
    }
    SpansEndTogether(out, c.unit, i, j);
  }

  /** Over any window, on any cadence but several weekdays a week, the checks charge
      each workweek that ends in the days they pay for once. */
  lemma OvertimeOnceOverAWindow(c: Cadence, anchor: int, lag: nat, rule: Rule, closed: set<int>, first: int, last: int,
                                worked: map<int, int>)
    requires WellFormed(c) && first <= last && (c.unit != Weeks || OneWeekday(c))
    ensures
      var spans := Spans(Periods(c, Some(anchor), lag, rule, closed, first, last));
      |spans| > 0 ==>
        Paychecks.OvertimePaid(worked, spans, Paychecks.WeekEnds(c.unit, spans), |spans|)
        == Paychecks.Overtime(worked, Paychecks.WorkweekEnd(c.unit, spans[0]), spans[0].start, spans[|spans| - 1].end)
  {
    var spans := Spans(Periods(c, Some(anchor), lag, rule, closed, first, last));
    PayPeriodsTile(c, Some(anchor), lag, rule, closed, first, last);
    if |spans| > 0 {
      var ends := Paychecks.WeekEnds(c.unit, spans);
      forall i | 0 <= i < |ends| ensures ends[i] == Paychecks.WorkweekEnd(c.unit, spans[0]) {
        SameWeekEnd(c, anchor, lag, rule, closed, first, last, i, 0);
      }
      Paychecks.OncePerWorkweek(worked, spans, Paychecks.WeekEnds(c.unit, spans),
                                Paychecks.WorkweekEnd(c.unit, spans[0]), |spans|);
    }
  }
}
