/** auto_balance.py, the balance reminder: when it falls due next, and the claim
    that lets one worker, and only one, raise it. Days are ordinals. */
module Reminder {
  import opened Wrappers
  import opened Calendar
  import opened Cadence
  import Arithmetic

  /** `weekdays` and `monthDays` are None when no list was given; a list may name
      nothing that is recognised. */
  datatype Schedule = Schedule(interval: int, unit: Unit, weekdays: Option<set<DayOfWeek>>,
                               monthDays: Option<set<int>>, lastDay: bool)

  const SCAN_LIMIT := 800

  /** What saving the settings enforces. */
  predicate Clean(s: Schedule) {
    1 <= s.interval <= 365
  }

  // ------------------------------------------------------------- occurrences

  function WeekOf(day: int): int {
    day - Weekday(day)
  }

  predicate WeeksApart(s: Schedule, day: int, anchor: int)
    requires Clean(s)
  {
    ((WeekOf(day) - WeekOf(anchor)) / 7) % s.interval == 0
  }

  predicate MonthsApart(s: Schedule, day: int, anchor: int, step: int)
    requires step >= 1
  {
    (MonthOf(day) - MonthOf(anchor)) % step == 0
  }

  predicate OnListedDay(s: Schedule, day: int) {
    (s.monthDays.Some? && DayOf(day) in s.monthDays.value)
    || (s.lastDay && DayOf(day) == MonthLength(MonthOf(day)))
  }

  function Least(a: int, b: int): int {
    if a <= b then a else b
  }

  function StepInMonths(s: Schedule): int {
    if s.unit == Years then 12 * s.interval else s.interval
  }

  /** _occurs_on. */
  predicate OccursOn(s: Schedule, day: int, anchor: int)
    requires Clean(s)
  {
    day >= anchor &&
    match s.unit
    case Days => (day - anchor) % s.interval == 0
    case Weeks =>
      WeeksApart(s, day, anchor)
      && if s.weekdays.Some?
         then (if s.weekdays.value != {} then Weekday(day) in s.weekdays.value else day == anchor)
         else Weekday(day) == Weekday(anchor)
    case _ =>
      MonthsApart(s, day, anchor, StepInMonths(s))
      && if s.unit == Months && s.monthDays.Some? then OnListedDay(s, day)
         else DayOf(day) == Least(DayOf(anchor), MonthLength(MonthOf(day)))
  }

  /** The cadence's own days. */
  function Occurrences(s: Schedule, anchor: int): int -> bool
    requires Clean(s)
  {
    day => OccursOn(s, day, anchor)
  }

  // ------------------------------------------------------------ the next one

  /** The first day a test admits, looking ahead a number of days at a time. */
  function Scan(admits: int -> bool, from: int, step: nat): (r: Option<int>)
    requires 1 <= step <= SCAN_LIMIT
    ensures r.Some? ==> from + step <= r.value < from + SCAN_LIMIT && admits(r.value)
    ensures forall d :: from + step <= d < (if r.Some? then r.value else from + SCAN_LIMIT) ==> !admits(d)
    decreases SCAN_LIMIT - step
  {
    if step == SCAN_LIMIT then None
    else if admits(from + step) then Some(from + step)
    else Scan(admits, from, step + 1)
  }

  predicate ByWeekday(s: Schedule) {
    s.unit == Weeks && s.weekdays.Some? && s.weekdays.value != {}
  }

  predicate ByMonthDay(s: Schedule) {
    s.unit == Months && s.monthDays.Some? && (s.monthDays.value != {} || s.lastDay)
  }

  /** What the scan takes, for a list of weekdays or of days of the month. */
  function Admits(s: Schedule, anchor: int): int -> bool
    requires Clean(s)
  {
    day =>
      if ByWeekday(s) then Weekday(day) in s.weekdays.value && WeeksApart(s, day, anchor)
      else OnListedDay(s, day) && MonthsApart(s, day, anchor, s.interval)
  }

  /** One interval on from a day, with no list to go by. */
  function OneIntervalOn(s: Schedule, day: int): int {
    match s.unit
    case Days => day + s.interval
    case Weeks => day + 7 * s.interval
    case _ => AddMonths(day, StepInMonths(s))
  }

  function NextDue(s: Schedule, from: int, anchor: int): int
    requires Clean(s)
  {
    if ByWeekday(s) || ByMonthDay(s) then
      match Scan(Admits(s, anchor), from, 1)
      case Some(day) => day
      case None => OneIntervalOn(s, from)
    else OneIntervalOn(s, from)
  }

  lemma {:induction false} ScanFinds(admits: int -> bool, from: int, step: nat, found: nat)
    requires 1 <= step <= found <= SCAN_LIMIT
    requires forall d :: from + step <= d < from + found ==> !admits(d)
    requires found < SCAN_LIMIT ==> admits(from + found)
    ensures Scan(admits, from, step) == if found == SCAN_LIMIT then None else Some(from + found)
    decreases found - step
  {
    if step < found {
      ScanFinds(admits, from, step + 1, found);
    }
  }

  /** The scan of _next_due, as it runs. */
  method ScanAhead(admits: int -> bool, from: int) returns (found: Option<int>)
    ensures found == Scan(admits, from, 1)
  {
    var step := 1;
    while step < SCAN_LIMIT
      invariant 1 <= step <= SCAN_LIMIT
      invariant forall d :: from + 1 <= d < from + step ==> !admits(d)
    {
      if admits(from + step) {
        ScanFinds(admits, from, 1, step);
        return Some(from + step);
      }
      step := step + 1;
    }
    ScanFinds(admits, from, 1, step);
    return None;
  }

  /** _next_due. */
  method FindNextDue(s: Schedule, from: int, anchor: int) returns (due: int)
    requires Clean(s)
    ensures due == NextDue(s, from, anchor) && IsNext(s, from, anchor, due)
  {
    NextDueIs(s, from, anchor);
    if !ByWeekday(s) && !ByMonthDay(s) {
      return OneIntervalOn(s, from);
    }
    var found := ScanAhead(Admits(s, anchor), from);
    due := if found.Some? then found.value else OneIntervalOn(s, from);
  }

  lemma OneIntervalOnIsLater(s: Schedule, day: int)
    requires Clean(s)
    ensures OneIntervalOn(s, day) > day
  {
    if s.unit == Months || s.unit == Years {
      EarlierMonthEarlierDay(day, AddMonths(day, StepInMonths(s)));
    }
  }

  /** Whatever the settings, the next one is strictly later. */
  lemma NextDueIsLater(s: Schedule, from: int, anchor: int)
    requires Clean(s)
    ensures NextDue(s, from, anchor) > from
  {
    OneIntervalOnIsLater(s, from);
  }

  // -------------------------------------------------- in plain terms

  /** A list to go by: of weekdays, by the week; of days of the month, by the month. */
  ghost predicate Listed(s: Schedule) {
    || (s.unit == Weeks && s.weekdays.Some? && s.weekdays.value != {})
    || (s.unit == Months && s.monthDays.Some? && (s.monthDays.value != {} || s.lastDay))
  }

  /** A listed weekday, as many whole intervals of weeks from the anchor's week as may be; or
      a listed day, or the one the next month begins after, whole intervals of months on. */
  ghost predicate OnTheList(s: Schedule, anchor: int, day: int)
    requires Clean(s) && Listed(s)
  {
    if s.unit == Weeks then
      && Weekday(day) in s.weekdays.value
      && ((day - Weekday(day)) - (anchor - Weekday(anchor))) % (7 * s.interval) == 0
    else
      && (DayOf(day) in s.monthDays.value || (s.lastDay && DayOf(day + 1) == 1))
      && (MonthOf(day) - MonthOf(anchor)) % s.interval == 0
  }

  /** One interval on: so many days, seven times so many, or the same day so many months on,
      or twelve times so many, as far as the month goes. */
  ghost predicate OneOn(s: Schedule, from: int, due: int) {
    match s.unit
    case Days => due == from + s.interval
    case Weeks => due == from + 7 * s.interval
    case _ =>
      && MonthOf(due) == MonthOf(from) + (if s.unit == Years then 12 else 1) * s.interval
      && DayOf(due) <= DayOf(from) && (DayOf(due) < DayOf(from) ==> DayOf(due + 1) == 1)
  }

  /** The first listed day of the next 799, or one interval on when there is none. */
  ghost predicate IsNext(s: Schedule, from: int, anchor: int, due: int)
    requires Clean(s)
  {
    if Listed(s) && exists d :: from < d < from + 800 && OnTheList(s, anchor, d) then
      from < due < from + 800 && OnTheList(s, anchor, due)
      && forall d :: from < d < due ==> !OnTheList(s, anchor, d)
    else OneOn(s, from, due)
  }

  lemma LastOfItsMonth(day: int)
    ensures DayOf(day + 1) == 1 <==> DayOf(day) == MonthLength(MonthOf(day))
  {
    var month := MonthOf(day);
    NextMonthStart(month);
    if DayOf(day) == MonthLength(month) {
      MonthOfUnique(day + 1, month + 1);
    } else {
      MonthOfUnique(day + 1, month);
    }
  }

  lemma WholeWeeks(x: int, n: int)
    requires n >= 1 && x % 7 == 0
    ensures x % (7 * n) == 0 <==> (x / 7) % n == 0
  {
    var q, r := x / 7 / n, x / 7 % n;
    assert x / 7 == q * n + r;
    assert x == q * (7 * n) + 7 * r;
    Arithmetic.DivisionUnique(x, 7 * n, q, 7 * r);
  }

  lemma AdmitsListed(s: Schedule, anchor: int, day: int)
    requires Clean(s) && Listed(s)
    ensures Admits(s, anchor)(day) <==> OnTheList(s, anchor, day)
  {
    if s.unit == Weeks {
      WholeWeeks(WeekOf(day) - WeekOf(anchor), s.interval);
    } else {
      LastOfItsMonth(day);
    }
  }

  lemma StepsOneOn(s: Schedule, from: int)
    requires Clean(s)
    ensures OneOn(s, from, OneIntervalOn(s, from))
  {
    LastOfItsMonth(OneIntervalOn(s, from));
  }

  /** So the next one is. */
  lemma NextDueIs(s: Schedule, from: int, anchor: int)
    requires Clean(s)
    ensures IsNext(s, from, anchor, NextDue(s, from, anchor))
  {
    StepsOneOn(s, from);
    if Listed(s) {
      forall d ensures Admits(s, anchor)(d) <==> OnTheList(s, anchor, d) {
        AdmitsListed(s, anchor, d);
      }
    }
  }

  /** The cadence's own days, from the anchor on: the listed ones; or with no list whole
      intervals from the anchor, on its own day of the month as far as the month goes. A list
      that names nothing leaves the anchor alone, by the week, and no day at all by the month. */
  ghost predicate IsOccurrence(s: Schedule, anchor: int, day: int)
    requires Clean(s)
  {
    && day >= anchor
    && if Listed(s) then OnTheList(s, anchor, day)
       else if s.unit == Days then (day - anchor) % s.interval == 0
       else if s.unit == Weeks then
         if s.weekdays.Some? then day == anchor else (day - anchor) % (7 * s.interval) == 0
       else if s.unit == Months && s.monthDays.Some? then false
       else
         && (MonthOf(day) - MonthOf(anchor)) % ((if s.unit == Years then 12 else 1) * s.interval) == 0
         && DayOf(day) <= DayOf(anchor) && (DayOf(day) < DayOf(anchor) ==> DayOf(day + 1) == 1)
  }

  lemma OccursWhen(s: Schedule, anchor: int, day: int)
    requires Clean(s)
    ensures OccursOn(s, day, anchor) <==> IsOccurrence(s, anchor, day)
  {
    LastOfItsMonth(day);
    if Listed(s) {
      AdmitsListed(s, anchor, day);
      AdmitsOccurrences(s, day, anchor);
    } else if s.unit == Weeks {
      OnTheWeek(s, anchor, day);
    }
  }

  lemma OnTheWeek(s: Schedule, anchor: int, day: int)
    requires Clean(s) && s.unit == Weeks && !ByWeekday(s)
    ensures OccursOn(s, day, anchor)
       <==> day >= anchor && if s.weekdays.Some? then day == anchor else (day - anchor) % (7 * s.interval) == 0
  {
    WeekOfWeek(day, anchor);
    if Weekday(day) == Weekday(anchor) {
      WholeWeeks(day - anchor, s.interval);
      assert WeekOf(day) - WeekOf(anchor) == day - anchor;
    } else if (day - anchor) % (7 * s.interval) == 0 {
      WholeIntervals(day - anchor, s.interval);
    }
  }

  lemma WholeIntervals(x: int, n: int)
    requires n >= 1 && x % (7 * n) == 0
    ensures x % 7 == 0
  {
    var q := x / (7 * n);
    assert x == q * (7 * n) == 7 * (q * n);
  }

  /** When a day's turn comes round again; with no anchor stored the day is its own. */
  function Following(s: Schedule, anchor: Option<int>): int -> int
    requires Clean(s)
  {
    day => NextDue(s, day, if anchor.Some? then anchor.value else day)
  }

  ghost predicate Forward(following: int -> int) {
    forall day :: following(day) > day
  }

  lemma FollowingIsLater(s: Schedule, anchor: Option<int>)
    requires Clean(s)
    ensures Forward(Following(s, anchor))
  {
    forall day ensures Following(s, anchor)(day) > day {
      NextDueIsLater(s, day, if anchor.Some? then anchor.value else day);
    }
  }

  /** The day due after n claims, each made on the day it fell due. */
  function DueAfter(following: int -> int, first: int, n: nat): int {
    if n == 0 then first else following(DueAfter(following, first, n - 1))
  }

  /** For a day not before the anchor, the scan takes exactly the occurrences. */
  lemma AdmitsOccurrences(s: Schedule, day: int, anchor: int)
    requires Clean(s) && (ByWeekday(s) || ByMonthDay(s))
    ensures OccursOn(s, day, anchor) <==> day >= anchor && Admits(s, anchor)(day)
  {
  }

  /** For a list of days, the next one due is the least later occurrence whenever
      there is one within the scan. */
  lemma LeastLaterOccurrence(s: Schedule, from: int, anchor: int, some: int, other: int)
    requires Clean(s) && (ByWeekday(s) || ByMonthDay(s))
    requires from < some < from + SCAN_LIMIT && OccursOn(s, some, anchor) && from < other && OccursOn(s, other, anchor)
    ensures NextDue(s, from, anchor) <= other
    ensures OccursOn(s, NextDue(s, from, anchor), anchor) <==> NextDue(s, from, anchor) >= anchor
  {
    var due := NextDue(s, from, anchor);
    AdmitsOccurrences(s, some, anchor);
    AdmitsOccurrences(s, other, anchor);
    AdmitsOccurrences(s, due, anchor);
  }

  /** A list reaches a day within any interval of weeks that the scan spans. */
  lemma WeekdaysWithinTheScan(s: Schedule, from: int, anchor: int) returns (day: int)
    requires Clean(s) && ByWeekday(s) && 7 * s.interval + 7 <= SCAN_LIMIT - 1
    ensures from < day < from + SCAN_LIMIT && Admits(s, anchor)(day)
  {
    var weekday :| weekday in s.weekdays.value;
    var weeks := (WeekOf(from) - WeekOf(anchor)) / 7;
    WeekOfWeek(from, anchor);
    var ahead := s.interval - weeks % s.interval;
    day := WeekOf(from) + 7 * ahead + weekday;
    WeekdayOfWeek(WeekOf(from) + 7 * ahead, weekday);
    AlignedAhead(weeks, s.interval);
    assert (WeekOf(day) - WeekOf(anchor)) / 7 == weeks + ahead;
  }

  lemma WeekOfWeek(from: int, anchor: int)
    ensures WeekOf(from) == WeekOf(anchor) + 7 * ((WeekOf(from) - WeekOf(anchor)) / 7)
    ensures WeekOf(from) <= from < WeekOf(from) + 7 && Weekday(WeekOf(from)) == 0
  {
  }

  lemma WeekdayOfWeek(monday: int, weekday: DayOfWeek)
    requires Weekday(monday) == 0
    ensures Weekday(monday + weekday) == weekday && WeekOf(monday + weekday) == monday
  {
  }

  lemma AlignedAhead(weeks: int, n: int)
    requires n >= 1
    ensures (weeks + n - weeks % n) % n == 0
  {
    var q, r := weeks / n, weeks % n;
    assert weeks + n - r == (q + 1) * n + 0;
    Arithmetic.DivisionUnique(weeks + n - r, n, q + 1, 0);
  }

  /** A list that names the last day, or a day every month has, reaches one within
      any interval of months that the scan spans. */
  lemma {:induction false} MonthDaysWithinTheScan(s: Schedule, from: int, anchor: int) returns (day: int)
    requires Clean(s) && ByMonthDay(s) && s.interval <= 24
    requires s.lastDay || exists d :: d in s.monthDays.value && 1 <= d <= 28
    ensures from < day < from + SCAN_LIMIT && Admits(s, anchor)(day)
  {
    var month := AlignedMonth(s, from, anchor);
    var d := MonthLength(month);
    if !s.lastDay {
      d := ShortDay(s.monthDays.value);
    }
    day := DateOf(month, d);
    InTheMonth(from, day);
  }

  lemma {:induction false} ShortDay(days: set<int>) returns (d: nat)
    requires exists d :: d in days && 1 <= d <= 28
    ensures d in days && 1 <= d <= 28
  {
    d :| d in days && 1 <= d <= 28;
  }

  lemma InTheMonth(from: int, day: int)
    requires MonthOf(from) < MonthOf(day) && MonthStart(MonthOf(day)) <= MonthStart(MonthOf(from)) + 744
    ensures from < day < from + SCAN_LIMIT
  {
    EarlierMonthEarlierDay(from, day);
  }

  /** The next month on the cadence, at most one interval away. */
  lemma AlignedMonth(s: Schedule, from: int, anchor: int) returns (month: int)
    requires Clean(s) && s.interval <= 24
    ensures MonthOf(from) < month && (month - MonthOf(anchor)) % s.interval == 0
    ensures MonthStart(month) <= MonthStart(MonthOf(from)) + 744
  {
    var apart := MonthOf(from) - MonthOf(anchor);
    var ahead := s.interval - apart % s.interval;
    AlignedAhead(apart, s.interval);
    MonthsSpan(MonthOf(from), ahead);
    month := MonthOf(from) + ahead;
  }

  lemma {:induction false} MonthsSpan(month: int, ahead: nat)
    ensures MonthStart(month + ahead) <= MonthStart(month) + 31 * ahead
  {
    if ahead > 0 {
      MonthsSpan(month, ahead - 1);
      NextMonthStart(month + ahead - 1);
    }
  }

  lemma WeekShift(day: int, weeks: int)
    ensures WeekOf(day + 7 * weeks) == WeekOf(day) + 7 * weeks
    ensures Weekday(day + 7 * weeks) == Weekday(day)
  {
  }

  lemma AlignedShift(s: Schedule, day: int, anchor: int)
    requires Clean(s)
    ensures WeeksApart(s, day + 7 * s.interval, anchor) <==> WeeksApart(s, day, anchor)
  {
    WeekShift(day, s.interval);
    Arithmetic.ShiftOnce((WeekOf(day) - WeekOf(anchor)) / 7, s.interval);
  }

  /** A listed weekday of an aligned week. */
  lemma ListedInWeek(s: Schedule, day: int, anchor: int, w: DayOfWeek) returns (d: int)
    requires Clean(s) && ByWeekday(s) && WeeksApart(s, day, anchor) && w in s.weekdays.value
    ensures d == day - Weekday(day) + w && Admits(s, anchor)(d)
  {
    d := WeekOf(day) + w;
    WeekOfWeek(day, anchor);
    WeekdayOfWeek(WeekOf(day), w);
  }

  lemma OneWholeInterval(s: Schedule, from: int, anchor: int)
    requires Clean(s) && ByWeekday(s) && OccursOn(s, from, anchor) && Scan(Admits(s, anchor), from, 1).None?
    ensures NextDue(s, from, anchor) == from + 7 * s.interval && OccursOn(s, NextDue(s, from, anchor), anchor)
    ensures WeeksApart(s, NextDue(s, from, anchor), anchor)
    ensures Weekday(NextDue(s, from, anchor)) == Weekday(from)
  {
    AlignedShift(s, from, anchor);
    WeekShift(from, s.interval);
  }

  /** From an occurrence the scan comes up empty exactly when no listed weekday is left in
      that week and none comes round again within its reach. */
  lemma {:induction false} ScanComesUpEmpty(s: Schedule, from: int, anchor: int)
    requires Clean(s) && ByWeekday(s) && OccursOn(s, from, anchor)
    ensures Scan(Admits(s, anchor), from, 1).None?
            <==> forall w :: w in s.weekdays.value ==>
                   w <= Weekday(from) && 7 * s.interval + w - Weekday(from) >= SCAN_LIMIT
  {
    var found := Scan(Admits(s, anchor), from, 1);
    if found.None? {
      forall w | w in s.weekdays.value
        ensures w <= Weekday(from) && 7 * s.interval + w - Weekday(from) >= SCAN_LIMIT
      {
        AlignedShift(s, from, anchor);
        WeekShift(from, s.interval);
        var d := ListedInWeek(s, from, anchor, w);
        var d' := ListedInWeek(s, from + 7 * s.interval, anchor, w);
      }
    } else {
      NextAdmitted(s, from, anchor, found.value);
    }
  }

  /** A listed day after an occurrence is in the same week, or at least an interval on. */
  lemma NextAdmitted(s: Schedule, from: int, anchor: int, d: int)
    requires Clean(s) && ByWeekday(s) && OccursOn(s, from, anchor) && from < d && Admits(s, anchor)(d)
    ensures Weekday(d) > Weekday(from) || d >= from + 7 * s.interval + Weekday(d) - Weekday(from)
  {
    var weeks, later := (WeekOf(from) - WeekOf(anchor)) / 7, (WeekOf(d) - WeekOf(anchor)) / 7;
    WeekOfWeek(from, anchor);
    WeekOfWeek(d, anchor);
    if weeks < later < weeks + s.interval {
      var q := weeks / s.interval;
      assert weeks == q * s.interval;
      Arithmetic.DivisionUnique(later, s.interval, q, later - weeks);
    }
  }

  /** Mondays and Thursdays of every 120th week: from a Thursday the scan finds neither, and
      the Monday before the next Thursday is stepped over. */
  lemma MondayIsSteppedOver(thursday: int)
    requires Weekday(thursday) == 3
    ensures
      var s := Schedule(120, Weeks, Some({0, 3}), None, false);
      && OccursOn(s, thursday, thursday) && Scan(Admits(s, thursday), thursday, 1).None?
      && NextDue(s, thursday, thursday) == thursday + 840 && OccursOn(s, thursday + 837, thursday)
  {
    var s := Schedule(120, Weeks, Some({0, 3}), None, false);
    ScanComesUpEmpty(s, thursday, thursday);
    OneWholeInterval(s, thursday, thursday);
    var d := ListedInWeek(s, thursday + 840, thursday, 0);
    AdmitsOccurrences(s, d, thursday);
  }

  /** Past the scan a list of weekdays falls back on one whole interval. That is an
      occurrence still, and the least later one exactly when it is the only weekday
      listed: with another, that one's turn is stepped over. */
  lemma {:induction false} FallbackByWeekday(s: Schedule, from: int, anchor: int)
    requires Clean(s) && ByWeekday(s) && OccursOn(s, from, anchor) && Scan(Admits(s, anchor), from, 1).None?
    ensures NextDue(s, from, anchor) == from + 7 * s.interval && OccursOn(s, NextDue(s, from, anchor), anchor)
    ensures (forall d :: from < d < NextDue(s, from, anchor) ==> !OccursOn(s, d, anchor))
            <==> s.weekdays.value == {Weekday(from)}
  {
    var due := NextDue(s, from, anchor);
    OneWholeInterval(s, from, anchor);
    if s.weekdays.value == {Weekday(from)} {
      forall d | from < d < due ensures !OccursOn(s, d, anchor) {
        NothingBetween(s, from, anchor, d);
      }
    } else {
      var w := AnotherWeekday(s.weekdays.value, Weekday(from));
      var d := ListedInWeek(s, if w > Weekday(from) then from else due, anchor, w);
      AdmitsOccurrences(s, d, anchor);
    }
  }

  lemma AnotherWeekday(listed: set<DayOfWeek>, one: DayOfWeek) returns (w: DayOfWeek)
    requires one in listed && listed != {one}
    ensures w in listed && w != one
  {
    assert listed == {one} + (listed - {one});
    w :| w in listed - {one};
  }

  lemma NothingBetween(s: Schedule, from: int, anchor: int, d: int)
    requires Clean(s) && ByWeekday(s) && s.weekdays.value == {Weekday(from)} && OccursOn(s, from, anchor)
    requires from < d < from + 7 * s.interval
    ensures !OccursOn(s, d, anchor)
  {
    if Weekday(d) == Weekday(from) {
      var weeks, later := (WeekOf(from) - WeekOf(anchor)) / 7, (WeekOf(d) - WeekOf(anchor)) / 7;
      WeeksBetween(from, d, anchor);
      var q := weeks / s.interval;
      assert weeks == q * s.interval;
      Arithmetic.DivisionUnique(later, s.interval, q, later - weeks);
    }
  }

  lemma WeeksBetween(from: int, d: int, anchor: int)
    requires Weekday(d) == Weekday(from)
    ensures d - from == 7 * ((WeekOf(d) - WeekOf(anchor)) / 7 - (WeekOf(from) - WeekOf(anchor)) / 7)
  {
    WeekOfWeek(from, anchor);
    WeekOfWeek(d, anchor);
  }

  /** Whether the day due after n claims on time is one to keep. */
  predicate StepKept(following: int -> int, first: int, kept: int -> bool, n: nat) {
    kept(DueAfter(following, first, n))
  }

  // ------------------------------------------- by the month, with no list

  /** A cadence that goes by the anchor's own day of the month. */
  predicate ByAnchorDay(s: Schedule) {
    s.unit == Years || (s.unit == Months && s.monthDays.None? && !s.lastDay)
  }

  /** The month n steps on. */
  function StepMonth(s: Schedule, first: int, n: nat): int {
    if n == 0 then MonthOf(first) else StepMonth(s, first, n - 1) + StepInMonths(s)
  }

  /** The anchor's day as a month can show it. */
  function DayIn(anchor: int, month: int): int {
    Least(DayOf(anchor), MonthLength(month))
  }

  /** How long each of the months stepped through is. */
  function Lengths(s: Schedule, first: int): nat -> int {
    (n: nat) => MonthLength(StepMonth(s, first, n))
  }

  /** The day a step lands on is the shortest month's so far. */
  function Shortest(day: int, lengths: nat -> int, n: nat): int {
    if n == 0 then day else Least(Shortest(day, lengths, n - 1), lengths(n))
  }

  lemma StepLands(s: Schedule, day: int, anchor: int)
    requires Clean(s) && ByAnchorDay(s)
    ensures NextDue(s, day, anchor) > day
    ensures MonthOf(NextDue(s, day, anchor)) == MonthOf(day) + StepInMonths(s)
    ensures DayOf(NextDue(s, day, anchor)) == Least(DayOf(day), MonthLength(MonthOf(day) + StepInMonths(s)))
  {
    NextDueIsLater(s, day, anchor);
  }

  lemma DueSteps(s: Schedule, anchor: int, first: int, n: nat)
    requires Clean(s) && ByAnchorDay(s) && n > 0
    ensures
      var following := Following(s, Some(anchor));
      var last, due := DueAfter(following, first, n - 1), DueAfter(following, first, n);
      && due > last && MonthOf(due) == MonthOf(last) + StepInMonths(s)
      && DayOf(due) == Least(DayOf(last), MonthLength(MonthOf(last) + StepInMonths(s)))
  {
    StepLands(s, DueAfter(Following(s, Some(anchor)), first, n - 1), anchor);
  }

  lemma {:induction false} DueLands(s: Schedule, anchor: int, first: int, n: nat)
    requires Clean(s) && ByAnchorDay(s)
    ensures DueAfter(Following(s, Some(anchor)), first, n) >= first
    ensures MonthOf(DueAfter(Following(s, Some(anchor)), first, n)) == StepMonth(s, first, n)
    ensures DayOf(DueAfter(Following(s, Some(anchor)), first, n)) == Shortest(DayOf(first), Lengths(s, first), n)
  {
    if n > 0 {
      DueLands(s, anchor, first, n - 1);
      DueSteps(s, anchor, first, n);
      assert Lengths(s, first)(n) == MonthLength(StepMonth(s, first, n - 1) + StepInMonths(s));
    }
  }

  lemma {:induction false} StepMonthAligned(s: Schedule, anchor: int, first: int, n: nat)
    requires Clean(s) && MonthsApart(s, first, anchor, StepInMonths(s))
    ensures (StepMonth(s, first, n) - MonthOf(anchor)) % StepInMonths(s) == 0
  {
    if n > 0 {
      StepMonthAligned(s, anchor, first, n - 1);
      Arithmetic.ShiftOnce(StepMonth(s, first, n - 1) - MonthOf(anchor), StepInMonths(s));
    }
  }

  lemma OccursByAnchorDay(s: Schedule, day: int, anchor: int)
    requires Clean(s) && ByAnchorDay(s)
    ensures OccursOn(s, day, anchor)
            <==> day >= anchor && MonthsApart(s, day, anchor, StepInMonths(s))
                 && DayOf(day) == DayIn(anchor, MonthOf(day))
  {
  }

  /** Whether the day due after n claims is one of the cadence's own. */
  predicate DueOccurs(s: Schedule, anchor: int, first: int, n: nat)
    requires Clean(s)
  {
    StepKept(Following(s, Some(anchor)), first, Occurrences(s, anchor), n)
  }

  ghost predicate StepsOccur(s: Schedule, anchor: int, first: int, n: nat)
    requires Clean(s)
  {
    forall k: nat :: k <= n ==> DueOccurs(s, anchor, first, k)
  }

  /** What the anchor's day makes of each month stepped through. */
  function Shown(s: Schedule, anchor: int, first: int): nat -> int {
    (n: nat) => DayIn(anchor, StepMonth(s, first, n))
  }

  function RunningLeast(shown: nat -> int, n: nat): int {
    if n == 0 then shown(0) else Least(RunningLeast(shown, n - 1), shown(n))
  }

  ghost predicate Falls(shown: nat -> int, n: nat) {
    forall k: nat :: k < n ==> shown(k + 1) <= shown(k)
  }

  lemma {:induction false} FallsByOne(shown: nat -> int, n: nat)
    requires n > 0
    ensures Falls(shown, n) <==> Falls(shown, n - 1) && shown(n) <= shown(n - 1)
  {
    assert n - 1 + 1 == n;
    if Falls(shown, n) {
      assert shown(n - 1 + 1) <= shown(n - 1);
    }
  }

  lemma {:induction false} RunningLeastIs(shown: nat -> int, n: nat)
    ensures (forall k: nat :: k <= n ==> RunningLeast(shown, k) == shown(k)) <==> Falls(shown, n)
  {
    if n > 0 {
      RunningLeastIs(shown, n - 1);
      FallsByOne(shown, n);
    }
  }

  lemma {:induction false} ShortestIsRunning(day: int, lengths: nat -> int, shown: nat -> int, n: nat)
    requires forall k: nat :: shown(k) == Least(day, lengths(k))
    ensures Shortest(shown(0), lengths, n) == RunningLeast(shown, n) <= day
  {
    if n > 0 {
      ShortestIsRunning(day, lengths, shown, n - 1);
    }
  }

  lemma {:induction false} ShownAreCut(s: Schedule, anchor: int, first: int)
    ensures forall k: nat :: Shown(s, anchor, first)(k) == Least(DayOf(anchor), Lengths(s, first)(k))
  {
  }

  lemma DueOnTheShortest(s: Schedule, anchor: int, first: int, n: nat)
    requires Clean(s) && ByAnchorDay(s) && OccursOn(s, first, anchor)
    ensures DueOccurs(s, anchor, first, n)
            <==> RunningLeast(Shown(s, anchor, first), n) == Shown(s, anchor, first)(n)
  {
    DueLands(s, anchor, first, n);
    StepMonthAligned(s, anchor, first, n);
    OccursByAnchorDay(s, first, anchor);
    ShownAreCut(s, anchor, first);
    ShortestIsRunning(DayOf(anchor), Lengths(s, first), Shown(s, anchor, first), n);
    OccursByAnchorDay(s, DueAfter(Following(s, Some(anchor)), first, n), anchor);
  }

  /** Claims made on time stay on occurrences exactly as long as no month shows a
      later day than the one before it: once a short month has cut the anchor's
      day, a longer one is missed. */
  lemma OnScheduleWhile(s: Schedule, anchor: int, first: int, n: nat)
    requires Clean(s) && ByAnchorDay(s) && OccursOn(s, first, anchor)
    ensures StepsOccur(s, anchor, first, n) <==> Falls(Shown(s, anchor, first), n)
  {
    var shown := Shown(s, anchor, first);
    RunningLeastIs(shown, n);
    forall k: nat | k <= n ensures DueOccurs(s, anchor, first, k) <==> RunningLeast(shown, k) == shown(k) {
      DueOnTheShortest(s, anchor, first, k);
    }
  }

  lemma {:induction false} StepMonthIs(s: Schedule, first: int, n: nat)
    ensures StepMonth(s, first, n) == MonthOf(first) + n * StepInMonths(s)
  {
    if n > 0 {
      StepMonthIs(s, first, n - 1);
      assert n * StepInMonths(s) == (n - 1) * StepInMonths(s) + StepInMonths(s);
    }
  }

  /** After four hundred years of months, whatever the step, the calendar is back. */
  lemma StepsRepeat(s: Schedule, first: int, n: nat, times: nat)
    ensures MonthLength(StepMonth(s, first, n + CALENDAR_ROUND * times)) == MonthLength(StepMonth(s, first, n))
  {
    var step := StepInMonths(s);
    var later := n + CALENDAR_ROUND * times;
    StepMonthIs(s, first, n);
    StepMonthIs(s, first, later);
    assert later * step == n * step + CALENDAR_ROUND * (times * step);
    MonthLengthRepeats(StepMonth(s, first, n), times * step);
  }

  lemma {:induction false} FallsFar(shown: nat -> int, i: nat, j: nat)
    requires i <= j && Falls(shown, j)
    ensures shown(j) <= shown(i)
    decreases j - i
  {
    if i < j {
      FallsFar(shown, i, j - 1);
      FallsByOne(shown, j);
    }
  }

  /** One round of the calendar shows the same day in every month stepped through. */
  ghost predicate OneDayThroughout(shown: nat -> int) {
    forall n: nat :: n < CALENDAR_ROUND ==> shown(n) == shown(0)
  }

  /** As many rounds of the calendar further on. */
  function RoundsOn(n: nat, rounds: nat): (r: nat)
    ensures r >= n && (rounds >= n ==> r >= n + n)
  {
    n + CALENDAR_ROUND * rounds
  }

  ghost predicate Repeats(shown: nat -> int) {
    forall n: nat, rounds: nat :: shown(RoundsOn(n, rounds)) == shown(n)
  }

  lemma ThroughoutIsForGood(shown: nat -> int, n: nat)
    requires Repeats(shown) && OneDayThroughout(shown)
    ensures Falls(shown, n)
  {
    forall k: nat | k <= n ensures shown(k) == shown(0) {
      assert RoundsOn(k % CALENDAR_ROUND, k / CALENDAR_ROUND) == k;
    }
  }

  lemma FallingForGoodIsThroughout(shown: nat -> int, n: nat)
    requires Repeats(shown) && Falls(shown, RoundsOn(n, n))
    ensures shown(n) == shown(0)
  {
    FallsFar(shown, 0, n);
    assert RoundsOn(0, n) <= RoundsOn(n, n);
    if n > 0 {
      assert Falls(shown, RoundsOn(0, n));
      FallsFar(shown, n, RoundsOn(0, n));
    }
  }

  lemma {:induction false} ForGoodExactly(shown: nat -> int)
    requires Repeats(shown)
    ensures (forall n: nat :: Falls(shown, n)) <==> OneDayThroughout(shown)
  {
    if forall n: nat :: Falls(shown, n) {
      forall n: nat | n < CALENDAR_ROUND ensures shown(n) == shown(0) {
        if n > 0 {
          FallingForGoodIsThroughout(shown, n);
        }
      }
    }
    if OneDayThroughout(shown) {
      forall n: nat ensures Falls(shown, n) {
        ThroughoutIsForGood(shown, n);
      }
    }
  }

  lemma ShownRepeats(s: Schedule, anchor: int, first: int)
    ensures Repeats(Shown(s, anchor, first))
  {
    forall n: nat, rounds: nat
      ensures Shown(s, anchor, first)(RoundsOn(n, rounds)) == Shown(s, anchor, first)(n)
    {
      ShownAgain(s, anchor, first, n, rounds);
    }
  }

  lemma ShownAgain(s: Schedule, anchor: int, first: int, n: nat, rounds: nat)
    ensures Shown(s, anchor, first)(RoundsOn(n, rounds)) == Shown(s, anchor, first)(n)
  {
    StepsRepeat(s, first, n, rounds);
  }

  /** Claimed on time for good, the reminder keeps to its occurrences exactly when
      every month it steps onto shows the day it began on, which one round of the
      calendar settles. */
  lemma {:induction false} OnScheduleForever(s: Schedule, anchor: int, first: int)
    requires Clean(s) && ByAnchorDay(s) && OccursOn(s, first, anchor)
    ensures (forall n: nat :: DueOccurs(s, anchor, first, n)) <==> OneDayThroughout(Shown(s, anchor, first))
  {
    var shown := Shown(s, anchor, first);
    ShownRepeats(s, anchor, first);
    ForGoodExactly(shown);
    forall n: nat
      ensures StepsOccur(s, anchor, first, n) <==> Falls(shown, n)
    {
      OnScheduleWhile(s, anchor, first, n);
    }
    if forall n: nat :: Falls(shown, n) {
      forall n: nat ensures DueOccurs(s, anchor, first, n) {
        assert Falls(shown, n);
      }
    }
  }

  /** Begun on the anchor, that is when none of those months is too short for its
      day, as none is for any day up to the 28th. */
  lemma {:induction false} OneDayFromTheAnchor(s: Schedule, anchor: int)
    ensures OneDayThroughout(Shown(s, anchor, anchor))
            <==> forall n: nat :: n < CALENDAR_ROUND ==> DayOf(anchor) <= Lengths(s, anchor)(n)
    ensures DayOf(anchor) <= 28 ==> OneDayThroughout(Shown(s, anchor, anchor))
  {
    var shown := Shown(s, anchor, anchor);
    forall n: nat
      ensures shown(n) == shown(0) <==> DayOf(anchor) <= Lengths(s, anchor)(n)
      ensures DayOf(anchor) <= 28 ==> shown(n) == shown(0)
    {
      ShownFromTheAnchor(s, anchor, n);
    }
  }

  lemma ShownFromTheAnchor(s: Schedule, anchor: int, n: nat)
    ensures Shown(s, anchor, anchor)(0) == DayOf(anchor)
    ensures Shown(s, anchor, anchor)(n) == DayOf(anchor) <==> DayOf(anchor) <= Lengths(s, anchor)(n)
    ensures DayOf(anchor) <= 28 ==> Shown(s, anchor, anchor)(n) == DayOf(anchor)
  {
  }

  lemma WinterLengths(january: int)
    requires january % 12 == 0
    ensures 28 <= MonthLength(january + 1) <= 29 && MonthLength(january + 2) == 31
  {
  }

  /** Anchored on a 31st of January and stepped by the month, February's prompt
      comes on its last day, and March's on the same number, which is no
      occurrence; it should have come on the 31st. */
  lemma LostAfterFebruary(anchor: int, february: int, march: int)
    requires MonthOf(anchor) % 12 == 0 && DayOf(anchor) == 31
    requires february == NextDue(Schedule(1, Months, None, None, false), anchor, anchor)
    requires march == NextDue(Schedule(1, Months, None, None, false), february, anchor)
    ensures OccursOn(Schedule(1, Months, None, None, false), february, anchor)
    ensures !OccursOn(Schedule(1, Months, None, None, false), march, anchor)
    ensures MonthOf(march) == MonthOf(anchor) + 2 && 28 <= DayOf(march) == DayOf(february) <= 29
  {
    var s := Schedule(1, Months, None, None, false);
    WinterLengths(MonthOf(anchor));
    StepLands(s, anchor, anchor);
    StepLands(s, february, anchor);
    OccursByAnchorDay(s, february, anchor);
    OccursByAnchorDay(s, march, anchor);
  }

  /** The first one after saving: today when today is an occurrence and its time
      has not gone by, and the next one otherwise. */
  function FirstDue(s: Schedule, today: int, anchor: int, timeGone: bool): (due: int)
    requires Clean(s)
    ensures due >= today
    ensures due == today <==> OccursOn(s, today, anchor) && !timeGone
    ensures due != today ==> IsNext(s, today, anchor, due)
  {
    NextDueIs(s, today, anchor);
    NextDueIsLater(s, today, anchor);
    if OccursOn(s, today, anchor) && !timeGone then today else NextDue(s, today, anchor)
  }

  // -------------------------------------------------------------- the claim

  /** The stored row. */
  datatype Row = Row(enabled: bool, nextDue: Option<int>, pending: Option<int>)

  /** What workers and the person do to it: claim a day's turn, raise the prompt
      outside the cadence, set it aside. */
  datatype Event = Claim(day: int) | Raise(day: int) | Clear

  /** The UPDATE's own condition. */
  predicate Wins(row: Row, day: int) {
    row.enabled && row.nextDue.Some? && row.nextDue.value <= day
  }

  /** The row after an event, `following` saying when a day's turn comes round again. */
  function After(following: int -> int, row: Row, event: Event): Row {
    match event
    case Claim(day) =>
      if Wins(row, day) then row.(nextDue := Some(following(day)), pending := Some(day)) else row
    case Raise(day) => if row.enabled && row.pending.None? then row.(pending := Some(day)) else row
    case Clear => row.(pending := None)
  }

  class Prompt {
    const schedule: Schedule
    const anchor: Option<int>
    var row: Row

    constructor (schedule: Schedule, anchor: Option<int>, row: Row)
      requires Clean(schedule)
      ensures this.schedule == schedule && this.anchor == anchor && this.row == row
    {
      this.schedule, this.anchor, this.row := schedule, anchor, row;
    }

    /** claim_due: the statement decides, and moves the cadence on as it does. */
    method ClaimDue(day: int) returns (won: bool)
      requires Clean(schedule)
      modifies this
      ensures won == Wins(old(row), day) && row == After(Following(schedule, anchor), old(row), Claim(day))
      ensures won <==> old(row).enabled && old(row).nextDue.Some? && old(row).nextDue.value <= day
      ensures !won ==> row == old(row)
      ensures won ==> row.enabled && row.pending == Some(day) && row.nextDue.Some?
                      && IsNext(schedule, day, if anchor.Some? then anchor.value else day, row.nextDue.value)
    {
      if !row.enabled {
        return false;
      }
      var following := FindNextDue(schedule, day, if anchor.Some? then anchor.value else day);
      won := row.enabled && row.nextDue.Some? && row.nextDue.value <= day;
      if won {
        row := row.(nextDue := Some(following), pending := Some(day));
      }
    }

    /** raise_now: never moves a prompt already waiting, nor the cadence. */
    method RaiseNow(today: int) returns (raised: bool)
      requires Clean(schedule)
      modifies this
      ensures row == After(Following(schedule, anchor), old(row), Raise(today))
      ensures raised <==> old(row).enabled && old(row).pending.None?
      ensures row == if raised then old(row).(pending := Some(today)) else old(row)
    {
      raised := row.enabled && row.pending.None?;
      if raised {
        row := row.(pending := Some(today));
      }
    }

    /** clear_pending. */
    method ClearPending()
      requires Clean(schedule)
      modifies this
      ensures row == After(Following(schedule, anchor), old(row), Clear) && row == old(row).(pending := None)
    {
      row := row.(pending := None);
    }
  }

  // --------------------------------------------- any interleaving of workers

  /** The row after the first n events of a run. */
  function RowAfter(following: int -> int, row: Row, events: seq<Event>, n: nat): Row
    requires n <= |events|
  {
    if n == 0 then row else After(following, RowAfter(following, row, events, n - 1), events[n - 1])
  }

  ghost predicate WonAt(following: int -> int, row: Row, events: seq<Event>, i: nat)
    requires i < |events|
  {
    events[i].Claim? && Wins(RowAfter(following, row, events, i), events[i].day)
  }

  /** The day due next never goes back. */
  lemma {:induction false} NeverGoesBack(following: int -> int, row: Row, events: seq<Event>, i: nat, j: nat)
    requires Forward(following) && i <= j <= |events| && RowAfter(following, row, events, i).nextDue.Some?
    ensures RowAfter(following, row, events, j).nextDue.Some?
    ensures RowAfter(following, row, events, i).nextDue.value <= RowAfter(following, row, events, j).nextDue.value
    ensures RowAfter(following, row, events, j).enabled == RowAfter(following, row, events, i).enabled
    decreases j - i
  {
    if i < j {
      NeverGoesBack(following, row, events, i, j - 1);
    }
  }

  /** Under any interleaving of workers, a later win is for a later day: no day is
      claimed twice. */
  lemma OneWinADay(following: int -> int, row: Row, events: seq<Event>, i: nat, j: nat)
    requires Forward(following) && i < j < |events|
    requires WonAt(following, row, events, i) && WonAt(following, row, events, j)
    ensures events[i].day < events[j].day
  {
    assert RowAfter(following, row, events, i + 1).nextDue == Some(following(events[i].day));
    NeverGoesBack(following, row, events, i + 1, j);
  }

  /** A prompt that is due is won by whoever claims first. */
  lemma {:induction false} FirstClaimWins(following: int -> int, row: Row, events: seq<Event>, i: nat)
    requires i < |events| && row.enabled && row.nextDue.Some? && events[i].Claim?
    requires row.nextDue.value <= events[i].day
    requires forall k :: 0 <= k < i ==> !events[k].Claim?
    ensures WonAt(following, row, events, i)
  {
    Untouched(following, row, events, i);
  }

  lemma {:induction false} Untouched(following: int -> int, row: Row, events: seq<Event>, n: nat)
    requires n <= |events| && forall k :: 0 <= k < n ==> !events[k].Claim?
    ensures RowAfter(following, row, events, n).nextDue == row.nextDue
    ensures RowAfter(following, row, events, n).enabled == row.enabled
  {
    if n > 0 {
      Untouched(following, row, events, n - 1);
    }
  }

  // ------------------------------------- keeping to the schedule over a run

  /** How many of the first n events were winning claims. */
  ghost function Won(following: int -> int, row: Row, events: seq<Event>, n: nat): nat
    requires n <= |events|
  {
    if n == 0 then 0
    else Won(following, row, events, n - 1) + if WonAt(following, row, events, n - 1) then 1 else 0
  }

  /** Every win is on the very day the prompt fell due. */
  ghost predicate OnTime(following: int -> int, row: Row, events: seq<Event>) {
    forall i :: 0 <= i < |events| && WonAt(following, row, events, i) ==>
      RowAfter(following, row, events, i).nextDue == Some(events[i].day)
  }

  lemma {:induction false} RunStepsOn(following: int -> int, row: Row, events: seq<Event>, n: nat)
    requires row.nextDue.Some? && n <= |events| && OnTime(following, row, events)
    ensures RowAfter(following, row, events, n).nextDue
            == Some(DueAfter(following, row.nextDue.value, Won(following, row, events, n)))
  {
    if n > 0 {
      RunStepsOn(following, row, events, n - 1);
    }
  }

  lemma {:induction false} WonReaches(following: int -> int, row: Row, events: seq<Event>, n: nat, k: nat)
    returns (i: nat)
    requires n <= |events| && k <= Won(following, row, events, n)
    ensures i <= n && Won(following, row, events, i) == k
  {
    if Won(following, row, events, n) == k {
      i := n;
    } else {
      i := WonReaches(following, row, events, n - 1, k);
    }
  }

  lemma {:induction false} WonGrows(following: int -> int, row: Row, events: seq<Event>, i: nat, n: nat)
    requires i <= n <= |events|
    ensures Won(following, row, events, i) <= Won(following, row, events, n)
    decreases n - i
  {
    if i < n {
      WonGrows(following, row, events, i, n - 1);
    }
  }

  /** The day due after the first n events is one of the cadence's own. */
  predicate DueKept(following: int -> int, row: Row, events: seq<Event>, kept: int -> bool, n: nat)
    requires n <= |events|
  {
    var due := RowAfter(following, row, events, n).nextDue;
    due.Some? && kept(due.value)
  }

  lemma DueKeptIs(following: int -> int, row: Row, events: seq<Event>, kept: int -> bool, n: nat)
    requires row.nextDue.Some? && n <= |events| && OnTime(following, row, events)
    ensures DueKept(following, row, events, kept, n)
            <==> StepKept(following, row.nextDue.value, kept, Won(following, row, events, n))
  {
    RunStepsOn(following, row, events, n);
  }

  ghost predicate StepsKept(following: int -> int, first: int, kept: int -> bool, n: nat) {
    forall k: nat :: k <= n ==> StepKept(following, first, kept, k)
  }

  ghost predicate RunKept(following: int -> int, row: Row, events: seq<Event>, kept: int -> bool) {
    forall i :: 0 <= i <= |events| ==> DueKept(following, row, events, kept, i)
  }

  /** The days due over a run are the days of its wins, each in its turn. */
  lemma RunVisits(following: int -> int, row: Row, events: seq<Event>, kept: int -> bool)
    requires row.nextDue.Some? && OnTime(following, row, events)
    ensures RunKept(following, row, events, kept)
            <==> StepsKept(following, row.nextDue.value, kept, Won(following, row, events, |events|))
  {
    var first, wins := row.nextDue.value, Won(following, row, events, |events|);
    if RunKept(following, row, events, kept) {
      forall k: nat | k <= wins ensures StepKept(following, first, kept, k) {
        var i := WonReaches(following, row, events, |events|, k);
        DueKeptIs(following, row, events, kept, i);
      }
    }
    if StepsKept(following, first, kept, wins) {
      forall i | 0 <= i <= |events| ensures DueKept(following, row, events, kept, i) {
        DueKeptIs(following, row, events, kept, i);
        WonGrows(following, row, events, i, |events|);
      }
    }
  }

  lemma StepsOccurAre(s: Schedule, anchor: int, first: int, n: nat)
    requires Clean(s)
    ensures StepsOccur(s, anchor, first, n)
            <==> StepsKept(Following(s, Some(anchor)), first, Occurrences(s, anchor), n)
  {
    forall k: nat
      ensures DueOccurs(s, anchor, first, k)
              <==> StepKept(Following(s, Some(anchor)), first, Occurrences(s, anchor), k)
    {
    }
    if StepsOccur(s, anchor, first, n) {
      forall k: nat | k <= n ensures StepKept(Following(s, Some(anchor)), first, Occurrences(s, anchor), k) {
        assert DueOccurs(s, anchor, first, k);
      }
    }
  }

  // ---------------------------------------------------- claims made late

  /** With no list of days to scan, the next one is stepped to from the day of the claim. */
  predicate Unlisted(s: Schedule) {
    !ByWeekday(s) && !ByMonthDay(s)
  }

  /** The days from which one interval on is an occurrence. */
  predicate StaysFrom(s: Schedule, anchor: int, day: int)
    requires Clean(s)
  {
    match s.unit
    case Days => (day - anchor) % s.interval == 0
    case Weeks => s.weekdays.None? && WeeksApart(s, day, anchor) && Weekday(day) == Weekday(anchor)
    case _ =>
      var length := MonthLength(MonthOf(day) + StepInMonths(s));
      && (s.unit == Years || s.monthDays.None?) && MonthsApart(s, day, anchor, StepInMonths(s))
      && Least(DayOf(day), length) == Least(DayOf(anchor), length)
  }

  /** A claim, late or not, leaves the day due next on an occurrence exactly when it is made
      on such a day. */
  lemma ClaimStays(s: Schedule, anchor: int, day: int)
    requires Clean(s) && Unlisted(s) && day >= anchor
    ensures OccursOn(s, NextDue(s, day, anchor), anchor) <==> StaysFrom(s, anchor, day)
  {
    NextDueIsLater(s, day, anchor);
    match s.unit {
      case Days => ClaimStaysByDays(s, anchor, day);
      case Weeks => ClaimStaysByWeeks(s, anchor, day);
      case _ => ClaimStaysByMonths(s, anchor, day);
    }
  }

  lemma ClaimStaysByWeeks(s: Schedule, anchor: int, day: int)
    requires Clean(s) && s.unit == Weeks && Unlisted(s) && day >= anchor
    ensures OccursOn(s, day + 7 * s.interval, anchor) <==> StaysFrom(s, anchor, day)
  {
    AlignedShift(s, day, anchor);
    WeekShift(day, s.interval);
  }

  lemma ClaimStaysByMonths(s: Schedule, anchor: int, day: int)
    requires Clean(s) && (s.unit == Months || s.unit == Years) && Unlisted(s) && day >= anchor
    ensures OccursOn(s, NextDue(s, day, anchor), anchor) <==> StaysFrom(s, anchor, day)
  {
    NextDueIsLater(s, day, anchor);
    Arithmetic.ShiftOnce(MonthOf(day) - MonthOf(anchor), StepInMonths(s));
  }

  lemma ClaimStaysByDays(s: Schedule, anchor: int, day: int)
    requires Clean(s) && s.unit == Days && day >= anchor
    ensures OccursOn(s, day + s.interval, anchor) <==> StaysFrom(s, anchor, day)
  {
    Arithmetic.ShiftOnce(day - anchor, s.interval);
    assert day + s.interval - anchor == day - anchor + s.interval;
  }

  /** By days or by weeks, a late claim keeps to the schedule exactly when it is late by
      whole intervals. */
  lemma LateByWholeIntervals(s: Schedule, anchor: int, due: int, late: nat)
    requires Clean(s) && OccursOn(s, due, anchor) && (s.unit == Days || (s.unit == Weeks && s.weekdays.None?))
    ensures StaysFrom(s, anchor, due + late)
            <==> late % (if s.unit == Days then s.interval else 7 * s.interval) == 0
  {
    if s.unit == Days {
      LaterByMultiple(due - anchor, late, s.interval);
      assert due + late - anchor == due - anchor + late;
    } else {
      LateByWeeks(s, anchor, due, late);
    }
  }

  lemma LaterByMultiple(x: int, more: int, n: int)
    requires n >= 1 && x % n == 0
    ensures (x + more) % n == 0 <==> more % n == 0
  {
    var q := x / n;
    assert x == q * n;
    Arithmetic.ShiftByMultiple(more, q, n);
  }

  lemma LateByWeeks(s: Schedule, anchor: int, due: int, late: nat)
    requires Clean(s) && s.unit == Weeks && s.weekdays.None? && OccursOn(s, due, anchor)
    ensures StaysFrom(s, anchor, due + late) <==> late % (7 * s.interval) == 0
  {
    SevenTimes(late, s.interval);
    if late % 7 == 0 {
      WeekShift(due, late / 7);
      WeekOfWeek(due, anchor);
      assert (WeekOf(due + late) - WeekOf(anchor)) / 7 == (WeekOf(due) - WeekOf(anchor)) / 7 + late / 7;
      LaterByMultiple((WeekOf(due) - WeekOf(anchor)) / 7, late / 7, s.interval);
    } else {
      AnotherDay(due, late);
    }
  }

  lemma AnotherDay(day: int, more: int)
    requires more % 7 != 0
    ensures Weekday(day + more) != Weekday(day)
  {
  }

  lemma SevenTimes(x: nat, n: int)
    requires n >= 1
    ensures x % (7 * n) == 0 <==> x % 7 == 0 && (x / 7) % n == 0
  {
    var q, r := x / 7 / n, x / 7 % n;
    assert x / 7 == q * n + r;
    assert x == q * (7 * n) + (7 * r + x % 7);
    Arithmetic.DivisionUnique(x, 7 * n, q, 7 * r + x % 7);
  }

  /** Whatever days are to be kept to, a run keeps to them exactly when the first day due
      does and every win leaves one that does. */
  lemma {:induction false} KeptByItsWins(following: int -> int, row: Row, events: seq<Event>, kept: int -> bool, n: nat)
    requires row.nextDue.Some? && n <= |events|
    ensures (forall i :: 0 <= i <= n ==> DueKept(following, row, events, kept, i))
            <==> kept(row.nextDue.value)
                 && forall i :: 0 <= i < n && WonAt(following, row, events, i) ==> kept(following(events[i].day))
  {
    if n == 0 {
      assert DueKept(following, row, events, kept, 0) <==> kept(row.nextDue.value);
    } else {
      KeptByItsWins(following, row, events, kept, n - 1);
      DueGoesOn(following, row, events, kept, n - 1);
      assert DueKept(following, row, events, kept, n - 1 + 1) == DueKept(following, row, events, kept, n);
    }
  }

  lemma DueGoesOn(following: int -> int, row: Row, events: seq<Event>, kept: int -> bool, n: nat)
    requires row.nextDue.Some? && n < |events|
    ensures DueKept(following, row, events, kept, n + 1)
            <==> if WonAt(following, row, events, n) then kept(following(events[n].day))
                 else DueKept(following, row, events, kept, n)
  {
  }

  /** Over any run, on time or late, the day due next is an occurrence throughout exactly
      when every win falls on a day it stays on the schedule from. */
  lemma {:induction false} RunStaysOnSchedule(s: Schedule, anchor: int, row: Row, events: seq<Event>)
    requires Clean(s) && Unlisted(s) && row.nextDue.Some? && OccursOn(s, row.nextDue.value, anchor)
    ensures
      var following := Following(s, Some(anchor));
      RunKept(following, row, events, Occurrences(s, anchor))
      <==> forall i :: 0 <= i < |events| && WonAt(following, row, events, i) ==> StaysFrom(s, anchor, events[i].day)
  {
    var following := Following(s, Some(anchor));
    FollowingIsLater(s, Some(anchor));
    KeptByItsWins(following, row, events, Occurrences(s, anchor), |events|);
    forall i | 0 <= i < |events| && WonAt(following, row, events, i)
      ensures Occurrences(s, anchor)(following(events[i].day)) <==> StaysFrom(s, anchor, events[i].day)
    {
      NeverGoesBack(following, row, events, 0, i);
      ClaimStays(s, anchor, events[i].day);
    }
  }

  /** Over any run whose wins are on time, whatever else happens between them, the
      day due next is an occurrence throughout exactly when the months of its wins
      never show a later day than the one before. */
  lemma RunKeepsToTheSchedule(s: Schedule, anchor: int, row: Row, events: seq<Event>)
    requires Clean(s) && ByAnchorDay(s) && row.nextDue.Some? && OccursOn(s, row.nextDue.value, anchor)
    requires OnTime(Following(s, Some(anchor)), row, events)
    ensures
      var following := Following(s, Some(anchor));
      RunKept(following, row, events, Occurrences(s, anchor))
      <==> Falls(Shown(s, anchor, row.nextDue.value), Won(following, row, events, |events|))
  {
    var following := Following(s, Some(anchor));
    RunVisits(following, row, events, Occurrences(s, anchor));
    OnScheduleWhile(s, anchor, row.nextDue.value, Won(following, row, events, |events|));
    StepsOccurAre(s, anchor, row.nextDue.value, Won(following, row, events, |events|));
  }
}
