/** The job behind a basket (loaf_data.py's working-week functions and the
    counting of hours in loaf_forecast.py). Hours are whole hundredths. */
module Shelf {
  import opened Wrappers
  import opened Rounding
  import opened Sorting
  import opened Calendar
  import opened Cadence
  import opened LoafWalk
  import Holidays

  /** Minutes from midnight. */
  datatype Shift = Shift(start: int, end: int, pause: int)

  datatype Shelf = Shelf(
    cadence: Cadence, anchor: Option<int>,
    yearMonth: int, yearDay: int, periodHours: int,
    week: map<DayOfWeek, Shift>, accrualOnly: set<DayOfWeek>, uncharged: set<DayOfWeek>,
    holidays: seq<Holidays.Holiday>, own: seq<Holidays.OwnHoliday>)

  ghost predicate Sound(shelf: Shelf) {
    WellFormed(shelf.cadence) && 1 <= shelf.yearDay
  }

  // ------------------------------------------------------- the working week

  /** schedule_for: a shift that ends before it starts is a day not worked. */
  function ScheduleFor(shelf: Shelf, weekday: DayOfWeek): Option<Shift> {
    if weekday in shelf.week && shelf.week[weekday].end > shelf.week[weekday].start
    then
      var shift := shelf.week[weekday];
      Some(shift.(pause := if shift.pause > 0 then shift.pause else 0))
    else None
  }

  /** From start to end less the pause; nothing when that leaves nothing. */
  function ScheduledMinutes(shelf: Shelf, weekday: DayOfWeek): (minutes: nat)
    ensures weekday !in shelf.week ==> minutes == 0
    ensures weekday in shelf.week ==>
              var span, pause := shelf.week[weekday].end - shelf.week[weekday].start, shelf.week[weekday].pause;
              minutes == if span <= 0 || span <= pause then 0 else if pause <= 0 then span else span - pause
  {
    match ScheduleFor(shelf, weekday)
    case None => 0
    case Some(shift) =>
      var worked := shift.end - shift.start - shift.pause;
      if worked > 0 then worked else 0
  }

  predicate Attends(shelf: Shelf, weekday: DayOfWeek) {
    weekday !in shelf.accrualOnly
  }

  predicate Charges(shelf: Shelf, weekday: DayOfWeek) {
    weekday !in shelf.uncharged
  }

  /** round(minutes / 60, 2), in hundredths of an hour. */
  function AsHours(minutes: nat): (hours: nat)
    ensures hours == RoundHalfEven(minutes as real * 100.0 / 60.0)
  {
    assert minutes as real / 0.6 == minutes as real * 100.0 / 60.0;
    RoundHalfEvenMonotone(0.0, minutes as real / 0.6);
    RoundHalfEven(minutes as real / 0.6)
  }

  function Shut(shelf: Shelf, first: int, last: int): set<int> {
    Holidays.DatesBetween(shelf.holidays, shelf.own, first, last)
  }

  // ---------------------------------------------------- hours in a period

  function MinutesFrom(shelf: Shelf, first: int, last: int): nat
    decreases last - first
  {
    if last < first then 0
    else MinutesFrom(shelf, first, last - 1) + ScheduledMinutes(shelf, Weekday(last))
  }

  /** Day after day, from the first to the last; none when they are the wrong way round. */
  lemma MinutesDayByDay(shelf: Shelf, first: int, last: int)
    ensures last < first ==> MinutesFrom(shelf, first, last) == 0
    ensures first <= last ==>
      MinutesFrom(shelf, first, last) == MinutesFrom(shelf, first, last - 1) + ScheduledMinutes(shelf, Weekday(last))
  {
  }

  /** _scheduled_hours_between: what the week says is worked in (after, through]. */
  method ScheduledHoursBetween(shelf: Shelf, after: int, through: int) returns (hours: nat)
    ensures hours == AsHours(MinutesFrom(shelf, after + 1, through))
  {
    var minutes := 0;
    var day := after + 1;
    while day <= through
      invariant after + 1 <= day
      invariant minutes == MinutesFrom(shelf, after + 1, day - 1)
      invariant day <= through + 1 || day == after + 1
      decreases through - day
    {
      minutes := minutes + ScheduledMinutes(shelf, Weekday(day));
      day := day + 1;
    }
    assert minutes == MinutesFrom(shelf, after + 1, through);
    hours := AsHours(minutes);
  }

  /** The minutes of a list of days, on the weekdays somebody attends. */
  function AttendedMinutes(shelf: Shelf, days: seq<int>): nat {
    if days == [] then 0
    else
      var n := |days| - 1;
      AttendedMinutes(shelf, days[..n])
      + if Attends(shelf, Weekday(days[n])) then ScheduledMinutes(shelf, Weekday(days[n])) else 0
  }

  /** A shut day more takes away what its weekday has scheduled, if anybody attends it. */
  lemma OneMoreShut(shelf: Shelf, days: seq<int>, day: int)
    ensures AttendedMinutes(shelf, []) == 0
    ensures Weekday(day) in shelf.accrualOnly ==> AttendedMinutes(shelf, days + [day]) == AttendedMinutes(shelf, days)
    ensures Weekday(day) !in shelf.accrualOnly ==>
      AttendedMinutes(shelf, days + [day]) == AttendedMinutes(shelf, days) + ScheduledMinutes(shelf, Weekday(day))
  {
    assert (days + [day])[..|days|] == days;
  }

  /** The days listed are the shut days of the period, each once and in order. */
  lemma {:induction false} ShutHours(shelf: Shelf, after: int, through: int) returns (days: seq<int>)
    ensures forall d :: d in days <==> d in Holidays.DatesBetween(shelf.holidays, shelf.own, after + 1, through)
    ensures forall i, j :: 0 <= i < j < |days| ==> days[i] < days[j]
    ensures HolidayHours(shelf, after, through) == AsHours(AttendedMinutes(shelf, days))
  {
    days := AscendingList(Shut(shelf, after + 1, through));
    AscendingListIs(Shut(shelf, after + 1, through));
  }

  /** _holiday_hours_between: hours lost to the office being shut in (after, through]. */
  function HolidayHours(shelf: Shelf, after: int, through: int): nat {
    AsHours(AttendedMinutes(shelf, AscendingList(Shut(shelf, after + 1, through))))
  }

  method HolidayHoursBetween(shelf: Shelf, after: int, through: int) returns (hours: nat)
    ensures hours == HolidayHours(shelf, after, through)
  {
    var minutes := SumAttended(shelf, AscendingList(Shut(shelf, after + 1, through)));
    hours := AsHours(minutes);
  }

  /** Its loop, over the days in turn. */
  method SumAttended(shelf: Shelf, days: seq<int>) returns (minutes: nat)
    ensures minutes == AttendedMinutes(shelf, days)
  {
    minutes := 0;
    for k := 0 to |days|
      invariant minutes == AttendedMinutes(shelf, days[..k])
    {
      assert days[..k + 1][..k] == days[..k];
      if !Attends(shelf, Weekday(days[k])) {
        continue;
      }
      minutes := minutes + ScheduledMinutes(shelf, Weekday(days[k]));
    }
    assert days[..|days|] == days;
  }

  // -------------------------------------------------------- the leave year

  /** When one calendar year's leave year turns; a day the month lacks is its last. */
  function Turn(shelf: Shelf, year: int): int
    requires Sound(shelf)
  {
    var m := if shelf.yearMonth < 1 then 1 else if shelf.yearMonth > 12 then 12 else shelf.yearMonth;
    var month := 12 * (year - 1) + m - 1;
    DateOf(month, if shelf.yearDay <= MonthLength(month) then shelf.yearDay else MonthLength(month))
  }

  function TurnOf(shelf: Shelf): int -> set<int>
    requires Sound(shelf)
  {
    year => {Turn(shelf, year)}
  }

  /** _year_turns: the turns in (after, through]. */
  function YearTurns(shelf: Shelf, after: int, through: int): set<int>
    requires Sound(shelf)
  {
    Holidays.SpanDays(TurnOf(shelf), YearOfDay(after), Holidays.YearsSpanned(after, through), after + 1, through)
  }

  /** The leave year turns in its month, the first or the last of the year for a number no
      month has, on the day stated or the last of a month that is shorter. */
  lemma TurnIs(shelf: Shelf, year: int)
    requires Sound(shelf)
    ensures
      var turn, month := Turn(shelf, year), MonthOf(Turn(shelf, year)) - 12 * (year - 1) + 1;
      && (month == shelf.yearMonth || (month == 1 && shelf.yearMonth < 1) || (month == 12 && shelf.yearMonth > 12))
      && DayOf(turn) <= shelf.yearDay && (DayOf(turn) < shelf.yearDay ==> DayOf(turn + 1) == 1)
  {
    var month := MonthOf(Turn(shelf, year));
    NextMonthStart(month);
    if DayOf(Turn(shelf, year)) == MonthLength(month) {
      MonthOfUnique(Turn(shelf, year) + 1, month + 1);
    }
  }

  lemma TurnInYear(shelf: Shelf, year: int)
    requires Sound(shelf)
    ensures YearOfDay(Turn(shelf, year)) == year
  {
  }

  lemma TurnsInOrder(shelf: Shelf, year: int, later: int)
    requires Sound(shelf) && year < later
    ensures Turn(shelf, year) < Turn(shelf, later)
  {
    TurnInYear(shelf, year);
    TurnInYear(shelf, later);
    EarlierMonthEarlierDay(Turn(shelf, year), Turn(shelf, later));
  }

  lemma TurnOfIs(shelf: Shelf, year: int, day: int)
    requires Sound(shelf)
    ensures day in TurnOf(shelf)(year) <==> year == YearOfDay(day) && day == Turn(shelf, year)
  {
    TurnInYear(shelf, year);
  }

  lemma YearTurnsAre(shelf: Shelf, after: int, through: int, day: int)
    requires Sound(shelf)
    ensures day in YearTurns(shelf, after, through)
       <==> after < day <= through && day == Turn(shelf, YearOfDay(day))
  {
    Holidays.SpanHas(TurnOf(shelf), YearOfDay(after), Holidays.YearsSpanned(after, through), after + 1, through, day);
    forall y ensures day in TurnOf(shelf)(y) ==> y == YearOfDay(day) && day == Turn(shelf, y) {
      TurnOfIs(shelf, y, day);
    }
    if after < day <= through {
      Holidays.SpanYears(after, through, day);
      TurnOfIs(shelf, YearOfDay(day), day);
    }
  }

  /** The year a date falls in began at the last turn on or before it. */
  function YearBegun(shelf: Shelf, when: int): int
    requires Sound(shelf)
  {
    if Turn(shelf, YearOfDay(when)) > when then YearOfDay(when) - 1 else YearOfDay(when)
  }

  /** accrual_year_bounds. */
  function YearBounds(shelf: Shelf, when: int): (int, int)
    requires Sound(shelf)
  {
    (Turn(shelf, YearBegun(shelf, when)), Turn(shelf, YearBegun(shelf, when) + 1) - 1)
  }

  lemma TurnsAround(shelf: Shelf, when: int)
    requires Sound(shelf)
    ensures Turn(shelf, YearOfDay(when) - 1) < when < Turn(shelf, YearOfDay(when) + 1)
  {
    TurnInYear(shelf, YearOfDay(when) - 1);
    TurnInYear(shelf, YearOfDay(when) + 1);
    EarlierMonthEarlierDay(Turn(shelf, YearOfDay(when) - 1), when);
    EarlierMonthEarlierDay(when, Turn(shelf, YearOfDay(when) + 1));
  }

  lemma NoTurnBetween(shelf: Shelf, begun: int, year: int)
    requires Sound(shelf)
    ensures !(Turn(shelf, begun) < Turn(shelf, year) < Turn(shelf, begun + 1))
  {
    if year < begun {
      TurnsInOrder(shelf, year, begun);
    } else if begun + 1 < year {
      TurnsInOrder(shelf, begun + 1, year);
    }
  }

  /** The year holds its date, and no other turn falls inside it. */
  lemma YearBoundsHold(shelf: Shelf, when: int, year: int)
    requires Sound(shelf)
    ensures YearBounds(shelf, when).0 <= when <= YearBounds(shelf, when).1
    ensures !(YearBounds(shelf, when).0 < Turn(shelf, year) <= YearBounds(shelf, when).1)
  {
    TurnsAround(shelf, when);
    NoTurnBetween(shelf, YearBegun(shelf, when), year);
  }

  /** Leave years tile time: the day after one ends the next begins. */
  lemma YearsTile(shelf: Shelf, when: int)
    requires Sound(shelf)
    ensures YearBounds(shelf, YearBounds(shelf, when).1 + 1).0 == YearBounds(shelf, when).1 + 1
  {
    TurnInYear(shelf, YearBegun(shelf, when) + 1);
  }

  // ------------------------------------------------------------ what is earned

  datatype Basket = Basket(
    id: int, startingDate: Option<int>, startingHours: int,
    accrual: Option<real>, prorated: bool, grant: Option<int>,
    carryover: Carryover, ceiling: Option<int>, checkedOn: Option<int>)

  /** The hours of a period that are not worked; `absence` is every pool's on the job. */
  function Worked(scheduled: nat, absent: int, shut: nat): (worked: int)
    ensures 0 <= worked
  {
    if scheduled - absent - shut > 0 then scheduled - absent - shut else 0
  }

  function Prorated(accrual: real, worked: int, scheduled: nat): int {
    if scheduled > 0 then RoundHalfEven(Portion(accrual, worked, scheduled)) else 0
  }

  function PeriodScheduled(shelf: Shelf, windowStart: int, when: int): nat {
    if shelf.periodHours > 0 then shelf.periodHours
    else AsHours(MinutesFrom(shelf, windowStart + 1, when))
  }

  /** What one pay date earns before the ceiling. */
  function EarnedOn(shelf: Shelf, basket: Basket, absence: Hours, windowStart: int, when: int): int
    requires basket.accrual.Some?
  {
    if !basket.prorated then RoundHalfEven(basket.accrual.value)
    else
      Prorated(basket.accrual.value,
               Worked(PeriodScheduled(shelf, windowStart, when), Sum(absence, windowStart + 1, when),
                      HolidayHours(shelf, windowStart, when)),
               PeriodScheduled(shelf, windowStart, when))
  }

  /** So many parts of what a period earns: over the whole of it they come to the accrual for
      every part worked. */
  lemma PortionIs(accrual: real, worked: int, scheduled: nat)
    requires scheduled > 0
    ensures Portion(accrual, worked, scheduled) * scheduled as real == accrual * worked as real
    ensures worked == 0 ==> Portion(accrual, worked, scheduled) == 0.0
  {
    var share, parts := worked as real / scheduled as real, scheduled as real;
    assert share * parts == worked as real;
    Regroup(accrual, share, parts);
  }

  lemma Regroup(x: real, y: real, z: real)
    ensures x * y * z == x * (y * z)
  {
  }

  /** What one part of so many is, of what they come to in all. */
  ghost predicate IsPart(part: real, counted: nat, accrual: real, worked: int) {
    part * counted as real == accrual * worked as real
  }

  lemma ProratedIs(accrual: real, counted: nat, absent: int, shut: nat) returns (part: real)
    ensures counted == 0 || absent + shut >= counted ==> Prorated(accrual, Worked(counted, absent, shut), counted) == 0
    ensures 0 < counted && absent + shut < counted ==>
      && IsPart(part, counted, accrual, counted - absent - shut)
      && Prorated(accrual, Worked(counted, absent, shut), counted) == RoundHalfEven(part)
  {
    part := 0.0;
    if counted > 0 {
      var worked := Worked(counted, absent, shut);
      PortionIs(accrual, worked, counted);
      part := Portion(accrual, worked, counted);
    }
  }

  /** A pay date earns the stated hours outright; or the part of them that was worked, of the
      hours the employer counts in a period or else those the week has in it, less every hour
      away and every hour shut. */
  lemma EarnedIs(shelf: Shelf, basket: Basket, absence: Hours, windowStart: int, when: int)
    returns (counted: nat, away: int, part: real)
    requires basket.accrual.Some?
    ensures !basket.prorated ==>
      EarnedOn(shelf, basket, absence, windowStart, when) == RoundHalfEven(basket.accrual.value)
    ensures shelf.periodHours > 0 ==> counted == shelf.periodHours
    ensures shelf.periodHours <= 0 ==> counted == AsHours(MinutesFrom(shelf, windowStart + 1, when))
    ensures away == Sum(absence, windowStart + 1, when) + HolidayHours(shelf, windowStart, when)
    ensures basket.prorated && (counted == 0 || away >= counted) ==>
      EarnedOn(shelf, basket, absence, windowStart, when) == 0
    ensures basket.prorated && 0 < counted && away < counted ==>
      && IsPart(part, counted, basket.accrual.value, counted - away)
      && EarnedOn(shelf, basket, absence, windowStart, when) == RoundHalfEven(part)
  {
    var absent, shut := Sum(absence, windowStart + 1, when), HolidayHours(shelf, windowStart, when);
    counted, away := PeriodScheduled(shelf, windowStart, when), absent + shut;
    part := ProratedIs(basket.accrual.value, counted, absent, shut);
  }

  lemma {:induction false} SumMonotone(less: Hours, more: Hours, a: int, b: int)
    requires TakesMore(less, more)
    ensures Sum(less, a, b) <= Sum(more, a, b)
    decreases b - a
  {
    if a <= b {
      SumMonotone(less, more, a, b - 1);
      assert On(less, b) <= On(more, b);
    }
  }

  function Portion(accrual: real, worked: int, scheduled: nat): real
    requires scheduled > 0
  {
    accrual * (worked as real / scheduled as real)
  }

  lemma PortionMonotone(accrual: real, less: int, more: int, scheduled: nat)
    requires 0.0 <= accrual && less <= more && scheduled > 0
    ensures Portion(accrual, less, scheduled) <= Portion(accrual, more, scheduled)
  {
    var low, high := less as real / scheduled as real, more as real / scheduled as real;
    assert low <= high;
    ScaleMonotone(accrual, low, high);
  }

  lemma ProratedMonotone(accrual: real, less: int, more: int, scheduled: nat)
    requires 0.0 <= accrual && less <= more
    ensures Prorated(accrual, less, scheduled) <= Prorated(accrual, more, scheduled)
  {
    if scheduled > 0 {
      PortionMonotone(accrual, less, more, scheduled);
      RoundHalfEvenMonotone(Portion(accrual, less, scheduled), Portion(accrual, more, scheduled));
    }
  }

  /** Being away more never earns more. */
  lemma AbsenceNeverEarns(shelf: Shelf, basket: Basket, absence: Hours, more: Hours, windowStart: int, when: int)
    requires basket.accrual.Some? && 0.0 <= basket.accrual.value
    requires TakesMore(absence, more)
    ensures EarnedOn(shelf, basket, more, windowStart, when) <= EarnedOn(shelf, basket, absence, windowStart, when)
    ensures !basket.prorated ==>
      EarnedOn(shelf, basket, more, windowStart, when) == EarnedOn(shelf, basket, absence, windowStart, when)
  {
    if basket.prorated {
      var scheduled := PeriodScheduled(shelf, windowStart, when);
      var shut := HolidayHours(shelf, windowStart, when);
      SumMonotone(absence, more, windowStart + 1, when);
      ProratedMonotone(basket.accrual.value,
                       Worked(scheduled, Sum(more, windowStart + 1, when), shut),
                       Worked(scheduled, Sum(absence, windowStart + 1, when), shut), scheduled);
    }
  }
}
