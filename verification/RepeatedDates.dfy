/** A pay date that a cadence generates twice (bucket_utils.py), the empty window it
    then pays for, and what that earns (loaf_forecast.py). */
module RepeatedDates {
  import opened Wrappers
  import opened Rounding
  import opened Sorting
  import opened Calendar
  import opened Cadence
  import opened LoafWalk
  import opened Shelf
  import opened Projection
  import Arithmetic
  import Holidays

  ghost predicate Twice(days: seq<int>, d: int) {
    exists i, j :: 0 <= i < j < |days| && days[i] == d && days[j] == d
  }

  lemma {:induction false} TwiceIsCounted(days: seq<int>, d: int)
    ensures Twice(days, d) <==> multiset(days)[d] >= 2
  {
    if |days| > 0 {
      var n := |days| - 1;
      var front := days[..n];
      assert days == front + [days[n]];
      TwiceIsCounted(front, d);
      assert multiset(days)[d] == multiset(front)[d] + if days[n] == d then 1 else 0;
      assert multiset(front)[d] >= 1 <==> d in front;
      TwiceByLast(days, d);
    }
  }

  lemma TwiceByLast(days: seq<int>, d: int)
    requires |days| > 0
    ensures
      var n := |days| - 1;
      Twice(days, d) <==> Twice(days[..n], d) || (days[n] == d && d in days[..n])
  {
    var n := |days| - 1;
    var front := days[..n];
    if Twice(days, d) {
      var i, j :| 0 <= i < j < |days| && days[i] == d && days[j] == d;
      assert front[i] == d;
      assert j < n ==> front[j] == d;
    }
    if days[n] == d && d in front {
      var i :| 0 <= i < n && front[i] == d;
      assert days[i] == d;
    }
    if Twice(front, d) {
      var i, j :| 0 <= i < j < |front| && front[i] == d && front[j] == d;
      assert days[i] == d && days[j] == d;
    }
  }

  // ------------------------------------------------ how often a date is listed

  /** How many of the listed days of a month fall on a date. */
  function Hits(days: seq<MonthDay>, month: int, d: int): nat {
    if days == [] then 0
    else
      var n := |days| - 1;
      Hits(days[..n], month, d) + if MonthDate(month, days[n]) == Some(d) then 1 else 0
  }

  lemma {:induction false} MonthCount(days: seq<MonthDay>, start: int, month: int, end: int, d: int)
    requires start <= d <= end
    ensures multiset(MonthDates(days, start, month, end))[d] == Hits(days, month, d)
  {
    if days != [] {
      MonthCount(days[..|days| - 1], start, month, end, d);
    }
  }

  lemma {:induction false} NoHits(days: seq<MonthDay>, month: int, d: int)
    requires MonthOf(d) != month
    ensures Hits(days, month, d) == 0
  {
    if days != [] {
      NoHits(days[..|days| - 1], month, d);
      if MonthDate(month, days[|days| - 1]).Some? {
        MonthDateInMonth(month, days[|days| - 1]);
      }
    }
  }

  lemma MonthCountAt(days: seq<MonthDay>, start: int, month: int, end: int, d: int, inMonth: int)
    requires start <= d <= end && inMonth == MonthOf(d)
    ensures multiset(MonthDates(days, start, month, end))[d] == if inMonth == month then Hits(days, inMonth, d) else 0
  {
    MonthCount(days, start, month, end, d);
    if inMonth != month {
      NoHits(days, month, d);
    }
  }

  /** The dates generated from a month on. */
  function RawFrom(c: Cadence, start: int, end: int): int -> seq<int>
    requires WellFormed(c)
  {
    month => RawMonths(c, start, month, end)
  }

  lemma RawStep(c: Cadence, start: int, month: int, end: int)
    requires WellFormed(c)
    ensures RawFrom(c, start, end)(month)
         == if month > MonthOf(end) then []
            else MonthDates(DaysOfMonth(c), start, month, end) + RawFrom(c, start, end)(month + c.interval)
  {
  }

  /** How often a date is among them. */
  function Counting(raw: int -> seq<int>, d: int): int -> nat {
    month => multiset(raw(month))[d]
  }

  lemma GridCounts(x: int, first: int, n: int, hits: nat)
    requires n >= 1
    ensures (if Arithmetic.OnGrid(x, first, n) then hits else 0)
         == (if x == first then hits else 0) + (if Arithmetic.OnGrid(x, first + n, n) then hits else 0)
    ensures x < first ==> !Arithmetic.OnGrid(x, first, n)
  {
    Arithmetic.GridStep(x, first, n);
  }

  /** What a grid of months comes to when only one of them counts. */
  function GridHits(month: int, last: int, n: int, inMonth: int, hits: nat): nat
    requires n >= 1
    decreases last - month
  {
    if month > last then 0 else (if inMonth == month then hits else 0) + GridHits(month + n, last, n, inMonth, hits)
  }

  lemma {:induction false} GridHitsAre(month: int, last: int, n: int, inMonth: int, hits: nat)
    requires n >= 1 && inMonth <= last
    ensures GridHits(month, last, n, inMonth, hits) == if Arithmetic.OnGrid(inMonth, month, n) then hits else 0
    decreases last - month
  {
    GridCounts(inMonth, month, n, hits);
    if month <= last {
      GridHitsAre(month + n, last, n, inMonth, hits);
    }
  }

  ghost predicate Steps(counts: int -> nat, month: int, last: int, n: int, inMonth: int, hits: nat) {
    counts(month) == if month > last then 0 else (if inMonth == month then hits else 0) + counts(month + n)
  }

  lemma {:induction false} StepsAdd(counts: int -> nat, month: int, last: int, n: int, inMonth: int, hits: nat)
    requires n >= 1 && forall m :: Steps(counts, m, last, n, inMonth, hits)
    ensures counts(month) == GridHits(month, last, n, inMonth, hits)
    decreases last - month
  {
    assert Steps(counts, month, last, n, inMonth, hits);
    if month <= last {
      StepsAdd(counts, month + n, last, n, inMonth, hits);
    }
  }

  function GeneratedFrom(c: Cadence, start: int, end: int, d: int): int -> nat
    requires WellFormed(c)
  {
    Counting(RawFrom(c, start, end), d)
  }

  lemma CountingSteps(raw: int -> seq<int>, now: seq<int>, month: int, last: int, n: int, d: int, inMonth: int,
                      hits: nat)
    requires raw(month) == if month > last then [] else now + raw(month + n)
    requires multiset(now)[d] == if inMonth == month then hits else 0
    ensures Steps(Counting(raw, d), month, last, n, inMonth, hits)
  {
  }

  lemma CountsStep(c: Cadence, days: seq<MonthDay>, start: int, month: int, end: int, d: int, inMonth: int, last: int,
                   hits: nat)
    requires WellFormed(c) && start <= d <= end && inMonth == MonthOf(d) && last == MonthOf(end)
    requires days == DaysOfMonth(c) && hits == Hits(days, inMonth, d)
    ensures Steps(GeneratedFrom(c, start, end, d), month, last, c.interval, inMonth, hits)
  {
    RawStep(c, start, month, end);
    MonthCountAt(days, start, month, end, d, inMonth);
    CountingSteps(RawFrom(c, start, end), MonthDates(days, start, month, end), month, last, c.interval, d, inMonth,
                  hits);
  }

  /** A date of the series is generated once for each listed day that falls on it. */
  lemma MonthsCount(c: Cadence, days: seq<MonthDay>, start: int, month: int, end: int, d: int, inMonth: int, last: int,
                    hits: nat)
    requires WellFormed(c) && start <= d <= end && inMonth == MonthOf(d) && last == MonthOf(end) && inMonth <= last
    requires days == DaysOfMonth(c) && hits == Hits(days, inMonth, d)
    ensures GeneratedFrom(c, start, end, d)(month) == if Arithmetic.OnGrid(inMonth, month, c.interval) then hits else 0
  {
    var counts := GeneratedFrom(c, start, end, d);
    forall m ensures Steps(counts, m, last, c.interval, inMonth, hits) {
      CountsStep(c, days, start, m, end, d, inMonth, last, hits);
    }
    StepsAdd(counts, month, last, c.interval, inMonth, hits);
    GridHitsAre(month, last, c.interval, inMonth, hits);
  }

  ghost predicate DistinctDays(days: seq<MonthDay>) {
    forall i, j :: 0 <= i < j < |days| ==> days[i] != days[j]
  }

  /** Listed without repeats, a date is hit by its own number, by the last day, or by
      both when it is the last. */
  lemma {:induction false} HitsAre(days: seq<MonthDay>, d: int)
    requires DistinctDays(days)
    ensures Hits(days, MonthOf(d), d)
         == (if Day(DayOf(d)) in days then 1 else 0)
            + (if LastDay in days && DayOf(d) == MonthLength(MonthOf(d)) then 1 else 0)
  {
    if days != [] {
      var n := |days| - 1;
      assert days == days[..n] + [days[n]];
      HitsAre(days[..n], d);
      HitOne(days[n], d);
    }
  }

  lemma HitOne(day: MonthDay, d: int)
    ensures MonthDate(MonthOf(d), day) == Some(d)
            <==> day == Day(DayOf(d)) || (day == LastDay && DayOf(d) == MonthLength(MonthOf(d)))
  {
    assert d == DateOf(MonthOf(d), DayOf(d));
  }

  /** The date is the last of its month, and is listed both as that and by number. */
  predicate ListedTwice(c: Cadence, d: int) {
    Day(DayOf(d)) in DaysOfMonth(c) && LastDay in DaysOfMonth(c) && DayOf(d) == MonthLength(MonthOf(d))
  }

  /** By the month, a date of the series is generated twice exactly then. */
  lemma GeneratedTwice(c: Cadence, start: int, end: int, d: int)
    requires WellFormed(c) && c.unit == Months && DistinctDays(DaysOfMonth(c))
    requires d in OccurrenceDates(c, start, end)
    ensures Twice(OccurrenceDates(c, start, end), d) <==> ListedTwice(c, d)
  {
    GeneratesTheSeries(c, start, end, d);
    MonthOfMonotone(d, end);
    var days := DaysOfMonth(c);
    MonthsCount(c, days, start, MonthOf(start), end, d, MonthOf(d), MonthOf(end), Hits(days, MonthOf(d), d));
    HitsAre(days, d);
    SortPermutes(Raw(c, start, end), LessEq);
    TwiceIsCounted(OccurrenceDates(c, start, end), d);
  }

  /** The 30th and the last day of the month are one date in a month of thirty days,
      and it is generated twice. */
  lemma ThirtiethRepeats(c: Cadence, month: int, end: int)
    requires c == Cadence(1, Months, [], Some([Day(30), LastDay]), None)
    requires MonthLength(month) == 30 && DateOf(month, 30) <= end
    ensures Twice(OccurrenceDates(c, MonthStart(month), end), DateOf(month, 30))
  {
    var d := DateOf(month, 30);
    assert DaysOfMonth(c)[0] == Day(30) && DaysOfMonth(c)[1] == LastDay;
    HitOne(Day(30), d);
    assert OnMonthDay(c, d);
    MonthOfUnique(MonthStart(month), month);
    GeneratesTheSeries(c, MonthStart(month), end, d);
    GeneratedTwice(c, MonthStart(month), end, d);
  }

  // --------------------------------------------------- what its window earns

  /** The window of a monthly pay date is empty exactly when the date is the last of
      its month and listed twice over. */
  lemma WindowIsEmpty(shelf: Shelf, basket: Basket, start: int, end: int, d: int)
    requires Sound(shelf) && basket.accrual.Some? && shelf.anchor.Some? && d in PayDays(shelf, basket, start, end)
    requires shelf.cadence.unit == Months && DistinctDays(DaysOfMonth(shelf.cadence))
    ensures WindowStart(shelf, PayDays(shelf, basket, start, end), start, d) == d <==> ListedTwice(shelf.cadence, d)
  {
    var days := PayDays(shelf, basket, start, end);
    var from := GenerateFrom(shelf.cadence, shelf.anchor.value, start);
    LessEqIsTotal();
    SortOrders(Raw(shelf.cadence, from, end), LessEq);
    EmptyWindow(days, PayDateBefore(shelf.cadence, days[0]), d);
    GeneratedTwice(shelf.cadence, from, end, d);
  }

  /** Pro-rated over an empty window, a pay date earns nothing when the week is walked
      to find the hours in it, and the whole accrual when the employer fixes them. */
  lemma EmptyWindowEarns(shelf: Shelf, basket: Basket, absence: Hours, d: int)
    requires basket.accrual.Some? && basket.prorated
    ensures EarnedOn(shelf, basket, absence, d, d)
         == if shelf.periodHours > 0 then RoundHalfEven(basket.accrual.value) else 0
  {
    NothingInNoDays(shelf, absence, d);
    if shelf.periodHours > 0 {
      WholePortion(basket.accrual.value, shelf.periodHours);
    }
  }

  lemma WholePortion(accrual: real, scheduled: nat)
    requires scheduled > 0
    ensures Portion(accrual, scheduled, scheduled) == accrual
  {
    assert scheduled as real / scheduled as real == 1.0;
  }

  lemma NothingInNoDays(shelf: Shelf, absence: Hours, d: int)
    ensures Sum(absence, d + 1, d) == 0 && AsHours(MinutesFrom(shelf, d + 1, d)) == 0 && HolidayHours(shelf, d, d) == 0
  {
    assert AsHours(0) == 0;
    NoDaysShut(shelf, d);
  }

  lemma NoDaysShut(shelf: Shelf, d: int)
    ensures Shut(shelf, d + 1, d) == {}
  {
    EmptySpan(Holidays.YearDays(shelf.holidays, shelf.own), YearOfDay(d + 1), Holidays.YearsSpanned(d + 1, d),
              d + 1, d);
  }

  lemma {:induction false} EmptySpan(yearDays: int -> set<int>, firstYear: int, years: nat, first: int, last: int)
    requires last < first
    ensures Holidays.SpanDays(yearDays, firstYear, years, first, last) == {}
  {
    if years > 0 {
      EmptySpan(yearDays, firstYear, years - 1, first, last);
    }
  }

  /** Paid on the 30th and on the last day, pro-rated by the week as worked: in a month
      of thirty days that pay date earns nothing, whatever was worked up to it. */
  lemma ThirtiethAndLast(shelf: Shelf, basket: Basket, absence: Hours, start: int, end: int, d: int)
    requires Sound(shelf) && basket.accrual.Some? && shelf.anchor.Some? && basket.prorated && shelf.periodHours <= 0
    requires shelf.cadence.unit == Months && shelf.cadence.monthlyDays == Some([Day(30), LastDay])
    requires d in PayDays(shelf, basket, start, end) && d > start && DayOf(d) == MonthLength(MonthOf(d)) == 30
    ensures Earned(shelf, basket, absence, start, PayDays(shelf, basket, start, end))[d] == 0
  {
    assert DaysOfMonth(shelf.cadence) == [Day(30), LastDay];
    WindowIsEmpty(shelf, basket, start, end, d);
    EmptyWindowEarns(shelf, basket, absence, d);
  }
}
