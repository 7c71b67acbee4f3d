/** loaf_app.py, Test Time Off beside the booking once saved: the preview counts what a
    booking is charged into the job's absence, where a saved one counts the hours away. */
module Preview {
  import opened Wrappers
  import opened Rounding
  import opened Calendar
  import opened Cadence
  import opened LoafWalk
  import opened Shelf
  import opened Projection
  import Backfill
  import Bookings
  import Holidays
  import Sorting
  import UnbilledDays

  /** What the booking is charged, and the hours it is away. */
  function Price(shelf: Shelf, e: Bookings.Entry): Hours {
    Bookings.Split(shelf, e, true)
  }

  function Away(shelf: Shelf, e: Bookings.Entry): Hours {
    Bookings.Split(shelf, e, false)
  }

  /** A booking's hours away are its price on every day exactly when no weekday of it
      that is worked goes unbilled. */
  lemma {:induction false} PriceIsAway(shelf: Shelf, e: Bookings.Entry)
    requires !e.cancelled && Bookings.EntryHours(shelf, e) > 0
    ensures (forall d :: On(Price(shelf, e), d) == On(Away(shelf, e), d))
            <==> forall d :: d in Bookings.HoursByDate(shelf, e, false) ==> Bookings.Billed(shelf, d)
  {
    forall d
      ensures On(Price(shelf, e), d) == On(Away(shelf, e), d)
              <==> (d in Bookings.HoursByDate(shelf, e, false) ==> Bookings.Billed(shelf, d))
    {
      PriceIsAwayOn(shelf, e, d);
    }
  }

  lemma PriceIsAwayOn(shelf: Shelf, e: Bookings.Entry, d: int)
    requires !e.cancelled && Bookings.EntryHours(shelf, e) > 0
    ensures On(Price(shelf, e), d) == On(Away(shelf, e), d)
            <==> (d in Bookings.HoursByDate(shelf, e, false) ==> Bookings.Billed(shelf, d))
    ensures On(Price(shelf, e), d) <= On(Away(shelf, e), d)
  {
    Bookings.PriceAndAbsenceAgree(shelf, e, d);
    if !Bookings.Billed(shelf, d) {
      FreeDayAway(shelf, e, d);
    }
  }

  /** A day nobody bills keeps its own hours away, typed total or not. */
  lemma FreeDayAway(shelf: Shelf, e: Bookings.Entry, d: int)
    requires !e.cancelled && Bookings.EntryHours(shelf, e) > 0 && !Bookings.Billed(shelf, d)
    ensures On(Away(shelf, e), d) == On(Bookings.HoursByDate(shelf, e, false), d)
    ensures d in Bookings.HoursByDate(shelf, e, false) <==> On(Away(shelf, e), d) > 0
    ensures On(Price(shelf, e), d) == 0
  {
    Bookings.PriceIsBilledAbsence(shelf, e, d);
    Bookings.PriceAndAbsenceAgree(shelf, e, d);
    if e.overridden {
      Bookings.ChargedIsThePrice(shelf, e);
      Bookings.AwayCostsAtLeastThePrice(shelf, e);
    }
  }

  /** The balance the preview shows, and the one projected once the booking is saved. */
  ghost function Previewed(shelf: Shelf, basket: Basket, usage: Hours, absence: Hours, e: Bookings.Entry, through: int,
                           today: int, credits: Hours, when: int): int
    requires Sound(shelf)
  {
    Balance(shelf, basket, Plus(usage, Price(shelf, e)), Plus(absence, Price(shelf, e)),
            through, today, credits, false, when)
  }

  ghost function Saved(shelf: Shelf, basket: Basket, usage: Hours, absence: Hours, e: Bookings.Entry, through: int,
                       today: int, credits: Hours, when: int): int
    requires Sound(shelf)
  {
    Balance(shelf, basket, Plus(usage, Price(shelf, e)), Plus(absence, Away(shelf, e)),
            through, today, credits, false, when)
  }

  /** More hours away never leave more, and on a flat accrual leave the same. */
  lemma MoreAway(shelf: Shelf, basket: Basket, usage: Hours, absence: Hours, more: Hours, through: int, today: int,
                 credits: Hours, when: int)
    requires Sound(shelf) && TakesMore(absence, more) && (basket.accrual.Some? ==> basket.accrual.value >= 0.0)
    ensures Balance(shelf, basket, usage, more, through, today, credits, false, when)
         <= Balance(shelf, basket, usage, absence, through, today, credits, false, when)
    ensures !basket.prorated ==>
      Balance(shelf, basket, usage, more, through, today, credits, false, when)
      == Balance(shelf, basket, usage, absence, through, today, credits, false, when)
  {
    var t := TermsOf(shelf, basket, absence, through, today, false);
    var less := TermsOf(shelf, basket, more, through, today, false);
    AbsenceEarnsLess(shelf, basket, absence, more, through, today);
    TimeOffCosts(t, less, usage, usage, credits, when);
  }

  /** Saving never leaves more than the preview showed; and leaves the same, whatever
      the day, on a flat accrual or when every worked day of the booking is billed. */
  lemma {:induction false} PreviewAndSaved(shelf: Shelf, basket: Basket, usage: Hours, absence: Hours,
                                           e: Bookings.Entry, through: int, today: int, credits: Hours, when: int)
    requires Sound(shelf) && !e.cancelled && Bookings.EntryHours(shelf, e) > 0
    requires basket.accrual.Some? ==> basket.accrual.value >= 0.0
    ensures Saved(shelf, basket, usage, absence, e, through, today, credits, when)
         <= Previewed(shelf, basket, usage, absence, e, through, today, credits, when)
    ensures !basket.prorated
            || (forall d :: d in Bookings.HoursByDate(shelf, e, false) ==> Bookings.Billed(shelf, d))
            ==> Saved(shelf, basket, usage, absence, e, through, today, credits, when)
                == Previewed(shelf, basket, usage, absence, e, through, today, credits, when)
  {
    var price, away := Plus(absence, Price(shelf, e)), Plus(absence, Away(shelf, e));
    var spent := Plus(usage, Price(shelf, e));
    forall d ensures On(price, d) <= On(away, d) {
      PriceIsAwayOn(shelf, e, d);
    }
    MoreAway(shelf, basket, spent, price, away, through, today, credits, when);
    if forall d :: d in Bookings.HoursByDate(shelf, e, false) ==> Bookings.Billed(shelf, d) {
      PriceIsAway(shelf, e);
      MoreAway(shelf, basket, spent, away, price, through, today, credits, when);
    }
  }

  // ------------------------------------------------ when saving leaves less

  /** The pay dates of a job for a basket begun on a day. */
  function PaidOn(shelf: Shelf, start: int, end: int): seq<int>
    requires Sound(shelf)
  {
    if shelf.anchor.Some?
    then OccurrenceDates(shelf.cadence, GenerateFrom(shelf.cadence, shelf.anchor.value, start), end)
    else []
  }

  /** A window from which saving takes hours that the preview did not, and in which the
      preview had some left to take. */
  ghost predicate Costs(shelf: Shelf, e: Bookings.Entry, windowStart: int, when: int) {
    && Sum(Price(shelf, e), windowStart + 1, when) < Sum(Away(shelf, e), windowStart + 1, when)
    && Sum(Price(shelf, e), windowStart + 1, when) + HolidayHours(shelf, windowStart, when)
       < PeriodScheduled(shelf, windowStart, when)
  }

  /** A pay date with such a window, of a basket begun before it. */
  ghost predicate CostsOn(shelf: Shelf, e: Bookings.Entry, start: int, when: int)
    requires Sound(shelf)
  {
    start < when && when in PaidOn(shelf, start, when)
    && Costs(shelf, e, WindowStart(shelf, PaidOn(shelf, start, when), start, when), when)
  }

  ghost predicate Sane(basket: Basket, absence: Hours) {
    (basket.accrual.Some? ==> basket.accrual.value >= 0.0) && forall d :: On(absence, d) >= 0
  }

  /** Saved or previewed, every basket reads the same on every day. */
  ghost predicate SavedTheSame(shelf: Shelf, e: Bookings.Entry)
    requires Sound(shelf)
  {
    forall basket: Basket, usage, absence, through, today, credits, when :: Sane(basket, absence) ==>
      Saved(shelf, basket, usage, absence, e, through, today, credits, when)
      == Previewed(shelf, basket, usage, absence, e, through, today, credits, when)
  }

  lemma NothingCosts(shelf: Shelf, basket: Basket, absence: Hours, e: Bookings.Entry, windowStart: int, when: int)
    requires !e.cancelled && Bookings.EntryHours(shelf, e) > 0 && Sane(basket, absence) && basket.accrual.Some?
    requires !Costs(shelf, e, windowStart, when)
    ensures EarnedOn(shelf, basket, Plus(absence, Away(shelf, e)), windowStart, when)
         == EarnedOn(shelf, basket, Plus(absence, Price(shelf, e)), windowStart, when)
  {
    var a, b := windowStart + 1, when;
    SumOfPlus(absence, Away(shelf, e), a, b);
    SumOfPlus(absence, Price(shelf, e), a, b);
    forall d ensures On(Price(shelf, e), d) <= On(Away(shelf, e), d) {
      PriceIsAwayOn(shelf, e, d);
    }
    SumMonotone(Price(shelf, e), Away(shelf, e), a, b);
    SumMonotone(map[], absence, a, b);
    Backfill.SumOfNothing(a, b);
    SameWorked(PeriodScheduled(shelf, windowStart, when), Sum(absence, a, b), Sum(Price(shelf, e), a, b),
               Sum(Away(shelf, e), a, b), HolidayHours(shelf, windowStart, when));
    WorkedDecides(shelf, basket, Plus(absence, Away(shelf, e)), Plus(absence, Price(shelf, e)), windowStart, when);
  }

  /** Nothing is left to take, or nothing more is taken. */
  lemma SameWorked(scheduled: nat, absent: int, price: int, away: int, holiday: nat)
    requires absent >= 0 && price <= away && (price == away || price + holiday >= scheduled)
    ensures Worked(scheduled, absent + away, holiday) == Worked(scheduled, absent + price, holiday)
  {
  }

  lemma WorkedDecides(shelf: Shelf, basket: Basket, one: Hours, two: Hours, windowStart: int, when: int)
    requires basket.accrual.Some?
    requires
      var scheduled, holiday := PeriodScheduled(shelf, windowStart, when), HolidayHours(shelf, windowStart, when);
      Worked(scheduled, Sum(one, windowStart + 1, when), holiday)
      == Worked(scheduled, Sum(two, windowStart + 1, when), holiday)
    ensures EarnedOn(shelf, basket, one, windowStart, when) == EarnedOn(shelf, basket, two, windowStart, when)
  {
  }

  /** The window of a pay date is the same however far the dates are generated. */
  lemma SameWindow(shelf: Shelf, start: int, end: int, when: int)
    requires Sound(shelf) && when in PaidOn(shelf, start, end)
    ensures when in PaidOn(shelf, start, when)
    ensures WindowStart(shelf, PaidOn(shelf, start, end), start, when)
         == WindowStart(shelf, PaidOn(shelf, start, when), start, when)
  {
    var from := GenerateFrom(shelf.cadence, shelf.anchor.value, start);
    var short, long := PaidOn(shelf, start, when), PaidOn(shelf, start, end);
    GeneratesTheSeries(shelf.cadence, from, end, when);
    GeneratesTheSeries(shelf.cadence, from, when, when);
    HorizonOnlyExtends(shelf.cadence, from, when, end);
    PeriodStartsExtend(long, |short|, PayDateBefore(shelf.cadence, long[0]), when, when);
  }

  lemma {:induction false} NothingCostsBasket(shelf: Shelf, basket: Basket, usage: Hours, absence: Hours,
                                              e: Bookings.Entry, through: int, today: int, credits: Hours, when: int)
    requires Sound(shelf) && !e.cancelled && Bookings.EntryHours(shelf, e) > 0 && Sane(basket, absence)
    requires forall s, w :: !CostsOn(shelf, e, s, w)
    ensures Saved(shelf, basket, usage, absence, e, through, today, credits, when)
         == Previewed(shelf, basket, usage, absence, e, through, today, credits, when)
  {
    var start, end := StartOf(shelf, basket, today), Horizon(shelf, basket, through, today);
    var days := PayDays(shelf, basket, start, end);
    forall d | d in days && d > start
      ensures EarnedOn(shelf, basket, Plus(absence, Away(shelf, e)), WindowStart(shelf, days, start, d), d)
           == EarnedOn(shelf, basket, Plus(absence, Price(shelf, e)), WindowStart(shelf, days, start, d), d)
    {
      SameWindow(shelf, start, end, d);
      assert !CostsOn(shelf, e, start, d);
      NothingCosts(shelf, basket, absence, e, WindowStart(shelf, days, start, d), d);
    }
    assert Earned(shelf, basket, Plus(absence, Away(shelf, e)), start, days)
        == Earned(shelf, basket, Plus(absence, Price(shelf, e)), start, days);
  }

  /** With nothing granted, carried away or capped, a balance is what went in less what
      came out. */
  lemma {:induction false} PlainBalance(t: Terms, usage: Hours, credits: Hours, day: int)
    requires t.carryover == All && t.grant.None? && t.ceiling.None? && t.start - 1 <= day <= t.through
    ensures Daily(t, usage, credits, day)
         == t.opening + Sum(t.earned, t.start, day) + Sum(credits, t.start, day) - Sum(usage, t.start, day)
    decreases day - t.start
  {
    if day >= t.start {
      PlainBalance(t, usage, credits, day - 1);
    }
  }

  /** The basket that shows it: begun on the day, pro-rated, and earning an hour for every
      hour of the period worked. */
  function HourForHour(start: int, scheduled: nat): Basket {
    Basket(0, Some(start), 0, Some(scheduled as real), true, None, All, None, None)
  }

  lemma EarnsWhatIsWorked(scheduled: nat, worked: int)
    requires scheduled > 0
    ensures Prorated(scheduled as real, worked, scheduled) == worked
  {
    assert Portion(scheduled as real, worked, scheduled) == worked as real;
  }

  lemma CostsTheBasket(shelf: Shelf, e: Bookings.Entry, start: int, windowStart: int, when: int)
    requires Costs(shelf, e, windowStart, when) && e.hours >= 0
    ensures
      var basket := HourForHour(start, PeriodScheduled(shelf, windowStart, when));
      EarnedOn(shelf, basket, Away(shelf, e), windowStart, when)
      < EarnedOn(shelf, basket, Price(shelf, e), windowStart, when)
  {
    var scheduled, shut := PeriodScheduled(shelf, windowStart, when), HolidayHours(shelf, windowStart, when);
    var away, price := Sum(Away(shelf, e), windowStart + 1, when), Sum(Price(shelf, e), windowStart + 1, when);
    forall d ensures On(Price(shelf, e), d) >= 0 {
      Bookings.NothingNegative(shelf, e, true, d);
    }
    SumMonotone(map[], Price(shelf, e), windowStart + 1, when);
    Backfill.SumOfNothing(windowStart + 1, when);
    EarnsWhatIsWorked(scheduled, Worked(scheduled, away, shut));
    EarnsWhatIsWorked(scheduled, Worked(scheduled, price, shut));
  }

  lemma {:induction false} SumStrict(less: Hours, more: Hours, a: int, b: int, day: int)
    requires TakesMore(less, more) && a <= day <= b && On(less, day) < On(more, day)
    ensures Sum(less, a, b) < Sum(more, a, b)
    decreases b - a
  {
    if day < b {
      SumStrict(less, more, a, b - 1, day);
      assert On(less, b) <= On(more, b);
    } else {
      SumMonotone(less, more, a, b - 1);
    }
  }

  lemma AccrualsStrict(t: Terms, less: Terms, usage: Hours, credits: Hours, when: int)
    requires EarnsLess(t, less) && t.carryover == All && t.grant.None? && t.ceiling.None?
    requires t.start <= when <= t.through && On(less.earned, when) < On(t.earned, when)
    ensures Daily(less, usage, credits, when) < Daily(t, usage, credits, when)
  {
    PlainBalance(t, usage, credits, when);
    PlainBalance(less, usage, credits, when);
    forall d ensures On(less.earned, d) <= On(t.earned, d) {
    }
    SumStrict(less.earned, t.earned, t.start, when, when);
  }

  lemma CostsSomebody(shelf: Shelf, e: Bookings.Entry, start: int, when: int) returns (basket: Basket)
    requires Sound(shelf) && !e.cancelled && Bookings.EntryHours(shelf, e) > 0 && e.hours >= 0
    requires CostsOn(shelf, e, start, when)
    ensures basket.prorated && Sane(basket, map[])
    ensures Saved(shelf, basket, map[], map[], e, when, when, map[], when)
          < Previewed(shelf, basket, map[], map[], e, when, when, map[], when)
  {
    var windowStart := WindowStart(shelf, PaidOn(shelf, start, when), start, when);
    basket := HourForHour(start, PeriodScheduled(shelf, windowStart, when));
    CostsTheBasket(shelf, e, start, windowStart, when);
    NothingBefore(Price(shelf, e));
    NothingBefore(Away(shelf, e));
    forall d ensures On(Price(shelf, e), d) <= On(Away(shelf, e), d) {
      PriceIsAwayOn(shelf, e, d);
    }
    SavedTerms(shelf, basket, e, start, windowStart, when);
  }

  /** An absence map with nothing in it adds nothing. */
  lemma NothingBefore(hours: Hours)
    ensures Plus(map[], hours) == hours
  {
  }

  lemma SavedTerms(shelf: Shelf, basket: Basket, e: Bookings.Entry, start: int, windowStart: int, when: int)
    requires Sound(shelf) && basket == HourForHour(start, PeriodScheduled(shelf, windowStart, when)) && start < when
    requires when in PaidOn(shelf, start, when)
    requires windowStart == WindowStart(shelf, PaidOn(shelf, start, when), start, when)
    requires TakesMore(Price(shelf, e), Away(shelf, e))
    requires EarnedOn(shelf, basket, Away(shelf, e), windowStart, when)
           < EarnedOn(shelf, basket, Price(shelf, e), windowStart, when)
    ensures Balance(shelf, basket, Price(shelf, e), Away(shelf, e), when, when, map[], false, when)
          < Balance(shelf, basket, Price(shelf, e), Price(shelf, e), when, when, map[], false, when)
  {
    var t := TermsOf(shelf, basket, Price(shelf, e), when, when, false);
    var less := TermsOf(shelf, basket, Away(shelf, e), when, when, false);
    AbsenceEarnsLess(shelf, basket, Price(shelf, e), Away(shelf, e), when, when);
    assert PayDays(shelf, basket, start, when) == PaidOn(shelf, start, when);
    AccrualsStrict(t, less, Price(shelf, e), map[], when);
  }

  /** Saved or previewed, a booking leaves every basket of its job the same exactly when
      there is no pay date whose window saving takes hours from that the preview did not,
      while any are left in it to take. */
  lemma {:induction false} SavedTheSameExactly(shelf: Shelf, e: Bookings.Entry)
    requires Sound(shelf) && !e.cancelled && Bookings.EntryHours(shelf, e) > 0 && e.hours >= 0
    ensures SavedTheSame(shelf, e) <==> forall start, when :: !CostsOn(shelf, e, start, when)
  {
    if forall start, when :: !CostsOn(shelf, e, start, when) {
      forall basket: Basket, usage, absence, through, today, credits, when | Sane(basket, absence)
        ensures Saved(shelf, basket, usage, absence, e, through, today, credits, when)
             == Previewed(shelf, basket, usage, absence, e, through, today, credits, when)
      {
        NothingCostsBasket(shelf, basket, usage, absence, e, through, today, credits, when);
      }
    } else {
      var start, when :| CostsOn(shelf, e, start, when);
      var basket := CostsSomebody(shelf, e, start, when);
    }
  }

  // ------------------------------------------ whatever the job's pay periods

  /** The same job, paid another way. */
  function PaidBy(shelf: Shelf, c: Cadence, anchor: Option<int>, periodHours: int): Shelf {
    shelf.(cadence := c, anchor := anchor, periodHours := periodHours)
  }

  lemma {:induction false} SameHours(shelf: Shelf, c: Cadence, anchor: Option<int>, periodHours: int, e: Bookings.Entry,
                                     shut: set<int>, costing: bool, last: int)
    requires Bookings.Timed(e)
    ensures Bookings.HoursUpTo(PaidBy(shelf, c, anchor, periodHours), e, shut, costing, last)
         == Bookings.HoursUpTo(shelf, e, shut, costing, last)
    decreases last - Bookings.FirstDay(e)
  {
    if last >= Bookings.FirstDay(e) {
      SameHours(shelf, c, anchor, periodHours, e, shut, costing, last - 1);
    }
  }

  /** How a job pays does not enter into what a booking takes. */
  lemma SameBooking(shelf: Shelf, c: Cadence, anchor: Option<int>, periodHours: int, e: Bookings.Entry)
    ensures
      var other := PaidBy(shelf, c, anchor, periodHours);
      && Bookings.HoursByDate(other, e, true) == Bookings.HoursByDate(shelf, e, true)
      && Bookings.HoursByDate(other, e, false) == Bookings.HoursByDate(shelf, e, false)
      && Bookings.EntryHours(other, e) == Bookings.EntryHours(shelf, e)
      && Price(other, e) == Price(shelf, e) && Away(other, e) == Away(shelf, e)
  {
    if Bookings.Timed(e) {
      var first, last := Bookings.FirstDay(e), Bookings.LastDay(e);
      SameHours(shelf, c, anchor, periodHours, e, Shut(shelf, first, last), true, last);
      SameHours(shelf, c, anchor, periodHours, e, Shut(shelf, first, last), false, last);
    }
  }

  /** Every so many days: the two pay dates a period apart, and the window between them. */
  lemma TwoPaydays(shelf: Shelf, n: nat, when: int)
    requires n >= 1 && shelf.cadence == Cadence(n, Days, [], None, None) && shelf.anchor == Some(when)
    requires Sound(shelf)
    ensures when in PaidOn(shelf, when - n, when)
    ensures WindowStart(shelf, PaidOn(shelf, when - n, when), when - n, when) == when - n
  {
    var c, start := shelf.cadence, when - n;
    assert WalkBack(c, start, start, MAX_PERIODS_BACK - 1) == start;
    assert GenerateFrom(c, when, start) == start;
    TwoDates(c, start, when);
    PeriodStartAt([start, when], PayDateBefore(c, start), 1);
  }

  lemma TwoDates(c: Cadence, start: int, when: int)
    requires WellFormed(c) && c.unit == Days && when == start + c.interval
    ensures OccurrenceDates(c, start, when) == [start, when]
  {
    var none: seq<int> := [];
    assert RawDays(c, when, when) == [when] + none;
    assert RawDays(c, start, when) == [start] + [when];
    assert [start, when][1..] == [when] && [when][1..] == none;
    assert Sorting.Sort([when], LessEq) == [when];
    assert Sorting.Sort([start, when], LessEq) == [start] + [when];
  }

  lemma OneDaySum(hours: Hours, d: int)
    ensures Sum(hours, d, d) == On(hours, d)
  {
    assert Sum(hours, d, d - 1) == 0;
  }

  lemma NotShutAlone(shelf: Shelf, d: int)
    requires d !in Shut(shelf, d, d)
    ensures HolidayHours(shelf, d - 1, d) == 0
  {
    forall x ensures x !in Shut(shelf, d, d) {
      Holidays.SpanHas(Holidays.YearDays(shelf.holidays, shelf.own), YearOfDay(d), Holidays.YearsSpanned(d, d), d, d,
                       x);
    }
    Sorting.AscendingListIs({});
    assert AttendedMinutes(shelf, []) == 0;
  }

  /** Paid by the day, an unbilled day away costs the accrual of that day. */
  lemma CostsWhenPaidByTheDay(shelf: Shelf, e: Bookings.Entry, d: int)
    requires Sound(shelf) && !e.cancelled && Bookings.EntryHours(shelf, e) > 0
    requires d in Bookings.HoursByDate(shelf, e, false) && !Bookings.Billed(shelf, d)
    ensures
      var daily := PaidBy(shelf, Cadence(1, Days, [], None, None), Some(d), 1);
      Sound(daily) && CostsOn(daily, e, d - 1, d)
  {
    var c := Cadence(1, Days, [], None, None);
    var daily := PaidBy(shelf, c, Some(d), 1);
    SameBooking(shelf, c, Some(d), 1, e);
    TwoPaydays(daily, 1, d);
    FreeDayAway(shelf, e, d);
    OneDaySum(Price(shelf, e), d);
    OneDaySum(Away(shelf, e), d);
    OpenAlone(shelf, e, d);
    NotShutAlone(daily, d);
  }

  lemma OpenAlone(shelf: Shelf, e: Bookings.Entry, d: int)
    requires d in Bookings.HoursByDate(shelf, e, false)
    ensures d !in Shut(shelf, d, d)
  {
    var first, last := Bookings.FirstDay(e), Bookings.LastDay(e);
    Bookings.HoursUpToHas(shelf, e, Shut(shelf, first, last), false, last, d);
    if d in Shut(shelf, d, d) {
      UnbilledDays.ShutWithin(shelf, first, last, d, d, d);
    }
  }

  /** Whatever the pay periods of the job, saved or previewed is the same to every basket. */
  ghost predicate SameUnderAnyPay(shelf: Shelf, e: Bookings.Entry)
    requires Sound(shelf)
  {
    forall c: Cadence, anchor, periodHours :: WellFormed(c) ==> SavedTheSame(PaidBy(shelf, c, anchor, periodHours), e)
  }

  /** That is so exactly when every day the booking takes hours from is billed. */
  lemma {:induction false} SameUnderAnyPayExactly(shelf: Shelf, e: Bookings.Entry)
    requires Sound(shelf) && !e.cancelled && Bookings.EntryHours(shelf, e) > 0 && e.hours >= 0
    ensures SameUnderAnyPay(shelf, e)
            <==> forall d :: d in Bookings.HoursByDate(shelf, e, false) ==> Bookings.Billed(shelf, d)
  {
    if forall d :: d in Bookings.HoursByDate(shelf, e, false) ==> Bookings.Billed(shelf, d) {
      forall c: Cadence, anchor, periodHours | WellFormed(c)
        ensures SavedTheSame(PaidBy(shelf, c, anchor, periodHours), e)
      {
        SameWhenBilled(PaidBy(shelf, c, anchor, periodHours), shelf, c, anchor, periodHours, e);
      }
    } else {
      var d :| d in Bookings.HoursByDate(shelf, e, false) && !Bookings.Billed(shelf, d);
      CostsWhenPaidByTheDay(shelf, e, d);
      var c := Cadence(1, Days, [], None, None);
      SameBooking(shelf, c, Some(d), 1, e);
      SavedTheSameExactly(PaidBy(shelf, c, Some(d), 1), e);
    }
  }

  lemma {:induction false} SameWhenBilled(other: Shelf, shelf: Shelf, c: Cadence, anchor: Option<int>,
                                          periodHours: int, e: Bookings.Entry)
    requires Sound(shelf) && WellFormed(c) && other == PaidBy(shelf, c, anchor, periodHours)
    requires !e.cancelled && Bookings.EntryHours(shelf, e) > 0
    requires forall d :: d in Bookings.HoursByDate(shelf, e, false) ==> Bookings.Billed(shelf, d)
    ensures SavedTheSame(other, e)
  {
    SameBooking(shelf, c, anchor, periodHours, e);
    forall basket: Basket, usage, absence, through, today, credits, when | Sane(basket, absence)
      ensures Saved(other, basket, usage, absence, e, through, today, credits, when)
           == Previewed(other, basket, usage, absence, e, through, today, credits, when)
    {
      PreviewAndSaved(other, basket, usage, absence, e, through, today, credits, when);
    }
  }

  // ------------------------------------------------------ a Friday off unbilled

  /** Thursdays and Fridays of eight hours, the Fridays not billed, paid every two weeks
      of eighty hours. */
  ghost predicate FridaysUnbilled(shelf: Shelf, payday: int) {
    && shelf.cadence == Cadence(14, Days, [], None, None) && shelf.anchor == Some(payday)
    && shelf.periodHours == 8000 && shelf.yearDay == 1
    && shelf.week == map[3 := Shift(540, 1020, 0), 4 := Shift(540, 1020, 0)]
    && shelf.accrualOnly == {} && shelf.uncharged == {4} && shelf.holidays == [] && shelf.own == []
  }

  lemma {:induction false} SumOfOnly(hours: Hours, a: int, b: int, days: set<int>)
    requires forall d :: d !in days ==> On(hours, d) == 0
    requires forall d :: d in days ==> d < a || b < d
    ensures Sum(hours, a, b) == 0
    decreases b - a
  {
    if a <= b {
      SumOfOnly(hours, a, b - 1, days);
    }
  }

  lemma {:induction false} SumSplits(hours: Hours, a: int, m: int, b: int)
    requires a - 1 <= m <= b
    ensures Sum(hours, a, b) == Sum(hours, a, m) + Sum(hours, m + 1, b)
    decreases b - m
  {
    if m < b {
      SumSplits(hours, a, m, b - 1);
    }
  }

  lemma {:induction false} SumOfTwoDays(hours: Hours, a: int, b: int, day: int)
    requires a <= day && day + 1 <= b && forall d :: d != day && d != day + 1 ==> On(hours, d) == 0
    ensures Sum(hours, a, b) == On(hours, day) + On(hours, day + 1)
  {
    SumSplits(hours, a, day - 1, b);
    SumSplits(hours, day, day + 1, b);
    SumOfOnly(hours, a, day - 1, {day, day + 1});
    SumOfOnly(hours, day + 2, b, {day, day + 1});
    OneDaySum(hours, day);
    assert Sum(hours, day, day + 1) == Sum(hours, day, day) + On(hours, day + 1);
  }

  lemma EightHours()
    ensures AsHours(480) == 800
  {
    assert 480 as real / 0.6 == 800.0;
  }

  /** The Thursday and Friday off cost eight hours, and take sixteen away. */
  lemma TwoDaysOff(shelf: Shelf, payday: int, thursday: int, a: int, b: int)
    requires FridaysUnbilled(shelf, payday) && Weekday(thursday) == 3 && a <= thursday && thursday + 1 <= b
    ensures
      var e := UnbilledDays.WholeDays(shelf, 1, 0, thursday, thursday + 1);
      && Bookings.EntryHours(shelf, e) > 0 && e.hours >= 0 && !e.cancelled
      && Sum(Price(shelf, e), a, b) == 800 && Sum(Away(shelf, e), a, b) == 1600
  {
    var e := UnbilledDays.WholeDays(shelf, 1, 0, thursday, thursday + 1);
    EightHours();
    NextWeekday(thursday);
    UnbilledDays.NoHolidays(shelf, thursday, thursday);
    UnbilledDays.NoHolidays(shelf, thursday + 1, thursday + 1);
    UnbilledDays.WholeDaysTake(shelf, 1, 0, thursday, thursday + 1, thursday);
    forall d ensures On(Price(shelf, e), d) == if d == thursday then 800 else 0 {
      Bookings.PriceAndAbsenceAgree(shelf, e, d);
    }
    SumOfTwoDays(Price(shelf, e), a, b, thursday);
    SumOfTwoDays(Away(shelf, e), a, b, thursday);
  }

  lemma NextWeekday(d: int)
    requires Weekday(d) == 3
    ensures Weekday(d + 1) == 4
  {
  }

  /** Four hours a period, pro-rated. */
  function FourHours(start: int): Basket {
    Basket(0, Some(start), 0, Some(400.0), true, None, All, None, None)
  }

  lemma FourHoursEarn(shelf: Shelf, payday: int, absence: Hours, away: int)
    requires FridaysUnbilled(shelf, payday) && Sum(absence, payday - 13, payday) == away && 0 <= away <= 8000
    ensures EarnedOn(shelf, FourHours(payday - 14), absence, payday - 14, payday)
         == RoundHalfEven(400.0 * ((8000 - away) as real / 8000.0))
  {
    UnbilledDays.NoHolidays(shelf, payday - 13, payday);
    Sorting.AscendingListIs({});
    assert AttendedMinutes(shelf, []) == 0;
  }

  lemma FourHoursLeft(shelf: Shelf, payday: int, usage: Hours, absence: Hours)
    requires FridaysUnbilled(shelf, payday) && Sound(shelf)
    ensures
      var start := payday - 14;
      Balance(shelf, FourHours(start), usage, absence, payday, payday, map[], false, payday)
      == EarnedOn(shelf, FourHours(start), absence, start, payday) - Sum(usage, start, payday)
  {
    var start := payday - 14;
    var basket := FourHours(start);
    var t := TermsOf(shelf, basket, absence, payday, payday, false);
    var days := PayDays(shelf, basket, start, payday);
    TwoPaydays(shelf, 14, payday);
    PaidTwice(shelf, payday);
    PlainBalance(t, usage, map[], payday);
    Backfill.SumOfNothing(start, payday);
    SumSplits(t.earned, start, payday - 1, payday);
    SumOfOnly(t.earned, start, payday - 1, {payday});
    OneDaySum(t.earned, payday);
  }

  lemma PaidTwice(shelf: Shelf, payday: int)
    requires FridaysUnbilled(shelf, payday) && Sound(shelf)
    ensures PaidOn(shelf, payday - 14, payday) == [payday - 14, payday]
  {
    assert WalkBack(shelf.cadence, payday - 14, payday - 14, MAX_PERIODS_BACK - 1) == payday - 14;
    TwoDates(shelf.cadence, payday - 14, payday);
  }

  /** The preview of such a Thursday and Friday ends the period at 3.60 less the eight
      hours; saved, it ends at 3.20 less them. */
  lemma PreviewShowsMore(shelf: Shelf, payday: int, thursday: int)
    requires FridaysUnbilled(shelf, payday) && Sound(shelf)
    requires Weekday(thursday) == 3 && payday - 14 < thursday < payday
    ensures
      var e := UnbilledDays.WholeDays(shelf, 1, 0, thursday, thursday + 1);
      var basket := FourHours(payday - 14);
      && Previewed(shelf, basket, map[], map[], e, payday, payday, map[], payday) == 360 - 800
      && Saved(shelf, basket, map[], map[], e, payday, payday, map[], payday) == 320 - 800
  {
    var e := UnbilledDays.WholeDays(shelf, 1, 0, thursday, thursday + 1);
    TwoDaysOff(shelf, payday, thursday, payday - 14, payday);
    TwoDaysOff(shelf, payday, thursday, payday - 13, payday);
    NothingBefore(Price(shelf, e));
    NothingBefore(Away(shelf, e));
    FourHoursLeft(shelf, payday, Price(shelf, e), Price(shelf, e));
    FourHoursLeft(shelf, payday, Price(shelf, e), Away(shelf, e));
    FourHoursEarn(shelf, payday, Price(shelf, e), 800);
    FourHoursEarn(shelf, payday, Away(shelf, e), 1600);
    Tenths();
  }

  lemma Tenths()
    ensures RoundHalfEven(400.0 * (7200.0 / 8000.0)) == 360 && RoundHalfEven(400.0 * (6400.0 / 8000.0)) == 320
  {
    assert 400.0 * (7200.0 / 8000.0) == 360.0 && 400.0 * (6400.0 / 8000.0) == 320.0;
  }
}
