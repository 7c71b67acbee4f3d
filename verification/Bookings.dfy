/** Bookings as hours (loaf_forecast.py) and the guard on taking more off a day
    than it holds (loaf_app.py). Times are whole minutes, day 0 at minute 0. */
module Bookings {
  import opened Wrappers
  import opened Rounding
  import opened Sorting
  import opened Calendar
  import opened LoafWalk
  import opened Shelf
  import Holidays

  datatype Direction = Use | Accrue | Prior

  datatype Entry = Entry(id: int, basket: int, starts: Option<int>, ends: Option<int>, allDay: bool,
                         hours: int, overridden: bool, cancelled: bool, direction: Direction)

  /** Midnight at the start of a day, in minutes, and the day a minute falls in. */
  function Midnight(day: int): int {
    day * 1440
  }

  function DayAt(minute: int): int {
    minute / 1440
  }

  lemma DayOfMinute(day: int, minute: int)
    requires 0 <= minute < 1440
    ensures DayAt(Midnight(day) + minute) == day
  {
  }

  // -------------------------------------------------- a booking, in hours

  predicate Timed(e: Entry) {
    e.starts.Some? && e.ends.Some? && e.ends.value > e.starts.value
  }

  function FirstDay(e: Entry): int
    requires e.starts.Some?
  {
    DayAt(e.starts.value)
  }

  function LastDay(e: Entry): int
    requires e.ends.Some?
  {
    DayAt(e.ends.value)
  }

  /** The minutes of a shift that a booking covers; the break comes off only a
      whole working day. */
  function Covered(shift: Shift, allDay: bool, starts: int, ends: int, day: int): nat {
    var full := shift.end - shift.start;
    if allDay then AtLeastZero(full - shift.pause)
    else
      var from := if starts > Midnight(day) + shift.start then starts else Midnight(day) + shift.start;
      var until := Min(ends, Midnight(day) + shift.end);
      var minutes := AtLeastZero(until - from);
      if minutes >= full then AtLeastZero(minutes - shift.pause) else minutes
  }

  /** Times that bracket the whole shift cost what a whole day does, break and
      all; and no booking costs a day more than the shift is long. */
  lemma WholeShiftIsAllDay(shift: Shift, starts: int, ends: int, day: int)
    requires shift.start < shift.end && 0 <= shift.pause
    ensures starts <= Midnight(day) + shift.start && Midnight(day) + shift.end <= ends ==>
      Covered(shift, false, starts, ends, day) == Covered(shift, true, starts, ends, day)
    ensures Covered(shift, false, starts, ends, day) <= shift.end - shift.start
    ensures ends <= Midnight(day) + shift.start || Midnight(day) + shift.end <= starts ==>
      Covered(shift, false, starts, ends, day) == 0
  {
  }

  function AtLeastZero(x: int): nat {
    if x > 0 then x else 0
  }

  predicate Billed(shelf: Shelf, day: int) {
    Charges(shelf, Weekday(day))
  }

  /** Minutes away from work on one day, whoever pays for it. */
  function MinutesOff(shelf: Shelf, e: Entry, shut: set<int>, day: int): nat
    requires Timed(e)
  {
    match ScheduleFor(shelf, Weekday(day))
    case None => 0
    case Some(shift) =>
      if day in shut || !Attends(shelf, Weekday(day)) then 0
      else Covered(shift, e.allDay, e.starts.value, e.ends.value, day)
  }

  predicate Counts(shelf: Shelf, e: Entry, shut: set<int>, costing: bool, day: int)
    requires Timed(e)
  {
    MinutesOff(shelf, e, shut, day) > 0 && (!costing || Billed(shelf, day))
  }

  function HoursUpTo(shelf: Shelf, e: Entry, shut: set<int>, costing: bool, last: int): Hours
    requires Timed(e)
    decreases last - FirstDay(e)
  {
    if last < FirstDay(e) then map[]
    else
      var before := HoursUpTo(shelf, e, shut, costing, last - 1);
      if Counts(shelf, e, shut, costing, last) then before[last := AsHours(MinutesOff(shelf, e, shut, last))]
      else before
  }

  lemma {:induction false} HoursUpToHas(shelf: Shelf, e: Entry, shut: set<int>, costing: bool, last: int, day: int)
    requires Timed(e)
    ensures day in HoursUpTo(shelf, e, shut, costing, last)
       <==> FirstDay(e) <= day <= last && Counts(shelf, e, shut, costing, day)
    ensures day in HoursUpTo(shelf, e, shut, costing, last) ==>
      HoursUpTo(shelf, e, shut, costing, last)[day] == AsHours(MinutesOff(shelf, e, shut, day))
    decreases last - FirstDay(e)
  {
    if last >= FirstDay(e) {
      HoursUpToHas(shelf, e, shut, costing, last - 1, day);
    }
  }

  function HoursByDate(shelf: Shelf, e: Entry, costing: bool): Hours {
    if Timed(e) then HoursUpTo(shelf, e, Shut(shelf, FirstDay(e), LastDay(e)), costing, LastDay(e)) else map[]
  }

  /** hours_by_date, as it runs. */
  method SplitByDay(shelf: Shelf, e: Entry, costing: bool) returns (out: Hours)
    ensures out == HoursByDate(shelf, e, costing)
  {
    if !Timed(e) {
      return map[];
    }
    out := EachDay(shelf, e, Shut(shelf, FirstDay(e), LastDay(e)), costing);
  }

  method EachDay(shelf: Shelf, e: Entry, shut: set<int>, costing: bool) returns (out: Hours)
    requires Timed(e)
    ensures out == HoursUpTo(shelf, e, shut, costing, LastDay(e))
  {
    out := map[];
    var day := FirstDay(e);
    while day <= LastDay(e)
      invariant FirstDay(e) <= day <= LastDay(e) + 1
      invariant out == HoursUpTo(shelf, e, shut, costing, day - 1)
    {
      if Counts(shelf, e, shut, costing, day) {
        out := out[day := AsHours(MinutesOff(shelf, e, shut, day))];
      }
      day := day + 1;
    }
  }

  /** What a day of a booking comes to, in plain numbers: nothing unless the day is within
      it, worked, attended and open, and billed when it is the price that is asked; then
      the whole shift less its pause, or, timed, the minutes of the shift between the
      two times, less the pause only when that is all of it. */
  lemma HoursOfADay(shelf: Shelf, e: Entry, costing: bool, day: int, shift: Shift)
    requires e.starts.Some? && e.ends.Some? && e.starts.value < e.ends.value
    requires Weekday(day) in shelf.week && shift == shelf.week[Weekday(day)] && shift.start < shift.end
    ensures
      var first, last := e.starts.value / 1440, e.ends.value / 1440;
      var opens, closes := 1440 * day + shift.start, 1440 * day + shift.end;
      var from, until := if e.starts.value < opens then opens else e.starts.value,
                         if closes < e.ends.value then closes else e.ends.value;
      var whole := if shift.pause <= 0 then closes - opens
                   else if closes - opens <= shift.pause then 0 else closes - opens - shift.pause;
      var minutes := if e.allDay || (from == opens && until == closes) then whole
                     else if until <= from then 0 else until - from;
      var hours := HoursByDate(shelf, e, costing);
      (day in hours
       <==> && first <= day <= last && minutes > 0 && Weekday(day) !in shelf.accrualOnly
            && day !in Holidays.DatesBetween(shelf.holidays, shelf.own, first, last)
            && (costing ==> Weekday(day) !in shelf.uncharged))
      && (day in hours ==> hours[day] == RoundHalfEven(minutes as real * 100.0 / 60.0))
  {
    HoursUpToHas(shelf, e, Shut(shelf, FirstDay(e), LastDay(e)), costing, LastDay(e), day);
  }

  /** On a day with no shift, or for a booking that does not end after it starts, none. */
  lemma NoHoursOfADay(shelf: Shelf, e: Entry, costing: bool, day: int)
    requires e.starts.None? || e.ends.None? || e.ends.value <= e.starts.value || Weekday(day) !in shelf.week
             || shelf.week[Weekday(day)].end <= shelf.week[Weekday(day)].start
    ensures day !in HoursByDate(shelf, e, costing)
  {
    if Timed(e) {
      HoursUpToHas(shelf, e, Shut(shelf, FirstDay(e), LastDay(e)), costing, LastDay(e), day);
    }
  }

  lemma SomeMinutesSomeHours(minutes: nat)
    ensures AsHours(minutes) > 0 <==> minutes > 0
  {
    if minutes > 0 {
      assert minutes as real / 0.6 >= 1.0;
      RoundHalfEvenMonotone(1.0, minutes as real / 0.6);
    }
  }

  /** The price and the absence differ on the weekdays nobody bills, and only there. */
  lemma PriceIsBilledAbsence(shelf: Shelf, e: Entry, day: int)
    ensures day in HoursByDate(shelf, e, true) <==> day in HoursByDate(shelf, e, false) && Billed(shelf, day)
    ensures day in HoursByDate(shelf, e, true) ==>
      HoursByDate(shelf, e, true)[day] == HoursByDate(shelf, e, false)[day]
    ensures day in HoursByDate(shelf, e, false) ==> HoursByDate(shelf, e, false)[day] > 0
    ensures day in HoursByDate(shelf, e, false) ==> Timed(e) && FirstDay(e) <= day <= LastDay(e)
  {
    if Timed(e) {
      var shut := Shut(shelf, FirstDay(e), LastDay(e));
      HoursUpToHas(shelf, e, shut, true, LastDay(e), day);
      HoursUpToHas(shelf, e, shut, false, LastDay(e), day);
      SomeMinutesSomeHours(MinutesOff(shelf, e, Shut(shelf, FirstDay(e), LastDay(e)), day));
    }
  }

  /** Everything a split comes to: no day of it lies outside the range. */
  function Total(e: Entry, split: Hours): int {
    if Timed(e) then Sum(split, FirstDay(e), LastDay(e)) else 0
  }

  /** entry_hours. */
  function EntryHours(shelf: Shelf, e: Entry): int {
    Total(e, HoursByDate(shelf, e, true))
  }

  // ---------------------------------------------------- a figure typed in

  function Factored(hours: int, stored: int, billed: int): real
    requires billed > 0
  {
    hours as real * (stored as real / billed as real)
  }

  function Rescaled(charged: Hours, stored: int, billed: int): Hours {
    if billed > 0 && stored != billed
    then map d | d in charged :: RoundHalfEven(Factored(charged[d], stored, billed))
    else charged
  }

  /** The days of a range nobody is charged for. */
  function FreeDays(shelf: Shelf, e: Entry, costing: bool): Hours {
    var away, price := HoursByDate(shelf, e, false), HoursByDate(shelf, e, true);
    if costing then map[] else map d | d in away && d !in price :: away[d]
  }

  /** _entry_split. */
  function Split(shelf: Shelf, e: Entry, costing: bool): Hours {
    var split, free := HoursByDate(shelf, e, costing), FreeDays(shelf, e, costing);
    if e.cancelled then map[]
    else if !e.overridden then split
    else if Total(e, split) > 0 then
      var charged := map d | d in split && d !in free :: split[d];
      Rescaled(charged, e.hours, Total(e, charged)) + free
    else if e.starts.Some? && e.hours != 0 then free[FirstDay(e) := e.hours]
    else free
  }

  lemma {:induction false} SumAtLeast(less: Hours, more: Hours, a: int, b: int)
    requires forall d :: 0 <= On(less, d) <= On(more, d)
    ensures 0 <= Sum(less, a, b) <= Sum(more, a, b)
    decreases b - a
  {
    if a <= b {
      SumAtLeast(less, more, a, b - 1);
    }
  }

  /** Leaving out the free days leaves exactly the price. */
  lemma ChargedIsThePrice(shelf: Shelf, e: Entry)
    ensures
      var away, free := HoursByDate(shelf, e, false), FreeDays(shelf, e, false);
      (map d | d in away && d !in free :: away[d]) == HoursByDate(shelf, e, true)
  {
    var away, free := HoursByDate(shelf, e, false), FreeDays(shelf, e, false);
    forall d ensures d in away && d !in free <==> d in HoursByDate(shelf, e, true) {
      PriceIsBilledAbsence(shelf, e, d);
    }
    forall d | d in HoursByDate(shelf, e, true) ensures away[d] == HoursByDate(shelf, e, true)[d] {
      PriceIsBilledAbsence(shelf, e, d);
    }
  }

  lemma AwayCostsAtLeastThePrice(shelf: Shelf, e: Entry)
    ensures 0 <= EntryHours(shelf, e) <= Total(e, HoursByDate(shelf, e, false))
  {
    forall d ensures 0 <= On(HoursByDate(shelf, e, true), d) <= On(HoursByDate(shelf, e, false), d) {
      PriceIsBilledAbsence(shelf, e, d);
    }
    if Timed(e) {
      SumAtLeast(HoursByDate(shelf, e, true), HoursByDate(shelf, e, false), FirstDay(e), LastDay(e));
    }
  }

  /** For a booking that costs something at all, price and absence are the same
      on every billed day, typed figure or not, and no other day is priced. */
  lemma PriceAndAbsenceAgree(shelf: Shelf, e: Entry, day: int)
    requires EntryHours(shelf, e) > 0
    ensures Billed(shelf, day) ==> On(Split(shelf, e, true), day) == On(Split(shelf, e, false), day)
    ensures Billed(shelf, day) ==> (day in Split(shelf, e, true) <==> day in Split(shelf, e, false))
    ensures day in Split(shelf, e, true) ==> Billed(shelf, day)
  {
    PriceIsBilledAbsence(shelf, e, day);
    if !e.cancelled && e.overridden {
      ChargedIsThePrice(shelf, e);
      AwayCostsAtLeastThePrice(shelf, e);
      var price, free := HoursByDate(shelf, e, true), FreeDays(shelf, e, false);
      assert (map d | d in price && d !in FreeDays(shelf, e, true) :: price[d]) == price;
      assert Split(shelf, e, true) == Rescaled(price, e.hours, Total(e, price)) + map[];
      assert Split(shelf, e, false) == Rescaled(price, e.hours, Total(e, price)) + free;
    }
  }

  lemma RescaledIsNotNegative(charged: Hours, stored: int, billed: int, day: int)
    requires stored >= 0 && (day in charged ==> charged[day] >= 0)
    ensures On(Rescaled(charged, stored, billed), day) >= 0
  {
    if billed > 0 && day in charged {
      var share := stored as real / billed as real;
      assert share >= 0.0;
      ScaleMonotone(charged[day] as real, 0.0, share);
      RoundHalfEvenMonotone(0.0, Factored(charged[day], stored, billed));
    }
  }

  lemma NothingNegative(shelf: Shelf, e: Entry, costing: bool, day: int)
    requires e.hours >= 0
    ensures On(Split(shelf, e, costing), day) >= 0
  {
    PriceIsBilledAbsence(shelf, e, day);
    var split, free := HoursByDate(shelf, e, costing), FreeDays(shelf, e, costing);
    assert On(split, day) >= 0 && On(free, day) >= 0;
    if !e.cancelled && e.overridden {
      var charged := map d | d in split && d !in free :: split[d];
      assert On(charged, day) >= 0;
      RescaledIsNotNegative(charged, e.hours, Total(e, charged), day);
      var scaled := Rescaled(charged, e.hours, Total(e, charged));
      assert On(scaled + free, day) == if day in free then free[day] else On(scaled, day);
    }
  }

  function Times(share: real, hours: int): real {
    hours as real * share
  }

  lemma TimesAdds(share: real, a: int, b: int)
    ensures Times(share, a + b) == Times(share, a) + Times(share, b)
  {
  }

  /** Rounding each of n days moves their sum by at most half of n. */
  lemma {:induction false} RoundedSumNear(hours: Hours, rounded: Hours, share: real, a: int, b: int)
    requires forall d :: -0.5 <= On(rounded, d) as real - Times(share, On(hours, d)) <= 0.5
    ensures
      var gap := Sum(rounded, a, b) as real - Times(share, Sum(hours, a, b));
      var days := if b < a then 0 else b - a + 1;
      -0.5 * days as real <= gap <= 0.5 * days as real
    decreases b - a
  {
    if a <= b {
      RoundedSumNear(hours, rounded, share, a, b - 1);
      TimesAdds(share, Sum(hours, a, b - 1), On(hours, b));
    }
  }

  lemma RescaledNear(charged: Hours, stored: int, billed: int, d: int)
    requires billed > 0 && stored != billed
    ensures -0.5 <= On(Rescaled(charged, stored, billed), d) as real
                    - Times(stored as real / billed as real, On(charged, d)) <= 0.5
  {
  }

  lemma ShareOfAll(stored: int, billed: int)
    requires billed > 0
    ensures Times(stored as real / billed as real, billed) == stored as real
  {
  }

  lemma HalfOf(gap: int, days: int)
    requires -0.5 * days as real <= gap as real <= 0.5 * days as real
    ensures -days <= 2 * gap <= days
  {
  }

  lemma RescaledTotal(charged: Hours, stored: int, a: int, b: int)
    requires Sum(charged, a, b) > 0 && a <= b
    ensures -(b - a + 1) <= 2 * (Sum(Rescaled(charged, stored, Sum(charged, a, b)), a, b) - stored) <= b - a + 1
  {
    var billed := Sum(charged, a, b);
    if stored != billed {
      var share := stored as real / billed as real;
      forall d ensures -0.5 <= On(Rescaled(charged, stored, billed), d) as real - Times(share, On(charged, d)) <= 0.5 {
        RescaledNear(charged, stored, billed, d);
      }
      RoundedSumNear(charged, Rescaled(charged, stored, billed), share, a, b);
      ShareOfAll(stored, billed);
      HalfOf(Sum(Rescaled(charged, stored, billed), a, b) - stored, b - a + 1);
    }
  }

  lemma SplitOfTyped(shelf: Shelf, e: Entry)
    requires EntryHours(shelf, e) > 0 && e.overridden && !e.cancelled
    ensures Split(shelf, e, true) == Rescaled(HoursByDate(shelf, e, true), e.hours, EntryHours(shelf, e))
  {
    var price := HoursByDate(shelf, e, true);
    assert (map d | d in price && d !in FreeDays(shelf, e, true) :: price[d]) == price;
  }

  /** A typed total is kept to within half a hundredth for each day of the range. */
  lemma TypedTotalIsKept(shelf: Shelf, e: Entry)
    requires EntryHours(shelf, e) > 0 && e.overridden && !e.cancelled
    ensures Timed(e)
    ensures
      var days := LastDay(e) - FirstDay(e) + 1;
      -days <= 2 * (Total(e, Split(shelf, e, true)) - e.hours) <= days
  {
    SplitOfTyped(shelf, e);
    RescaledTotal(HoursByDate(shelf, e, true), e.hours, FirstDay(e), LastDay(e));
  }

  // ------------------------------------------- totals over a list of entries

  function FlatSplit(e: Entry): Hours {
    if e.starts.Some? then map[FirstDay(e) := e.hours] else map[]
  }

  /** What one entry spends from one basket. */
  function SpentBy(shelf: Shelf, basket: int, e: Entry): Hours {
    if e.basket != basket || e.cancelled then map[]
    else
      match e.direction
      case Prior => FlatSplit(e)
      case Use => Split(shelf, e, true)
      case Accrue => map[]
  }

  /** What one entry hands to one basket. */
  function GivenBy(basket: int, e: Entry): Hours {
    if e.basket != basket || e.direction != Accrue || e.cancelled then map[] else FlatSplit(e)
  }

  /** The hours not worked on the job because of one entry. */
  function AwayBy(shelf: Shelf, baskets: set<int>, e: Entry): Hours {
    if e.direction != Use || e.basket !in baskets then map[] else Split(shelf, e, false)
  }

  function Gathered(part: Entry -> Hours, entries: seq<Entry>): Hours {
    if entries == [] then map[]
    else
      var n := |entries| - 1;
      Plus(Gathered(part, entries[..n]), part(entries[n]))
  }

  function Spending(shelf: Shelf, basket: int): Entry -> Hours {
    e => SpentBy(shelf, basket, e)
  }

  function Giving(basket: int): Entry -> Hours {
    e => GivenBy(basket, e)
  }

  function Leaving(shelf: Shelf, baskets: set<int>): Entry -> Hours {
    e => AwayBy(shelf, baskets, e)
  }

  function UsageByDate(shelf: Shelf, basket: int, entries: seq<Entry>): Hours {
    Gathered(Spending(shelf, basket), entries)
  }

  function CreditByDate(basket: int, entries: seq<Entry>): Hours {
    Gathered(Giving(basket), entries)
  }

  function AbsenceByDate(shelf: Shelf, baskets: set<int>, entries: seq<Entry>): Hours {
    Gathered(Leaving(shelf, baskets), entries)
  }

  /** The three accumulating loops, one shape. */
  method Gather(part: Entry -> Hours, entries: seq<Entry>) returns (total: Hours)
    ensures total == Gathered(part, entries)
  {
    total := map[];
    for k := 0 to |entries|
      invariant total == Gathered(part, entries[..k])
    {
      assert entries[..k + 1][..k] == entries[..k];
      total := Plus(total, part(entries[k]));
    }
    assert entries[..|entries|] == entries;
  }

  /** The hours a list of entries puts on one day, added up entry by entry. */
  function OnDay(part: Entry -> Hours, entries: seq<Entry>, day: int): int {
    if entries == [] then 0 else OnDay(part, entries[..|entries| - 1], day) + On(part(entries[|entries| - 1]), day)
  }

  lemma {:induction false} GatheredOn(part: Entry -> Hours, entries: seq<Entry>, day: int)
    ensures On(Gathered(part, entries), day) == OnDay(part, entries, day)
  {
    if entries != [] {
      GatheredOn(part, entries[..|entries| - 1], day);
    }
  }

  lemma OnDayOneMore(part: Entry -> Hours, entries: seq<Entry>, e: Entry, day: int)
    ensures OnDay(part, entries + [e], day) == OnDay(part, entries, day) + On(part(e), day)
  {
    assert (entries + [e])[..|entries|] == entries;
  }

  /** An entry more adds its own part to every day, and nothing else. */
  lemma OneMore(part: Entry -> Hours, entries: seq<Entry>, e: Entry, day: int)
    ensures On(Gathered(part, entries + [e]), day) == On(Gathered(part, entries), day) + On(part(e), day)
  {
    assert (entries + [e])[..|entries|] == entries;
  }

  /** What one more entry counts for on a day: against its own basket, its price when it is
      time off and its figure when it stands for time off before; in its favour, its figure
      when hours are handed over; and away from the job, whatever it takes. */
  lemma OneMoreCounts(shelf: Shelf, basket: int, baskets: set<int>, entries: seq<Entry>, e: Entry, day: int)
    ensures
      var flat := if !e.cancelled && e.starts.Some? && e.starts.value / 1440 == day then e.hours else 0;
      var own := e.basket == basket;
      && On(UsageByDate(shelf, basket, entries + [e]), day) - On(UsageByDate(shelf, basket, entries), day)
         == (if own && e.direction == Use then On(Split(shelf, e, true), day)
             else if own && e.direction == Prior then flat else 0)
      && On(CreditByDate(basket, entries + [e]), day) - On(CreditByDate(basket, entries), day)
         == (if own && e.direction == Accrue then flat else 0)
      && On(AbsenceByDate(shelf, baskets, entries + [e]), day) - On(AbsenceByDate(shelf, baskets, entries), day)
         == (if e.basket in baskets && e.direction == Use then On(Split(shelf, e, false), day) else 0)
    ensures UsageByDate(shelf, basket, []) == CreditByDate(basket, []) == AbsenceByDate(shelf, baskets, []) == map[]
  {
    OneMore(Spending(shelf, basket), entries, e, day);
    OneMore(Giving(basket), entries, e, day);
    OneMore(Leaving(shelf, baskets), entries, e, day);
  }

  /** The price of a booking day by day: nothing once it is cancelled; its hours; or, with a
      figure typed, that figure shared out as its hours are, or all put on its first day
      when it would cost nothing. */
  lemma PriceIs(shelf: Shelf, e: Entry, day: int)
    ensures
      var (price, hours) := (On(Split(shelf, e, true), day), HoursByDate(shelf, e, true));
      var total := if Timed(e) then Sum(hours, e.starts.value / 1440, e.ends.value / 1440) else 0;
      && (e.cancelled ==> price == 0)
      && (!e.cancelled && (!e.overridden || (total > 0 && total == e.hours)) ==> price == On(hours, day))
      && (!e.cancelled && e.overridden && total > 0 && total != e.hours ==>
            price == if day in hours then RoundHalfEven(Factored(hours[day], e.hours, total)) else 0)
      && (!e.cancelled && e.overridden && total <= 0 ==>
            price == if e.starts.Some? && day == e.starts.value / 1440 then e.hours else 0)
  {
    var hours := HoursByDate(shelf, e, true);
    assert (map d | d in hours && d !in FreeDays(shelf, e, true) :: hours[d]) == hours;
    assert forall scaled: Hours :: scaled + map[] == scaled;
  }

  /** A share of a figure: so many hours of a total, of what was stored. */
  lemma FactoredIs(hours: int, stored: int, billed: int)
    requires billed > 0
    ensures Factored(hours, stored, billed) * billed as real == hours as real * stored as real
  {
    assert stored as real / billed as real * billed as real == stored as real;
  }

  // --------------------------------------------------- more than a day holds

  /** workable_hours. */
  function WorkableHours(shelf: Shelf, day: int): (hours: nat)
    ensures day in Holidays.DatesBetween(shelf.holidays, shelf.own, day, day) ==> hours == 0
    ensures Weekday(day) in shelf.accrualOnly ==> hours == 0
    ensures Weekday(day) !in shelf.accrualOnly && day !in Holidays.DatesBetween(shelf.holidays, shelf.own, day, day)
            ==> hours == RoundHalfEven(ScheduledMinutes(shelf, Weekday(day)) as real * 100.0 / 60.0)
  {
    if day in Shut(shelf, day, day) || !Attends(shelf, Weekday(day)) then 0
    else AsHours(ScheduledMinutes(shelf, Weekday(day)))
  }

  function Others(entries: seq<Entry>, ignoring: Option<int>): seq<Entry> {
    if entries == [] then []
    else
      var n := |entries| - 1;
      Others(entries[..n], ignoring)
      + if ignoring == None || entries[n].id != ignoring.value then [entries[n]] else []
  }

  method ListOthers(entries: seq<Entry>, ignoring: Option<int>) returns (others: seq<Entry>)
    ensures others == Others(entries, ignoring)
  {
    others := [];
    for k := 0 to |entries|
      invariant others == Others(entries[..k], ignoring)
    {
      assert entries[..k + 1][..k] == entries[..k];
      if ignoring == None || entries[k].id != ignoring.value {
        others := others + [entries[k]];
      }
    }
    assert entries[..|entries|] == entries;
  }

  function Capacity(shelf: Shelf): int -> nat {
    day => WorkableHours(shelf, day)
  }

  predicate Fits(already: Hours, split: Hours, capacity: int -> nat, day: int) {
    day in split ==> On(already, day) + split[day] <= capacity(day)
  }

  /** The first day a booking asks past the hours workable on it, and what it has and holds. */
  ghost predicate FirstPastItsDay(shelf: Shelf, already: Hours, split: Hours, clash: Option<(int, int, int)>) {
    match clash
    case None => forall d :: d in split ==> On(already, d) + split[d] <= WorkableHours(shelf, d)
    case Some((day, taken, holds)) =>
      && day in split && taken == On(already, day) && holds == WorkableHours(shelf, day)
      && taken + split[day] > holds
      && forall d :: d in split && d < day ==> On(already, d) + split[d] <= WorkableHours(shelf, d)
  }

  lemma {:induction false} ClashTells(shelf: Shelf, already: Hours, split: Hours, clash: Option<(int, int, int)>)
    requires
      match clash
      case None => forall d :: Fits(already, split, Capacity(shelf), d)
      case Some((day, taken, holds)) =>
        && !Fits(already, split, Capacity(shelf), day) && taken == On(already, day) && holds == Capacity(shelf)(day)
        && forall d :: d < day ==> Fits(already, split, Capacity(shelf), d)
    ensures FirstPastItsDay(shelf, already, split, clash)
  {
    forall d ensures d in split && Fits(already, split, Capacity(shelf), d) ==>
                       On(already, d) + split[d] <= WorkableHours(shelf, d)
    {
    }
  }

  /** booked_beyond: the first day asked for more than it holds, if any. */
  method BookedBeyond(shelf: Shelf, baskets: set<int>, entries: seq<Entry>, proposed: Entry, ignoring: Option<int>)
    returns (clash: Option<(int, int, int)>)
    ensures
      var already, split := AbsenceByDate(shelf, baskets, Others(entries, ignoring)), Split(shelf, proposed, true);
      match clash
      case None => forall d :: Fits(already, split, Capacity(shelf), d)
      case Some((day, taken, capacity)) =>
        && !Fits(already, split, Capacity(shelf), day)
        && taken == On(already, day) && capacity == Capacity(shelf)(day)
        && forall d :: d < day ==> Fits(already, split, Capacity(shelf), d)
    ensures FirstPastItsDay(shelf, AbsenceByDate(shelf, baskets, Others(entries, ignoring)),
                            Split(shelf, proposed, true), clash)
  {
    var split := Split(shelf, proposed, true);
    if split == map[] {
      return None;
    }
    var others := ListOthers(entries, ignoring);
    var already := Gather(Leaving(shelf, baskets), others);
    AscendingListIs(split.Keys);
    clash := FirstBeyond(already, split, Capacity(shelf), AscendingList(split.Keys));
    ClashTells(shelf, already, split, clash);
  }

  method FirstBeyond(already: Hours, split: Hours, capacity: int -> nat, days: seq<int>)
    returns (clash: Option<(int, int, int)>)
    requires Ascending(days) && forall d :: d in days <==> d in split
    ensures
      match clash
      case None => forall d :: Fits(already, split, capacity, d)
      case Some((day, taken, held)) =>
        && !Fits(already, split, capacity, day)
        && taken == On(already, day) && held == capacity(day)
        && forall d :: d < day ==> Fits(already, split, capacity, d)
  {
    for k := 0 to |days|
      invariant forall j :: 0 <= j < k ==> Fits(already, split, capacity, days[j])
    {
      assert days[k] in days;
      if On(already, days[k]) + split[days[k]] > capacity(days[k]) {
        forall d | d < days[k] ensures Fits(already, split, capacity, d) {
          if d in split {
            var j :| 0 <= j < |days| && days[j] == d;
            assert j < k;
          }
        }
        return Some((days[k], On(already, days[k]), capacity(days[k])));
      }
    }
    return None;
  }
}
