/** The booking guard on a weekday nobody bills (loaf_app.py and loaf_forecast.py): it
    measures what a booking is charged, so hours away that cost nothing pass it by. */
module UnbilledDays {
  import opened Wrappers
  import opened Rounding
  import opened Calendar
  import opened LoafWalk
  import opened Shelf
  import opened Bookings
  import opened BookingGuard
  import Holidays

  // ------------------------------------------------ bookings let through

  /** A booking as it is stored, that the guard has nothing against. */
  ghost predicate Passes(shelf: Shelf, baskets: set<int>, others: seq<Entry>, e: Entry) {
    && e.direction == Use && e.basket in baskets && e.hours >= 0
    && e == Recomputed(shelf, e) && EntryHours(shelf, e) > 0
    && (forall k :: 0 <= k < |others| ==> others[k].id != e.id)
    && forall d :: Room(shelf, AbsenceByDate(shelf, baskets, others), Split(shelf, e, false), d)
  }

  /** Bookings made one after the other, each of them let through. */
  ghost predicate LetThrough(shelf: Shelf, baskets: set<int>, entries: seq<Entry>) {
    entries == []
    || (LetThrough(shelf, baskets, entries[..|entries| - 1])
        && Passes(shelf, baskets, entries[..|entries| - 1], entries[|entries| - 1]))
  }

  /** So the guard's invariant holds of them. */
  lemma {:induction false} LetThroughHolds(shelf: Shelf, baskets: set<int>, entries: seq<Entry>)
    requires LetThrough(shelf, baskets, entries)
    ensures forall d :: Holds(shelf, baskets, entries, d)
    ensures forall k :: 0 <= k < |entries| ==> Sensible(shelf, entries[k]) && entries[k].basket in baskets
  {
    if entries != [] {
      var n := |entries| - 1;
      var others, e := entries[..n], entries[n];
      LetThroughHolds(shelf, baskets, others);
      assert entries == others + [e];
      forall d ensures Holds(shelf, baskets, entries, d) {
        assert Holds(shelf, baskets, others, d);
        assert Room(shelf, AbsenceByDate(shelf, baskets, others), Split(shelf, e, false), d);
        OneMore(Leaving(shelf, baskets), others, e, d);
      }
      forall k | 0 <= k < |entries| ensures Sensible(shelf, entries[k]) && entries[k].basket in baskets {
        if k < n {
          assert entries[k] == others[k];
        }
      }
    }
  }

  /** It is what the desk does: made there in turn, every one of them is saved as it is. */
  method BookInTurn(shelf: Shelf, baskets: set<int>, entries: seq<Entry>) returns (desk: Desk)
    requires LetThrough(shelf, baskets, entries)
    ensures fresh(desk) && desk.Valid() && desk.jobs == [Job(shelf, baskets)] && desk.entries == entries
  {
    if entries == [] {
      return new Desk([Job(shelf, baskets)]);
    }
    var n := |entries| - 1;
    desk := BookInTurn(shelf, baskets, entries[..n]);
    var outcome := desk.Create(entries[n], entries[n].id);
    assert entries == entries[..n] + [entries[n]];
  }

  lemma LetThroughOneMore(shelf: Shelf, baskets: set<int>, entries: seq<Entry>, e: Entry)
    requires LetThrough(shelf, baskets, entries) && Passes(shelf, baskets, entries, e)
    ensures LetThrough(shelf, baskets, entries + [e])
  {
    assert (entries + [e])[..|entries|] == entries;
  }

  // ------------------------------------------- what a booking can take hours from

  /** Shifts keep to one day's clock, as the form reads them. */
  ghost predicate Clocked(shelf: Shelf) {
    forall w :: w in shelf.week ==> 0 <= shelf.week[w].start && shelf.week[w].end < 1440
  }

  /** A weekday some of which can be taken off: not one whose only minute is its break. */
  predicate Works(shelf: Shelf, weekday: DayOfWeek) {
    Attends(shelf, weekday)
    && match ScheduleFor(shelf, weekday)
       case None => false
       case Some(shift) => shift.end - shift.start >= 2 || shift.pause == 0
  }

  /** Two days that one booking can take hours from: neither is shut within the span of both. */
  predicate TakenTogether(shelf: Shelf, b: int, d: int) {
    var first, last := if b <= d then b else d, if b <= d then d else b;
    && Works(shelf, Weekday(b)) && Works(shelf, Weekday(d))
    && b !in Shut(shelf, first, last) && d !in Shut(shelf, first, last)
  }

  lemma MinutesOffWorks(shelf: Shelf, e: Entry, shut: set<int>, day: int)
    requires Timed(e) && MinutesOff(shelf, e, shut, day) > 0
    ensures day !in shut && Works(shelf, Weekday(day))
  {
  }

  lemma {:induction false} SomeDayOf(hours: Hours, a: int, b: int) returns (day: int)
    requires Sum(hours, a, b) > 0
    ensures a <= day <= b && On(hours, day) > 0
    decreases b - a
  {
    if On(hours, b) > 0 {
      day := b;
    } else {
      day := SomeDayOf(hours, a, b - 1);
    }
  }

  /** A day shut within a span is shut within any longer one. */
  lemma ShutWithin(shelf: Shelf, first: int, last: int, a: int, b: int, day: int)
    requires first <= a <= day <= b <= last && day in Shut(shelf, a, b)
    ensures day in Shut(shelf, first, last)
  {
    Holidays.SpanIsYearAndSpill(shelf.holidays, shelf.own, a, b, day);
    Holidays.SpanIsYearAndSpill(shelf.holidays, shelf.own, first, last, day);
    MonthOfMonotone(first, a);
    MonthOfMonotone(b, last);
  }

  /** A booking that costs something takes hours from some billed day, and from any
      other day it does together with that one. */
  lemma TakesFromBoth(shelf: Shelf, e: Entry, d: int) returns (b: int)
    requires EntryHours(shelf, e) > 0 && d in HoursByDate(shelf, e, false)
    ensures Billed(shelf, b) && TakenTogether(shelf, b, d)
  {
    var first, last := FirstDay(e), LastDay(e);
    var shut := Shut(shelf, first, last);
    b := SomeDayOf(HoursByDate(shelf, e, true), first, last);
    HoursUpToHas(shelf, e, shut, true, last, b);
    HoursUpToHas(shelf, e, shut, false, last, d);
    MinutesOffWorks(shelf, e, shut, b);
    MinutesOffWorks(shelf, e, shut, d);
    var from, until := if b <= d then b else d, if b <= d then d else b;
    if b in Shut(shelf, from, until) {
      ShutWithin(shelf, first, last, from, until, b);
    }
    if d in Shut(shelf, from, until) {
      ShutWithin(shelf, first, last, from, until, d);
    }
  }

  /** From the last minute worked on one day to the first worked on a later one. */
  function MinuteOfEach(one: Shift, two: Shift, x: int, y: int, basket: int): Entry {
    Entry(1, basket, Some(Midnight(x) + one.end - 1), Some(Midnight(y) + two.start + 1), false, 0, true, false, Use)
  }

  lemma EndsOfTheBooking(one: Shift, two: Shift, x: int, y: int, basket: int)
    requires x < y && 1 <= one.end < 1440 && 0 <= two.start < 1439
    ensures
      var e := MinuteOfEach(one, two, x, y, basket);
      Timed(e) && FirstDay(e) == x && LastDay(e) == y
  {
    DayOfMinute(x, one.end - 1);
    DayOfMinute(y, two.start + 1);
  }

  lemma AMinuteOff(shift: Shift, day: int, starts: int, ends: int)
    requires 0 <= shift.start < shift.end < 1440 && (shift.end - shift.start >= 2 || shift.pause == 0)
    requires || (starts == Midnight(day) + shift.end - 1 && ends >= Midnight(day + 1))
             || (starts < Midnight(day) && ends == Midnight(day) + shift.start + 1)
    ensures Covered(shift, false, starts, ends, day) > 0
  {
  }

  /** Two such days can be taken together: one booking takes a minute of each. */
  lemma TakesAMinuteOfEach(shelf: Shelf, x: int, y: int, basket: int) returns (e: Entry)
    requires Clocked(shelf) && x < y && TakenTogether(shelf, x, y)
    ensures e.direction == Use && e.basket == basket && e.overridden && e.hours == 0 && !e.cancelled
    ensures x in HoursByDate(shelf, e, false) && y in HoursByDate(shelf, e, false)
  {
    var one, two := ScheduleFor(shelf, Weekday(x)).value, ScheduleFor(shelf, Weekday(y)).value;
    e := MinuteOfEach(one, two, x, y, basket);
    EndsOfTheBooking(one, two, x, y, basket);
    AMinuteOff(one, x, e.starts.value, e.ends.value);
    AMinuteOff(two, y, e.starts.value, e.ends.value);
    HoursUpToHas(shelf, e, Shut(shelf, x, y), false, y, x);
    HoursUpToHas(shelf, e, Shut(shelf, x, y), false, y, y);
  }

  lemma {:induction false} SumIsPositive(hours: Hours, a: int, b: int, day: int)
    requires a <= day <= b && On(hours, day) > 0 && forall d :: On(hours, d) >= 0
    ensures Sum(hours, a, b) > 0
    decreases b - a
  {
    SumAtLeast(map[], hours, a, b - 1);
    if day < b {
      SumIsPositive(hours, a, b - 1, day);
    }
  }

  /** A booking that takes hours from a billed day costs something. */
  lemma CostsSomething(shelf: Shelf, e: Entry, b: int)
    requires Billed(shelf, b) && b in HoursByDate(shelf, e, false)
    ensures EntryHours(shelf, e) > 0
  {
    PriceIsBilledAbsence(shelf, e, b);
    forall d ensures On(HoursByDate(shelf, e, true), d) >= 0 {
      PriceIsBilledAbsence(shelf, e, d);
    }
    SumIsPositive(HoursByDate(shelf, e, true), FirstDay(e), LastDay(e), b);
  }

  // -------------------------------------------- typed as costing nothing

  /** A booking whose cost was typed as nothing is charged nothing on any billed day,
      and is away from the others all the same. */
  lemma TypedAsNothing(shelf: Shelf, e: Entry, d: int)
    requires EntryHours(shelf, e) > 0 && e.overridden && e.hours == 0 && !e.cancelled
    ensures On(Split(shelf, e, false), d) == if Billed(shelf, d) then 0 else On(HoursByDate(shelf, e, false), d)
  {
    var price := HoursByDate(shelf, e, true);
    PriceAndAbsenceAgree(shelf, e, d);
    PriceIsBilledAbsence(shelf, e, d);
    SplitOfTyped(shelf, e);
    ChargedIsThePrice(shelf, e);
    AwayCostsAtLeastThePrice(shelf, e);
    RescaledToNothing(price, EntryHours(shelf, e), d);
  }

  lemma RescaledToNothing(charged: Hours, billed: int, d: int)
    requires billed > 0
    ensures On(Rescaled(charged, 0, billed), d) == 0
  {
    if d in charged {
      assert Factored(charged[d], 0, billed) == 0.0;
    }
  }

  /** The same booking n times over, under ids of its own. */
  function Again(e: Entry, n: nat): seq<Entry> {
    if n == 0 then [] else Again(e, n - 1) + [e.(id := n)]
  }

  lemma {:induction false} AgainHas(e: Entry, n: nat)
    ensures |Again(e, n)| == n && forall k :: 0 <= k < n ==> Again(e, n)[k] == e.(id := k + 1)
  {
    if n > 0 {
      AgainHas(e, n - 1);
    }
  }

  /** A booking charged nothing, over and over. */
  ghost predicate Costless(shelf: Shelf, baskets: set<int>, e: Entry) {
    && EntryHours(shelf, e) > 0 && e.overridden && e.hours == 0 && !e.cancelled
    && e.direction == Use && e.basket in baskets
  }

  lemma CostlessAgain(shelf: Shelf, baskets: set<int>, e: Entry, id: int)
    requires Costless(shelf, baskets, e)
    ensures Costless(shelf, baskets, e.(id := id))
    ensures HoursByDate(shelf, e.(id := id), false) == HoursByDate(shelf, e, false)
  {
    CostIgnoresTheFigure(shelf, e, 0, id, true);
    CostIgnoresTheFigure(shelf, e, 0, id, false);
    assert e.(hours := 0, id := id) == e.(id := id);
  }

  lemma {:induction false} GatheredAgain(part: Entry -> Hours, e: Entry, n: nat, d: int, hours: int)
    requires forall k: nat :: On(part(e.(id := k)), d) == hours
    ensures On(Gathered(part, Again(e, n)), d) == n * hours
  {
    if n > 0 {
      GatheredAgain(part, e, n - 1, d, hours);
      OneMore(part, Again(e, n - 1), e.(id := n), d);
      OnceMore(n, hours);
    }
  }

  /** It takes its hours off an unbilled day every time, and none off a billed one. */
  lemma AgainTakes(shelf: Shelf, baskets: set<int>, e: Entry, n: nat, d: int)
    requires Costless(shelf, baskets, e)
    ensures On(AbsenceByDate(shelf, baskets, Again(e, n)), d)
         == n * if Billed(shelf, d) then 0 else On(HoursByDate(shelf, e, false), d)
  {
    var part, hours := Leaving(shelf, baskets), if Billed(shelf, d) then 0 else On(HoursByDate(shelf, e, false), d);
    forall k: nat ensures On(part(e.(id := k)), d) == hours {
      LeavesAgain(shelf, baskets, e, k, d);
    }
    GatheredAgain(part, e, n, d, hours);
  }

  lemma LeavesAgain(shelf: Shelf, baskets: set<int>, e: Entry, id: int, d: int)
    requires Costless(shelf, baskets, e)
    ensures On(Leaving(shelf, baskets)(e.(id := id)), d)
         == if Billed(shelf, d) then 0 else On(HoursByDate(shelf, e, false), d)
  {
    CostlessAgain(shelf, baskets, e, id);
    TypedAsNothing(shelf, e.(id := id), d);
  }

  /** It is let through every time. */
  lemma {:induction false} AgainPasses(shelf: Shelf, baskets: set<int>, e: Entry, n: nat)
    requires Costless(shelf, baskets, e)
    ensures LetThrough(shelf, baskets, Again(e, n))
  {
    if n > 0 {
      AgainPasses(shelf, baskets, e, n - 1);
      OnceAgain(shelf, baskets, e, n - 1);
      LetThroughOneMore(shelf, baskets, Again(e, n - 1), e.(id := n));
    }
  }

  lemma OnceAgain(shelf: Shelf, baskets: set<int>, e: Entry, n: nat)
    requires Costless(shelf, baskets, e)
    ensures Passes(shelf, baskets, Again(e, n), e.(id := n + 1))
  {
    var others, last := Again(e, n), e.(id := n + 1);
    AgainHas(e, n);
    CostlessAgain(shelf, baskets, e, n + 1);
    forall d ensures Room(shelf, AbsenceByDate(shelf, baskets, others), Split(shelf, last, false), d) {
      RoomAgain(shelf, baskets, e, n, d);
    }
  }

  lemma RoomAgain(shelf: Shelf, baskets: set<int>, e: Entry, n: nat, d: int)
    requires Costless(shelf, baskets, e)
    ensures Room(shelf, AbsenceByDate(shelf, baskets, Again(e, n)), Split(shelf, e.(id := n + 1), false), d)
  {
    AgainTakes(shelf, baskets, e, n, d);
    LeavesAgain(shelf, baskets, e, n + 1, d);
  }

  lemma OnceMore(n: nat, hours: int)
    requires n > 0
    ensures n * hours == (n - 1) * hours + hours
  {
  }

  // -------------------------------------------------------- the exact condition

  /** Some bookings let through take more off a day than it holds. */
  ghost predicate TakenPast(shelf: Shelf, baskets: set<int>, d: int) {
    exists entries :: LetThrough(shelf, baskets, entries)
                      && On(AbsenceByDate(shelf, baskets, entries), d) > WorkableHours(shelf, d)
  }

  lemma {:induction false} SomeEntryOn(part: Entry -> Hours, entries: seq<Entry>, d: int) returns (k: nat)
    requires OnDay(part, entries, d) > 0
    ensures k < |entries| && On(part(entries[k]), d) > 0
  {
    var n := |entries| - 1;
    if On(part(entries[n]), d) > 0 {
      k := n;
    } else {
      k := SomeEntryOn(part, entries[..n], d);
    }
  }

  /** Of any bookings the guard's invariant holds of: only a day nobody bills can be
      past what it holds, and only where it can be taken together with one that is. */
  lemma {:induction false} OnlyUnbilled(shelf: Shelf, baskets: set<int>, entries: seq<Entry>, d: int) returns (b: int)
    requires Holds(shelf, baskets, entries, d)
    requires forall k :: 0 <= k < |entries| ==> Sensible(shelf, entries[k])
    requires On(AbsenceByDate(shelf, baskets, entries), d) > WorkableHours(shelf, d)
    ensures !Billed(shelf, d) && Billed(shelf, b) && TakenTogether(shelf, b, d)
  {
    GatheredOn(Leaving(shelf, baskets), entries, d);
    var k := SomeEntryOn(Leaving(shelf, baskets), entries, d);
    AwayOnAFreeDay(shelf, entries[k], d);
    b := TakesFromBoth(shelf, entries[k], d);
  }

  lemma AwayOnAFreeDay(shelf: Shelf, e: Entry, d: int)
    requires EntryHours(shelf, e) > 0 && !Billed(shelf, d) && On(Split(shelf, e, false), d) > 0
    ensures d in HoursByDate(shelf, e, false)
  {
    PriceIsBilledAbsence(shelf, e, d);
    if e.overridden {
      ChargedIsThePrice(shelf, e);
      AwayCostsAtLeastThePrice(shelf, e);
    }
  }

  /** A day can be taken past what it holds exactly when nobody bills it and it can be
      taken together with a day somebody does. */
  lemma {:induction false} TakenPastExactly(shelf: Shelf, baskets: set<int>, basket: int, d: int)
    requires Clocked(shelf) && basket in baskets
    ensures TakenPast(shelf, baskets, d)
            <==> !Billed(shelf, d) && exists b :: Billed(shelf, b) && TakenTogether(shelf, b, d)
  {
    if TakenPast(shelf, baskets, d) {
      var entries :| LetThrough(shelf, baskets, entries)
                     && On(AbsenceByDate(shelf, baskets, entries), d) > WorkableHours(shelf, d);
      LetThroughHolds(shelf, baskets, entries);
      var b := OnlyUnbilled(shelf, baskets, entries, d);
    }
    if !Billed(shelf, d) && exists b :: Billed(shelf, b) && TakenTogether(shelf, b, d) {
      var b :| Billed(shelf, b) && TakenTogether(shelf, b, d);
      TakenAgainAndAgain(shelf, baskets, basket, b, d);
    }
  }

  lemma TakenAgainAndAgain(shelf: Shelf, baskets: set<int>, basket: int, b: int, d: int)
    requires Clocked(shelf) && basket in baskets && !Billed(shelf, d) && Billed(shelf, b) && TakenTogether(shelf, b, d)
    ensures TakenPast(shelf, baskets, d)
  {
    var e := TakesAMinuteOfEach(shelf, if b < d then b else d, if b < d then d else b, basket);
    CostsSomething(shelf, e, b);
    var times := WorkableHours(shelf, d) + 1;
    AgainPasses(shelf, baskets, e, times);
    AgainTakes(shelf, baskets, e, times, d);
    PriceIsBilledAbsence(shelf, e, d);
    AtLeastOnceEach(times, On(HoursByDate(shelf, e, false), d));
  }

  lemma AtLeastOnceEach(n: nat, hours: int)
    requires hours >= 1
    ensures n * hours >= n
  {
  }

  // ------------------------------------------------------------- by the week

  lemma NoHolidays(shelf: Shelf, first: int, last: int)
    requires shelf.holidays == [] && shelf.own == []
    ensures Shut(shelf, first, last) == {}
  {
    forall d ensures d !in Shut(shelf, first, last) {
      Holidays.SpanHas(Holidays.YearDays([], []), YearOfDay(first), Holidays.YearsSpanned(first, last), first, last, d);
    }
  }

  /** With no holidays: exactly when the day is worked and unbilled, and some weekday is
      worked and billed. */
  lemma {:induction false} TakenPastByTheWeek(shelf: Shelf, baskets: set<int>, basket: int, d: int)
    requires Clocked(shelf) && basket in baskets && shelf.holidays == [] && shelf.own == []
    ensures TakenPast(shelf, baskets, d)
            <==> && Works(shelf, Weekday(d)) && !Billed(shelf, d)
                 && exists w: DayOfWeek :: Works(shelf, w) && Charges(shelf, w)
  {
    TakenPastExactly(shelf, baskets, basket, d);
    forall b ensures TakenTogether(shelf, b, d) <==> Works(shelf, Weekday(b)) && Works(shelf, Weekday(d)) {
      NoHolidays(shelf, if b <= d then b else d, if b <= d then d else b);
    }
    if w: DayOfWeek :| Works(shelf, w) && Charges(shelf, w) {
      var b := d + DaysUntil(d, w);
      assert Billed(shelf, b) && Works(shelf, Weekday(b));
    }
  }

  // --------------------------------------------------- by whole days off

  /** A day somebody attends and works. */
  ghost predicate FullDay(shelf: Shelf, d: int) {
    Attends(shelf, Weekday(d)) && ScheduledMinutes(shelf, Weekday(d)) > 0
  }

  /** Whole days off, one after the other, stored at what they cost. */
  function WholeDays(shelf: Shelf, id: int, basket: int, first: int, last: int): Entry {
    Recomputed(shelf, Asked(id, basket, first, last))
  }

  function Asked(id: int, basket: int, first: int, last: int): Entry {
    Entry(id, basket, Some(Midnight(first)), Some(Midnight(last) + 1439), true, 0, false, false, Use)
  }

  lemma AskedSpans(id: int, basket: int, first: int, last: int)
    requires first <= last
    ensures
      var e := Asked(id, basket, first, last);
      Timed(e) && FirstDay(e) == first && LastDay(e) == last
  {
    DayOfMinute(first, 0);
    DayOfMinute(last, 1439);
  }

  lemma DayOff(shelf: Shelf, id: int, basket: int, first: int, last: int, d: int)
    requires shelf.holidays == [] && shelf.own == [] && first <= last
    ensures On(HoursByDate(shelf, Asked(id, basket, first, last), false), d)
         == if first <= d <= last then WorkableHours(shelf, d) else 0
  {
    var e := Asked(id, basket, first, last);
    AskedSpans(id, basket, first, last);
    NoHolidays(shelf, first, last);
    NoHolidays(shelf, d, d);
    HoursUpToHas(shelf, e, {}, false, last, d);
    SomeMinutesSomeHours(ScheduledMinutes(shelf, Weekday(d)));
  }

  /** Taken as whole days: every day of the span its own hours, and something to pay for. */
  lemma WholeDaysTake(shelf: Shelf, id: int, basket: int, first: int, last: int, billed: int)
    requires shelf.holidays == [] && shelf.own == [] && first <= billed <= last
    requires FullDay(shelf, billed) && Billed(shelf, billed)
    ensures
      var e := WholeDays(shelf, id, basket, first, last);
      && EntryHours(shelf, e) > 0 && e.hours >= 0 && e == Recomputed(shelf, e)
      && TakesOff(shelf, e, first, last)
  {
    var e := Asked(id, basket, first, last);
    FullDayHolds(shelf, billed);
    DayOff(shelf, id, basket, first, last, billed);
    CostsSomething(shelf, e, billed);
    StoredAsMeasured(shelf, e, id, false);
    forall d ensures On(Split(shelf, e, false), d) == if first <= d <= last then WorkableHours(shelf, d) else 0 {
      DayOff(shelf, id, basket, first, last, d);
    }
  }

  lemma FullDayHolds(shelf: Shelf, d: int)
    requires shelf.holidays == [] && shelf.own == [] && FullDay(shelf, d)
    ensures WorkableHours(shelf, d) > 0
  {
    NoHolidays(shelf, d, d);
    SomeMinutesSomeHours(ScheduledMinutes(shelf, Weekday(d)));
  }

  /** Nothing typed, nothing in part: whole days off from a billed day up to an unbilled
      one, and from it up to that billed weekday again, are both let through and take
      the day between off twice. */
  lemma UnbilledDayTakenTwice(shelf: Shelf, basket: int, d: int, j: nat)
    requires shelf.holidays == [] && shelf.own == [] && FullDay(shelf, d) && !Billed(shelf, d)
    requires 1 <= j <= 6 && FullDay(shelf, d - j) && Billed(shelf, d - j)
    ensures
      var a, b := WholeDays(shelf, 1, basket, d - j, d), WholeDays(shelf, 2, basket, d, d + 7 - j);
      && LetThrough(shelf, {basket}, [a, b])
      && On(AbsenceByDate(shelf, {basket}, [a, b]), d) == 2 * WorkableHours(shelf, d) > WorkableHours(shelf, d)
  {
    var a, b := WholeDays(shelf, 1, basket, d - j, d), WholeDays(shelf, 2, basket, d, d + 7 - j);
    SameWeekdayAgain(d - j);
    WholeDaysTake(shelf, 1, basket, d - j, d, d - j);
    WholeDaysTake(shelf, 2, basket, d, d + 7 - j, d + 7 - j);
    MeetOnAFreeDay(shelf, basket, a, b, d - j, d, d + 7 - j);
    FullDayHolds(shelf, d);
  }

  /** Hours off every day of a span, and no other. */
  ghost predicate TakesOff(shelf: Shelf, e: Entry, first: int, last: int) {
    forall x :: On(Split(shelf, e, false), x) == if first <= x <= last then WorkableHours(shelf, x) else 0
  }

  ghost predicate AsStored(shelf: Shelf, basket: int, e: Entry) {
    e.direction == Use && e.basket == basket && e.hours >= 0 && e == Recomputed(shelf, e) && EntryHours(shelf, e) > 0
  }

  /** Two bookings that have only an unbilled day in common are both let through. */
  lemma MeetOnAFreeDay(shelf: Shelf, basket: int, a: Entry, b: Entry, first: int, d: int, last: int)
    requires AsStored(shelf, basket, a) && AsStored(shelf, basket, b) && a.id != b.id && !Billed(shelf, d)
    requires TakesOff(shelf, a, first, d) && TakesOff(shelf, b, d, last) && first <= d <= last
    ensures LetThrough(shelf, {basket}, [a, b])
    ensures On(AbsenceByDate(shelf, {basket}, [a, b]), d) == 2 * WorkableHours(shelf, d)
  {
    assert [] + [a] == [a] && [a] + [b] == [a, b];
    FirstPasses(shelf, basket, a, first, d);
    LetThroughOneMore(shelf, {basket}, [], a);
    SecondPasses(shelf, basket, a, b, first, d, last);
    LetThroughOneMore(shelf, {basket}, [a], b);
    AwayOnTwo(shelf, {basket}, a, b, d);
  }

  lemma FirstPasses(shelf: Shelf, basket: int, a: Entry, first: int, last: int)
    requires AsStored(shelf, basket, a) && TakesOff(shelf, a, first, last)
    ensures Passes(shelf, {basket}, [], a)
  {
  }

  lemma SecondPasses(shelf: Shelf, basket: int, a: Entry, b: Entry, first: int, d: int, last: int)
    requires AsStored(shelf, basket, a) && AsStored(shelf, basket, b) && a.id != b.id && !Billed(shelf, d)
    requires TakesOff(shelf, a, first, d) && TakesOff(shelf, b, d, last)
    ensures Passes(shelf, {basket}, [a], b)
  {
    var already := AbsenceByDate(shelf, {basket}, [a]);
    forall x ensures Room(shelf, already, Split(shelf, b, false), x) {
      AwayOnTwo(shelf, {basket}, a, b, x);
      MeetingHasRoom(shelf, already, Split(shelf, a, false), Split(shelf, b, false), first, d, last, x);
    }
  }

  lemma MeetingHasRoom(shelf: Shelf, already: Hours, one: Hours, two: Hours, first: int, d: int, last: int, x: int)
    requires On(already, x) == On(one, x) && !Billed(shelf, d)
    requires On(one, x) == if first <= x <= d then WorkableHours(shelf, x) else 0
    requires On(two, x) == if d <= x <= last then WorkableHours(shelf, x) else 0
    ensures Room(shelf, already, two, x)
  {
  }

  lemma SameWeekdayAgain(d: int)
    ensures Weekday(d + 7) == Weekday(d)
  {
  }

  lemma AwayOnTwo(shelf: Shelf, baskets: set<int>, a: Entry, b: Entry, d: int)
    requires a.basket in baskets && b.basket in baskets && a.direction == Use && b.direction == Use
    ensures On(AbsenceByDate(shelf, baskets, [a]), d) == On(Split(shelf, a, false), d)
    ensures On(AbsenceByDate(shelf, baskets, [a, b]), d)
         == On(Split(shelf, a, false), d) + On(Split(shelf, b, false), d)
  {
    OneMore(Leaving(shelf, baskets), [], a, d);
    OneMore(Leaving(shelf, baskets), [a], b, d);
    assert [] + [a] == [a] && [a] + [b] == [a, b];
  }
}
