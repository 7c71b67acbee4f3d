/** loaf_app.py, _backfill_year: filling in the leave year behind a basket that
    was created part-way through it. */
module Backfill {
  import opened Wrappers
  import opened Sorting
  import opened Calendar
  import opened Cadence
  import opened LoafWalk
  import opened Shelf
  import opened Bookings
  import opened Projection

  /** What the person is told, when anything was tried. */
  datatype Note = Refused(earned: int) | Recorded(earned: int, spent: int)

  predicate Fillable(shelf: Shelf, basket: Basket, today: int)
    requires Sound(shelf)
  {
    && (basket.accrual.Some? || basket.grant.Some?)
    && (basket.accrual.Some? ==> shelf.anchor.Some?)
    && YearBounds(shelf, today).0 < today
  }

  /** The basket at nothing on the first day of its year. */
  function Emptied(shelf: Shelf, basket: Basket, today: int): Basket
    requires Sound(shelf)
  {
    basket.(startingHours := 0, startingDate := Some(YearBounds(shelf, today).0))
  }

  /** What the replayed year says was left at the end of a day. */
  ghost function Replayed(shelf: Shelf, basket: Basket, today: int, when: int): int
    requires Sound(shelf)
  {
    Balance(shelf, Emptied(shelf, basket, today), map[], map[], today, today, map[], true, when)
  }

  /** The one entry that takes the total down to what was stated. */
  function Taken(id: int, basket: int, today: int, spent: int): Entry {
    Entry(id, basket, Some(Midnight(today)), Some(Midnight(today) + 1439), true, spent, true, false, Prior)
  }

  /** No hours away in any pay period paid since the year began, or an accrual
      that does not look at hours away. */
  ghost predicate Undisturbed(shelf: Shelf, basket: Basket, absence: Hours, today: int)
    requires Sound(shelf)
  {
    var start := YearBounds(shelf, today).0;
    basket.prorated ==> NoneAway(shelf, absence, start, PayDays(shelf, basket, start, today))
  }

  /** No hours away in the window of any of these pay dates. */
  ghost predicate NoneAway(shelf: Shelf, absence: Hours, start: int, days: seq<int>)
    requires Sound(shelf)
  {
    forall d :: d in days && d > start ==> Sum(absence, WindowStart(shelf, days, start, d) + 1, d) == 0
  }

  lemma YearStartIsItsOwn(shelf: Shelf, when: int)
    requires Sound(shelf)
    ensures YearBounds(shelf, YearBounds(shelf, when).0).0 == YearBounds(shelf, when).0
  {
    TurnInYear(shelf, YearBegun(shelf, when));
  }

  lemma {:induction false} SumOfNothing(a: int, b: int)
    ensures Sum(map[], a, b) == 0
    decreases b - a
  {
    if a <= b {
      SumOfNothing(a, b - 1);
    }
  }

  /** What a pay date earns looks at the accrual and at the hours away in its
      own window, and at nothing else about the basket. */
  lemma EarnsTheSame(shelf: Shelf, one: Basket, two: Basket, absence: Hours, windowStart: int, when: int)
    requires one.accrual.Some? && one.accrual == two.accrual && one.prorated == two.prorated
    requires one.prorated ==> Sum(absence, windowStart + 1, when) == 0
    ensures EarnedOn(shelf, one, map[], windowStart, when) == EarnedOn(shelf, two, absence, windowStart, when)
  {
    SumOfNothing(windowStart + 1, when);
  }

  /** What a basket earns over a list of pay dates, and over a longer one. */
  lemma {:induction false} EarnedSoFar(shelf: Shelf, one: Basket, two: Basket, absence: Hours, start: int,
                                       short: seq<int>, long: seq<int>, today: int, d: int)
    requires Sound(shelf) && (long != [] ==> one.accrual.Some?)
    requires one.accrual == two.accrual && one.prorated == two.prorated && d <= today
    requires |short| <= |long| && short == long[..|short|]
    requires forall k :: |short| <= k < |long| ==> long[k] > today
    requires one.prorated && d in short && d > start ==> Sum(absence, WindowStart(shelf, short, start, d) + 1, d) == 0
    ensures On(Earned(shelf, one, map[], start, short), d) == On(Earned(shelf, two, absence, start, long), d)
    ensures d in Earned(shelf, one, map[], start, short) <==> d in Earned(shelf, two, absence, start, long)
  {
    assert long == short + long[|short|..];
    if d in short && d > start {
      PeriodStartsExtend(long, |short|, PayDateBefore(shelf.cadence, long[0]), today, d);
      EarnsTheSame(shelf, one, two, absence, WindowStart(shelf, short, start, d), d);
    }
  }

  lemma TurnsSoFar(shelf: Shelf, start: int, today: int, through: int, d: int)
    requires Sound(shelf) && d <= today <= through
    ensures d in Turns(shelf, start, today, true) - {start} <==> d in Turns(shelf, start, through, false)
  {
    YearTurnsAre(shelf, start, today, d);
    YearTurnsAre(shelf, start, through, d);
  }

  lemma {:induction false} ReplayedAlike(shelf: Shelf, one: Basket, two: Basket, absence: Hours, start: int,
                                         short: seq<int>, long: seq<int>, today: int, through: int, t: Terms,
                                         t': Terms, d: int)
    requires Sound(shelf) && (long != [] ==> one.accrual.Some?) && d <= today <= through
    requires one.accrual == two.accrual && one.prorated == two.prorated
    requires |short| <= |long| && short == long[..|short|]
    requires forall k :: |short| <= k < |long| ==> long[k] > today
    requires one.prorated ==> NoneAway(shelf, absence, start, short)
    requires t.start == start && t.turns == Turns(shelf, start, today, true)
    requires t.earned == Earned(shelf, one, map[], start, short)
    requires t'.turns == Turns(shelf, start, through, false) && t'.earned == Earned(shelf, two, absence, start, long)
    ensures SameDay(t.(turns := t.turns - {t.start}), t', d)
  {
    EarnedSoFar(shelf, one, two, absence, start, short, long, today, d);
    TurnsSoFar(shelf, start, today, through, d);
  }

  /** What the terms of the two projections are, in one place. */
  lemma Replays(shelf: Shelf, one: Basket, two: Basket, start: int, today: int, through: int, later: int,
                absence: Hours, t: Terms, t': Terms)
    requires Sound(shelf) && one.startingDate == two.startingDate == Some(start) && start <= today <= through
    requires t == TermsOf(shelf, one, map[], today, today, true)
    requires t' == TermsOf(shelf, two, absence, through, later, false)
    ensures t.start == t'.start == start && t.through == today && t'.through == through
    ensures t.turns == Turns(shelf, start, today, true) && t'.turns == Turns(shelf, start, through, false)
    ensures t.earned == Earned(shelf, one, map[], start, PayDays(shelf, one, start, today))
    ensures t'.earned == Earned(shelf, two, absence, start, PayDays(shelf, two, start, through))
  {
  }

  /** The year as it was replayed and the year as it will be projected do the
      same things on every day up to today, once the opening turn is folded in. */
  lemma {:induction false} ReplayIsTheProjection(shelf: Shelf, basket: Basket, hours: int, absence: Hours, today: int,
                                                 through: int, later: int, t: Terms, t': Terms)
    requires Sound(shelf) && YearBounds(shelf, today).0 <= today <= through
    requires Undisturbed(shelf, basket, absence, today)
    requires t == TermsOf(shelf, Emptied(shelf, basket, today), map[], today, today, true)
    requires t' == TermsOf(shelf, Emptied(shelf, basket, today).(startingHours := hours),
                        absence, through, later, false)
    ensures t.start == t'.start == YearBounds(shelf, today).0 && t.through == today <= t'.through
    ensures forall d :: d <= today ==> SameDay(t.(turns := t.turns - {t.start}), t', d)
  {
    var one := Emptied(shelf, basket, today);
    var start := YearBounds(shelf, today).0;
    assert PayDays(shelf, one, start, today) == PayDays(shelf, basket, start, today);
    ReplayedFrom(shelf, one, one.(startingHours := hours), start, absence, today, through, later, t, t');
  }

  lemma {:induction false} ReplayedFrom(shelf: Shelf, one: Basket, two: Basket, start: int, absence: Hours,
                                        today: int, through: int, later: int, t: Terms, t': Terms)
    requires Sound(shelf) && one.startingDate == Some(start) && start <= today <= through
    requires two == one.(startingHours := two.startingHours)
    requires one.prorated ==> NoneAway(shelf, absence, start, PayDays(shelf, one, start, today))
    requires t == TermsOf(shelf, one, map[], today, today, true)
    requires t' == TermsOf(shelf, two, absence, through, later, false)
    ensures t.start == t'.start == start && t.through == today <= t'.through
    ensures forall d :: d <= today ==> SameDay(t.(turns := t.turns - {t.start}), t', d)
  {
    var short, long := PayDays(shelf, one, start, today), PayDays(shelf, one, start, through);
    PayDaysExtend(shelf, one, start, today, through);
    Replays(shelf, one, two, start, today, through, later, absence, t, t');
    forall d | d <= today ensures SameDay(t.(turns := t.turns - {t.start}), t', d) {
      ReplayedAlike(shelf, one, two, absence, start, short, long, today, through, t, t', d);
    }
  }

  /** A basket opened with what its year's first day left reads, at the end of
      today, what the replay earned less what has been put down for today. */
  lemma {:induction false} OpenedReads(shelf: Shelf, basket: Basket, usage: Hours, absence: Hours, today: int,
                                       through: int, later: int)
    requires Sound(shelf) && YearBounds(shelf, today).0 < today <= through
    requires Undisturbed(shelf, basket, absence, today)
    requires forall d :: d != today ==> On(usage, d) == 0
    ensures
      var start := YearBounds(shelf, today).0;
      var filled := Emptied(shelf, basket, today).(startingHours := Replayed(shelf, basket, today, start));
      Balance(shelf, filled, usage, absence, through, later, map[], false, today)
      == Replayed(shelf, basket, today, today) - On(usage, today)
  {
    var start := YearBounds(shelf, today).0;
    var one := Emptied(shelf, basket, today);
    var filled := one.(startingHours := Replayed(shelf, basket, today, start));
    var t := TermsOf(shelf, one, map[], today, today, true);
    var t' := TermsOf(shelf, filled, absence, through, later, false);
    ReplayIsTheProjection(shelf, basket, filled.startingHours, absence, today, through, later, t, t');
    TermsAreWellTimed(shelf, one, map[], today, today, true);
    OpenedDaily(t, t', usage, today);
  }

  lemma {:induction false} OpenedDaily(t: Terms, t': Terms, usage: Hours, today: int)
    requires WellTimed(t) && t.start == t'.start < today && t.through == today <= t'.through
    requires t'.opening == Daily(t, map[], map[], t.start)
    requires t.carryover == t'.carryover && t.grant == t'.grant && t.ceiling == t'.ceiling
    requires forall d :: d <= today ==> SameDay(t.(turns := t.turns - {t.start}), t', d)
    requires forall d :: d != today ==> On(usage, d) == 0
    ensures Daily(t', usage, map[], today) == Daily(t, map[], map[], today) - On(usage, today)
  {
    var folded := t.(opening := t'.opening, turns := t.turns - {t.start});
    OpeningTurnFoldsIn(t, map[], map[], today);
    forall d | d <= today ensures SameDay(folded, t', d) {
      assert SameDay(t.(turns := t.turns - {t.start}), t', d);
    }
    SameDaysSameBalance(folded, t', map[], map[], today);
    MovesByExactly(t', map[], map[], usage, map[], today);
  }

  /** A basket that starts today reads what it started with. */
  lemma StartedTodayReads(shelf: Shelf, basket: Basket, usage: Hours, absence: Hours, today: int, through: int,
                          later: int)
    requires Sound(shelf) && basket.startingDate == Some(today) && today <= through && On(usage, today) == 0
    ensures Balance(shelf, basket, usage, absence, through, later, map[], false, today) == basket.startingHours
  {
    var t := TermsOf(shelf, basket, absence, through, later, false);
    TermsAreWellTimed(shelf, basket, absence, through, later, false);
    YearTurnsAre(shelf, today, through, today);
    assert Daily(t, usage, map[], today - 1) == basket.startingHours;
  }

  // ------------------------------------------------------- what it leaves

  /** What today reads, from whatever is projected later and whichever of the
      job's pools are counted. */
  ghost function TodayReads(shelf: Shelf, basket: Basket, entries: seq<Entry>, today: int, baskets: set<int>,
                            through: int, later: int): int
    requires Sound(shelf)
  {
    Balance(shelf, basket, UsageByDate(shelf, basket.id, entries), AbsenceByDate(shelf, baskets, entries), through,
            later, CreditByDate(basket.id, entries), false, today)
  }

  ghost predicate NoneOf(entries: seq<Entry>, basket: int) {
    forall k :: 0 <= k < |entries| ==> entries[k].basket != basket
  }

  lemma {:induction false} NothingGathered(shelf: Shelf, basket: int, entries: seq<Entry>)
    requires NoneOf(entries, basket)
    ensures UsageByDate(shelf, basket, entries) == map[] && CreditByDate(basket, entries) == map[]
  {
    if entries != [] {
      NothingGathered(shelf, basket, entries[..|entries| - 1]);
    }
  }

  /** A prior moves its own basket's usage on its own day, and nothing else. */
  lemma PriorGathered(shelf: Shelf, baskets: set<int>, entries: seq<Entry>, e: Entry)
    requires e.direction == Prior && e.starts.Some? && !e.cancelled
    ensures AbsenceByDate(shelf, baskets, entries + [e]) == AbsenceByDate(shelf, baskets, entries)
    ensures CreditByDate(e.basket, entries + [e]) == CreditByDate(e.basket, entries)
    ensures UsageByDate(shelf, e.basket, entries + [e])
         == Plus(UsageByDate(shelf, e.basket, entries), map[FirstDay(e) := e.hours])
  {
    assert (entries + [e])[..|entries|] == entries;
  }

  /** What the backfill makes of a basket, its job's entries and the person. */
  datatype Outcome = Outcome(basket: Basket, entries: seq<Entry>, note: Option<Note>)

  predicate Quiet(shelf: Shelf, basket: Basket, today: int)
    requires Sound(shelf)
  {
    |Projected(shelf, Emptied(shelf, basket, today), map[], map[], today, today, map[], true).events| == 0
  }

  /** The decision, once the replay has said what it earned, what it opened with
      and whether nothing happened in it at all. */
  function Decided(basket: Basket, entries: seq<Entry>, stated: int, today: int, newId: int,
                   yearStart: int, earned: int, opening: int, quiet: bool): Outcome
  {
    var filled := basket.(startingHours := opening, startingDate := Some(yearStart));
    if quiet then Outcome(basket, entries, None)
    else if earned < stated then Outcome(basket, entries, Some(Refused(earned)))
    else if earned == stated then Outcome(filled, entries, None)
    else Outcome(filled, entries + [Taken(newId, basket.id, today, earned - stated)],
                 Some(Recorded(earned, earned - stated)))
  }

  ghost function Outcomes(shelf: Shelf, basket: Basket, entries: seq<Entry>, stated: int, today: int,
                          newId: int): Outcome
    requires Sound(shelf)
  {
    if !Fillable(shelf, basket, today) then Outcome(basket, entries, None)
    else
      var yearStart := YearBounds(shelf, today).0;
      Decided(basket, entries, stated, today, newId, yearStart, Replayed(shelf, basket, today, today),
              Replayed(shelf, basket, today, yearStart), Quiet(shelf, basket, today))
  }

  /** The replay begins with nothing, the day before its year does. */
  lemma ReplayFromNothing(shelf: Shelf, basket: Basket, today: int)
    requires Sound(shelf)
    ensures Replayed(shelf, basket, today, YearBounds(shelf, today).0 - 1) == 0
  {
  }

  /** What the replayed year makes of a basket and its entries: a refusal when it earned less
      than was stated; and else the basket from the year's first day, with one entry for what
      was taken since when it earned more. */
  lemma DecidedTells(basket: Basket, entries: seq<Entry>, stated: int, today: int, newId: int, start: int,
                     earned: int, opening: int)
    ensures
      var filled := basket.(startingHours := opening, startingDate := Some(start));
      var spent := Entry(newId, basket.id, Some(1440 * today), Some(1440 * today + 1439), true, earned - stated,
                         true, false, Prior);
      var outcome := Decided(basket, entries, stated, today, newId, start, earned, opening, false);
      && (earned < stated ==> outcome == Outcome(basket, entries, Some(Refused(earned))))
      && (earned == stated ==> outcome == Outcome(filled, entries, None))
      && (earned > stated ==> outcome == Outcome(filled, entries + [spent], Some(Recorded(earned, earned - stated))))
    ensures Decided(basket, entries, stated, today, newId, start, earned, opening, true)
         == Outcome(basket, entries, None)
  {
  }

  /** It is replayed when there is something to earn by, pay dates to earn on when it accrues,
      and a year begun before today; and nothing is done otherwise. */
  lemma BackfilledTells(shelf: Shelf, basket: Basket, entries: seq<Entry>, stated: int, today: int, newId: int)
    requires Sound(shelf)
    ensures
      var start := YearBounds(shelf, today).0;
      Outcomes(shelf, basket, entries, stated, today, newId)
      == if start >= today || (basket.accrual.Some? && shelf.anchor.None?)
            || (basket.accrual.None? && basket.grant.None?)
         then Outcome(basket, entries, None)
         else Decided(basket, entries, stated, today, newId, start, Replayed(shelf, basket, today, today),
                      Replayed(shelf, basket, today, start), Quiet(shelf, basket, today))
  {
  }

  lemma FilledReads(shelf: Shelf, basket: Basket, entries: seq<Entry>, today: int, baskets: set<int>, through: int,
                    later: int, filled: Basket)
    requires Sound(shelf) && NoneOf(entries, basket.id) && YearBounds(shelf, today).0 < today <= through
    requires Undisturbed(shelf, basket, AbsenceByDate(shelf, baskets, entries), today)
    requires filled == Emptied(shelf, basket, today).(startingHours :=
                         Replayed(shelf, basket, today, YearBounds(shelf, today).0))
    ensures TodayReads(shelf, filled, entries, today, baskets, through, later) == Replayed(shelf, basket, today, today)
  {
    NothingGathered(shelf, basket.id, entries);
    OpenedReads(shelf, basket, map[], AbsenceByDate(shelf, baskets, entries), today, through, later);
  }

  lemma TakenGathered(shelf: Shelf, basket: int, baskets: set<int>, entries: seq<Entry>, today: int, taken: Entry)
    requires NoneOf(entries, basket) && taken == Taken(taken.id, basket, today, taken.hours)
    ensures UsageByDate(shelf, basket, entries + [taken]) == Plus(map[], map[today := taken.hours])
    ensures CreditByDate(basket, entries + [taken]) == map[]
    ensures AbsenceByDate(shelf, baskets, entries + [taken]) == AbsenceByDate(shelf, baskets, entries)
  {
    NothingGathered(shelf, basket, entries);
    PriorGathered(shelf, baskets, entries, taken);
  }

  lemma TakenReads(shelf: Shelf, basket: Basket, entries: seq<Entry>, today: int, baskets: set<int>, through: int,
                   later: int, filled: Basket, taken: Entry)
    requires Sound(shelf) && NoneOf(entries, basket.id) && YearBounds(shelf, today).0 < today <= through
    requires Undisturbed(shelf, basket, AbsenceByDate(shelf, baskets, entries), today)
    requires taken == Taken(taken.id, basket.id, today, taken.hours)
    requires filled == Emptied(shelf, basket, today).(startingHours :=
                         Replayed(shelf, basket, today, YearBounds(shelf, today).0))
    ensures TodayReads(shelf, filled, entries + [taken], today, baskets, through, later)
         == Replayed(shelf, basket, today, today) - taken.hours
  {
    TakenGathered(shelf, basket.id, baskets, entries, today, taken);
    OpenedReads(shelf, basket, Plus(map[], map[today := taken.hours]), AbsenceByDate(shelf, baskets, entries), today,
                through, later);
  }

  /** Whatever is decided reads the stated hours, if the basket as it was does,
      and the filled one reads what was earned less what is put down as taken. */
  lemma DecidedReads(reading: (Basket, seq<Entry>) -> int, basket: Basket, entries: seq<Entry>, stated: int, today: int,
                     newId: int, yearStart: int, earned: int, opening: int, quiet: bool)
    requires reading(basket, entries) == stated
    requires
      var filled := basket.(startingHours := opening, startingDate := Some(yearStart));
      && reading(filled, entries) == earned
      && reading(filled, entries + [Taken(newId, basket.id, today, earned - stated)]) == stated
    ensures
      var after := Decided(basket, entries, stated, today, newId, yearStart, earned, opening, quiet);
      reading(after.basket, after.entries) == stated
  {
  }

  ghost function Reader(shelf: Shelf, today: int, baskets: set<int>, through: int, later: int)
    : (Basket, seq<Entry>) -> int
    requires Sound(shelf)
  {
    (basket, entries) => TodayReads(shelf, basket, entries, today, baskets, through, later)
  }

  lemma NewReads(shelf: Shelf, basket: Basket, entries: seq<Entry>, today: int, baskets: set<int>, through: int,
                 later: int)
    requires Sound(shelf) && NoneOf(entries, basket.id) && today <= through && basket.startingDate == Some(today)
    ensures TodayReads(shelf, basket, entries, today, baskets, through, later) == basket.startingHours
  {
    NothingGathered(shelf, basket.id, entries);
    StartedTodayReads(shelf, basket, map[], AbsenceByDate(shelf, baskets, entries), today, through, later);
  }

  /** Every way out of the backfill of a new basket leaves one that reads, at the
      end of today, the hours the person stated. */
  lemma EveryBranchReadsStated(shelf: Shelf, basket: Basket, entries: seq<Entry>, stated: int, today: int, newId: int,
                               baskets: set<int>, through: int, later: int)
    requires Sound(shelf) && NoneOf(entries, basket.id) && today <= through
    requires basket.startingDate == Some(today) && basket.startingHours == stated
    requires Undisturbed(shelf, basket, AbsenceByDate(shelf, baskets, entries), today)
    ensures
      var after := Outcomes(shelf, basket, entries, stated, today, newId);
      TodayReads(shelf, after.basket, after.entries, today, baskets, through, later) == stated
  {
    var reading := Reader(shelf, today, baskets, through, later);
    NewReads(shelf, basket, entries, today, baskets, through, later);
    if Fillable(shelf, basket, today) {
      var yearStart := YearBounds(shelf, today).0;
      var earned, opening := Replayed(shelf, basket, today, today), Replayed(shelf, basket, today, yearStart);
      var filled := basket.(startingHours := opening, startingDate := Some(yearStart));
      FilledReads(shelf, basket, entries, today, baskets, through, later, filled);
      TakenReads(shelf, basket, entries, today, baskets, through, later, filled,
                 Taken(newId, basket.id, today, earned - stated));
      DecidedReads(reading, basket, entries, stated, today, newId, yearStart, earned, opening,
                   Quiet(shelf, basket, today));
    }
  }

  /** The branch for a year nothing happened in is never taken: the turn that
      opens the year is itself an event. */
  lemma OpeningTurnIsAnEvent(shelf: Shelf, basket: Basket, today: int)
    requires Sound(shelf) && YearBounds(shelf, today).0 < today
    ensures !Quiet(shelf, basket, today)
  {
    var t := TermsOf(shelf, Emptied(shelf, basket, today), map[], today, today, true);
    YearStartIsItsOwn(shelf, today);
    assert t.start in Stops(t, map[], map[]);
    AscendingListIs(Stops(t, map[], map[]));
    assert t.start in AscendingList(Stops(t, map[], map[]));
  }

  /** The replay: the year from nothing, the turn that opens it included. */
  method ReplayYear(shelf: Shelf, basket: Basket, today: int) returns (earned: int, opening: int, quiet: bool)
    requires Sound(shelf)
    ensures earned == Replayed(shelf, basket, today, today)
    ensures opening == Replayed(shelf, basket, today, YearBounds(shelf, today).0)
    ensures quiet == Quiet(shelf, basket, today)
  {
    var empty := Emptied(shelf, basket, today);
    var result := Project(shelf, empty, map[], map[], today, today, map[], true);
    ProjectionIsDaily(shelf, empty, map[], map[], today, today, map[], true, today);
    ProjectionIsDaily(shelf, empty, map[], map[], today, today, map[], true, YearBounds(shelf, today).0);
    earned := ReadBalance(result.checkpoints, today);
    opening := ReadBalance(result.checkpoints, YearBounds(shelf, today).0);
    quiet := |result.events| == 0;
  }

  /** The basket row and the entries that the backfill rewrites. */
  class Books {
    var basket: Basket
    var entries: seq<Entry>

    constructor (basket: Basket, entries: seq<Entry>)
      ensures this.basket == basket && this.entries == entries
    {
      this.basket, this.entries := basket, entries;
    }

    method PutBack(stated: int, today: int)
      modifies this`basket
      ensures basket == old(basket).(startingHours := stated, startingDate := Some(today))
    {
      basket := basket.(startingHours := stated, startingDate := Some(today));
    }

    method Decide(before: Basket, stated: int, today: int, newId: int, yearStart: int, earned: int, opening: int,
                  quiet: bool)
      returns (note: Option<Note>)
      requires before.startingDate == Some(today) && before.startingHours == stated
      requires basket == before.(startingHours := 0, startingDate := Some(yearStart))
      modifies this
      ensures Outcome(basket, entries, note)
           == Decided(before, old(entries), stated, today, newId, yearStart, earned, opening, quiet)
    {
      note := None;
      if quiet {
        PutBack(stated, today);
        return;
      }
      var spent := earned - stated;
      if spent < 0 {
        PutBack(stated, today);
        note := Some(Refused(earned));
        return;
      }
      basket := basket.(startingHours := opening);
      if spent > 0 {
        entries := entries + [Taken(newId, basket.id, today, spent)];
        note := Some(Recorded(earned, spent));
      }
    }

    /** _backfill_year. */
    method BackfillYear(shelf: Shelf, stated: int, today: int, newId: int) returns (note: Option<Note>)
      requires Sound(shelf) && basket.startingDate == Some(today) && basket.startingHours == stated
      modifies this
      ensures Outcome(basket, entries, note) == Outcomes(shelf, old(basket), old(entries), stated, today, newId)
    {
      if !Fillable(shelf, basket, today) {
        return None;
      }
      var before := basket;
      basket := Emptied(shelf, basket, today);
      var earned, opening, quiet := ReplayYear(shelf, before, today);
      note := Decide(before, stated, today, newId, YearBounds(shelf, today).0, earned, opening, quiet);
    }
  }
}
