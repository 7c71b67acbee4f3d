/** loaf_forecast.py, project: the dates a basket's balance moves on, what each
    pay date earns, and the walk over them. */
module Projection {
  import opened Wrappers
  import opened Sorting
  import opened Calendar
  import opened Cadence
  import opened LoafWalk
  import opened Shelf

  function StartOf(shelf: Shelf, basket: Basket, today: int): int {
    if basket.startingDate.Some? then basket.startingDate.value
    else if shelf.anchor.Some? then shelf.anchor.value
    else today
  }

  function Horizon(shelf: Shelf, basket: Basket, through: int, today: int): (end: int)
    ensures StartOf(shelf, basket, today) <= end
  {
    if through < StartOf(shelf, basket, today) then StartOf(shelf, basket, today) else through
  }

  /** The pay dates generated for a basket, repeats and all. */
  function PayDays(shelf: Shelf, basket: Basket, start: int, end: int): seq<int>
    requires Sound(shelf)
  {
    if basket.accrual.Some? && shelf.anchor.Some?
    then OccurrenceDates(shelf.cadence, GenerateFrom(shelf.cadence, shelf.anchor.value, start), end)
    else []
  }

  // ------------------------------------------- the period each pay date pays

  /** Each date to the one generated before it; a date generated twice keeps
      the later assignment. */
  function PeriodStarts(days: seq<int>, first: int): map<int, int> {
    if days == [] then map[]
    else
      var n := |days| - 1;
      PeriodStarts(days[..n], first)[days[n] := if n == 0 then first else days[n - 1]]
  }

  method FillPeriodStarts(days: seq<int>, first: int) returns (periodStart: map<int, int>)
    ensures periodStart == PeriodStarts(days, first)
  {
    periodStart := map[];
    var previous := first;
    for k := 0 to |days|
      invariant periodStart == PeriodStarts(days[..k], first)
      invariant previous == if k == 0 then first else days[k - 1]
    {
      assert days[..k + 1][..k] == days[..k];
      periodStart := periodStart[days[k] := previous];
      previous := days[k];
    }
    assert days[..|days|] == days;
  }

  /** The window of a date ends it at the date generated before it. */
  lemma {:induction false} PeriodStartAt(days: seq<int>, first: int, k: nat)
    requires k < |days| && forall j :: k < j < |days| ==> days[j] != days[k]
    ensures days[k] in PeriodStarts(days, first)
    ensures PeriodStarts(days, first)[days[k]] == if k == 0 then first else days[k - 1]
  {
    if k < |days| - 1 {
      PeriodStartAt(days[..|days| - 1], first, k);
    }
  }

  /** Later dates do not disturb the windows of earlier ones. */
  lemma {:induction false} PeriodStartsExtend(days: seq<int>, n: nat, first: int, end: int, d: int)
    requires n <= |days| && d <= end
    requires forall k :: n <= k < |days| ==> days[k] > end
    ensures d in PeriodStarts(days, first) <==> d in PeriodStarts(days[..n], first)
    ensures d in PeriodStarts(days, first) ==> PeriodStarts(days, first)[d] == PeriodStarts(days[..n], first)[d]
  {
    if n == |days| {
      assert days[..n] == days;
    } else {
      var m := |days| - 1;
      PeriodStartsExtend(days[..m], n, first, end, d);
      assert days[..m][..n] == days[..n];
    }
  }

  /** The last position a value has in a list. */
  lemma {:induction false} LastPosition(days: seq<int>, d: int) returns (k: nat)
    requires d in days
    ensures k < |days| && days[k] == d && forall j :: k < j < |days| ==> days[j] != d
  {
    k := |days| - 1;
    if days[k] != d {
      assert days == days[..k] + [days[k]];
      k := LastPosition(days[..k], d);
    }
  }

  /** In order, the copies of a date stand together. */
  lemma {:induction false} CopiesStandTogether(days: seq<int>, d: int, k: nat, i: int, j: int)
    requires Ordered(days, LessEq) && k < |days| && days[k] == d
    requires forall m :: k < m < |days| ==> days[m] != d
    requires 0 <= i < j < |days| && days[i] == d && days[j] == d
    ensures k > 0 && days[k - 1] == d
  {
    assert i <= k - 1;
    assert i == k - 1 || LessEq(days[i], days[k - 1]);
    assert LessEq(days[k - 1], days[k]);
  }

  /** A pay date generated twice pays for an empty window, and only such a one does. */
  lemma {:induction false} EmptyWindow(days: seq<int>, first: int, d: int)
    requires Ordered(days, LessEq) && d in days && first < days[0]
    ensures d in PeriodStarts(days, first)
    ensures PeriodStarts(days, first)[d] == d
       <==> exists i, j :: 0 <= i < j < |days| && days[i] == d && days[j] == d
  {
    var k := LastPosition(days, d);
    PeriodStartAt(days, first, k);
    forall i, j | 0 <= i < j < |days| && days[i] == d && days[j] == d ensures k > 0 && days[k - 1] == d {
      CopiesStandTogether(days, d, k, i, j);
    }
    assert k > 0 && days[k - 1] == d ==> k - 1 < k && days[k] == d;
    assert k == 0 || LessEq(days[0], days[k]) ;
  }

  // ------------------------------------------------------ the walk's terms

  function WindowStart(shelf: Shelf, days: seq<int>, start: int, d: int): int
    requires Sound(shelf) && days != []
  {
    var starts := PeriodStarts(days, PayDateBefore(shelf.cadence, days[0]));
    if d in starts then starts[d] else start
  }

  function Earned(shelf: Shelf, basket: Basket, absence: Hours, start: int, days: seq<int>): Hours
    requires Sound(shelf)
    requires days != [] ==> basket.accrual.Some?
  {
    map d | d in days && d > start :: EarnedOn(shelf, basket, absence, WindowStart(shelf, days, start, d), d)
  }

  /** What a pay date earns looks at the accrual and at whether it is pro-rated,
      and at nothing else about the basket. */
  lemma EarnedOnByRule(shelf: Shelf, one: Basket, two: Basket, absence: Hours, windowStart: int, when: int)
    requires one.accrual.Some? && one.accrual == two.accrual && one.prorated == two.prorated
    ensures EarnedOn(shelf, one, absence, windowStart, when) == EarnedOn(shelf, two, absence, windowStart, when)
  {
  }

  lemma EarnedByRule(shelf: Shelf, one: Basket, two: Basket, absence: Hours, start: int, days: seq<int>)
    requires Sound(shelf) && (days != [] ==> one.accrual.Some?)
    requires one.accrual == two.accrual && one.prorated == two.prorated
    ensures Earned(shelf, one, absence, start, days) == Earned(shelf, two, absence, start, days)
  {
    forall d | d in days && d > start
      ensures EarnedOn(shelf, one, absence, WindowStart(shelf, days, start, d), d)
           == EarnedOn(shelf, two, absence, WindowStart(shelf, days, start, d), d)
    {
      EarnedOnByRule(shelf, one, two, absence, WindowStart(shelf, days, start, d), d);
    }
  }

  function Turns(shelf: Shelf, start: int, end: int, openingTurn: bool): set<int>
    requires Sound(shelf)
  {
    YearTurns(shelf, start, end)
    + if openingTurn && YearBounds(shelf, start).0 == start then {start} else {}
  }

  function TermsOf(shelf: Shelf, basket: Basket, absence: Hours, through: int, today: int, openingTurn: bool): Terms
    requires Sound(shelf)
  {
    var start, end := StartOf(shelf, basket, today), Horizon(shelf, basket, through, today);
    Terms(start, end, basket.startingHours, Turns(shelf, start, end, openingTurn),
          Earned(shelf, basket, absence, start, PayDays(shelf, basket, start, end)),
          basket.carryover, basket.grant, basket.ceiling)
  }

  lemma TermsAreWellTimed(shelf: Shelf, basket: Basket, absence: Hours, through: int, today: int, openingTurn: bool)
    requires Sound(shelf)
    ensures WellTimed(TermsOf(shelf, basket, absence, through, today, openingTurn))
  {
    var start, end := StartOf(shelf, basket, today), Horizon(shelf, basket, through, today);
    var days := PayDays(shelf, basket, start, end);
    forall d | d in Turns(shelf, start, end, openingTurn) ensures start <= d <= end {
      YearTurnsAre(shelf, start, end, d);
    }
    forall d | d in days ensures d <= end {
      if basket.accrual.Some? && shelf.anchor.Some? {
        GeneratesTheSeries(shelf.cadence, GenerateFrom(shelf.cadence, shelf.anchor.value, start), end, d);
      }
    }
  }

  /** The turns of a projection: the days a leave year turns on after its first day, and its
      first day when that is one and is asked for. */
  lemma TurnsAre(shelf: Shelf, start: int, end: int, openingTurn: bool, d: int)
    requires Sound(shelf)
    ensures d in Turns(shelf, start, end, openingTurn)
       <==> d == Turn(shelf, YearOfDay(d)) && ((start < d <= end) || (openingTurn && d == start))
  {
    YearTurnsAre(shelf, start, end, d);
    TurnInYear(shelf, YearBegun(shelf, start));
    YearBoundsHold(shelf, start, YearOfDay(start));
  }

  /** What a projection is made from: it begins on the basket's own date, else on the next pay
      date, else today, with the basket's own hours and rules; and it runs to the day asked
      for, or that one when it is earlier. */
  lemma TermsAre(shelf: Shelf, basket: Basket, absence: Hours, through: int, today: int, openingTurn: bool, d: int)
    requires Sound(shelf)
    ensures
      var t := TermsOf(shelf, basket, absence, through, today, openingTurn);
      && t.start == (match basket.startingDate
                     case Some(on) => on
                     case None => if shelf.anchor.Some? then shelf.anchor.value else today)
      && t.through >= t.start && t.through >= through && (t.through == t.start || t.through == through)
      && t.opening == basket.startingHours
      && t.carryover == basket.carryover && t.grant == basket.grant && t.ceiling == basket.ceiling
      && (d in t.turns
          <==> d == Turn(shelf, YearOfDay(d)) && ((t.start < d <= t.through) || (openingTurn && d == t.start)))
      && (d in t.earned
          <==> basket.accrual.Some? && shelf.anchor.Some? && t.start < d <= t.through
               && Occurs(shelf.cadence, GenerateFrom(shelf.cadence, shelf.anchor.value, t.start), d))
  {
    var start, end := StartOf(shelf, basket, today), Horizon(shelf, basket, through, today);
    TurnsAre(shelf, start, end, openingTurn, d);
    if basket.accrual.Some? && shelf.anchor.Some? {
      GeneratesTheSeries(shelf.cadence, GenerateFrom(shelf.cadence, shelf.anchor.value, start), end, d);
    }
  }

  /** Each pay date earns what the period up to it earns: from the date generated before it,
      itself when it was generated twice, or for the first from the one before the series. */
  lemma {:induction false} EarnedTells(shelf: Shelf, basket: Basket, absence: Hours, through: int, today: int,
                                       openingTurn: bool, d: int)
    returns (days: seq<int>, k: nat)
    requires Sound(shelf) && d in TermsOf(shelf, basket, absence, through, today, openingTurn).earned
    ensures shelf.anchor.Some? && basket.accrual.Some?
    ensures
      var t := TermsOf(shelf, basket, absence, through, today, openingTurn);
      && days == OccurrenceDates(shelf.cadence, GenerateFrom(shelf.cadence, shelf.anchor.value, t.start), t.through)
      && k < |days| && days[k] == d && (forall j :: k < j < |days| ==> days[j] != d)
      && t.earned[d]
         == EarnedOn(shelf, basket, absence, if k > 0 then days[k - 1] else PayDateBefore(shelf.cadence, days[0]), d)
  {
    var t := TermsOf(shelf, basket, absence, through, today, openingTurn);
    days := PayDays(shelf, basket, t.start, t.through);
    k := LastPosition(days, d);
    PeriodStartAt(days, PayDateBefore(shelf.cadence, days[0]), k);
  }

  function Projected(shelf: Shelf, basket: Basket, usage: Hours, absence: Hours, through: int, today: int,
                     credits: Hours, openingTurn: bool): Result
    requires Sound(shelf)
  {
    Walked(TermsOf(shelf, basket, absence, through, today, openingTurn), usage, credits)
  }

  /** What is left at the end of a day: the basket's terms, every day simulated. */
  ghost function Balance(shelf: Shelf, basket: Basket, usage: Hours, absence: Hours, through: int, today: int,
                         credits: Hours, openingTurn: bool, when: int): int
    requires Sound(shelf)
  {
    Daily(TermsOf(shelf, basket, absence, through, today, openingTurn), usage, credits, when)
  }

  /** project's sparse walk and balance_on agree, on every date, with simulating
      every day in the order turn, accrual, credit, usage. */
  lemma ProjectionIsDaily(shelf: Shelf, basket: Basket, usage: Hours, absence: Hours, through: int, today: int,
                          credits: Hours, openingTurn: bool, when: int)
    requires Sound(shelf)
    ensures
      var result := Projected(shelf, basket, usage, absence, through, today, credits, openingTurn);
      && result.checkpoints != []
      && BalanceOn(result.checkpoints, when)
         == Balance(shelf, basket, usage, absence, through, today, credits, openingTurn, when)
  {
    TermsAreWellTimed(shelf, basket, absence, through, today, openingTurn);
    WalkIsDaily(TermsOf(shelf, basket, absence, through, today, openingTurn), usage, credits, when);
  }

  // ------------------------------------------------------------ as it runs

  method ListPayDays(shelf: Shelf, basket: Basket, start: int, end: int) returns (days: seq<int>)
    requires Sound(shelf)
    ensures days == PayDays(shelf, basket, start, end)
  {
    days := [];
    if basket.accrual.Some? && shelf.anchor.Some? {
      var current := WalkBackToStart(shelf.cadence, shelf.anchor.value, start);
      days := RecurringOccurrenceDates(shelf.cadence, current, end);
    }
  }

  method EarnAll(shelf: Shelf, basket: Basket, absence: Hours, start: int, days: seq<int>) returns (earned: Hours)
    requires Sound(shelf) && (days != [] ==> basket.accrual.Some?)
    ensures earned == Earned(shelf, basket, absence, start, days)
  {
    if days == [] {
      return map[];
    }
    var periodStart := FillPeriodStarts(days, PayDateBefore(shelf.cadence, days[0]));
    earned := map d | d in days && d > start ::
      EarnedOn(shelf, basket, absence, if d in periodStart then periodStart[d] else start, d);
  }

  method Project(shelf: Shelf, basket: Basket, usage: Hours, absence: Hours, through: int, today: int,
                 credits: Hours, openingTurn: bool) returns (result: Result)
    requires Sound(shelf)
    ensures result == Projected(shelf, basket, usage, absence, through, today, credits, openingTurn)
  {
    var start := StartOf(shelf, basket, today);
    var end := if through < start then start else through;
    var days := ListPayDays(shelf, basket, start, end);
    var earned := EarnAll(shelf, basket, absence, start, days);
    TermsAreWellTimed(shelf, basket, absence, through, today, openingTurn);
    result := Walk(Terms(start, end, basket.startingHours, Turns(shelf, start, end, openingTurn), earned,
                         basket.carryover, basket.grant, basket.ceiling), usage, credits);
  }

  // ------------------------------------------------------------ the horizon

  lemma {:induction false} PayDaysExtend(shelf: Shelf, basket: Basket, start: int, end: int, further: int)
    requires Sound(shelf) && end <= further
    ensures
      var short, long := PayDays(shelf, basket, start, end), PayDays(shelf, basket, start, further);
      && |short| <= |long| && short == long[..|short|]
      && (forall k :: |short| <= k < |long| ==> long[k] > end)
      && (forall k :: 0 <= k < |short| ==> short[k] <= end)
  {
    if basket.accrual.Some? && shelf.anchor.Some? {
      HorizonOnlyExtends(shelf.cadence, GenerateFrom(shelf.cadence, shelf.anchor.value, start), end, further);
      var short := PayDays(shelf, basket, start, end);
      forall k | 0 <= k < |short| ensures short[k] <= end {
        GeneratesTheSeries(shelf.cadence, GenerateFrom(shelf.cadence, shelf.anchor.value, start), end, short[k]);
      }
    }
  }

  lemma {:induction false} EarnedExtends(shelf: Shelf, basket: Basket, absence: Hours, start: int, short: seq<int>,
                                         long: seq<int>, end: int, d: int)
    requires Sound(shelf) && (long != [] ==> basket.accrual.Some?)
    requires |short| <= |long| && short == long[..|short|] && d <= end
    requires forall k :: |short| <= k < |long| ==> long[k] > end
    ensures On(Earned(shelf, basket, absence, start, long), d) == On(Earned(shelf, basket, absence, start, short), d)
    ensures d in Earned(shelf, basket, absence, start, long) <==> d in Earned(shelf, basket, absence, start, short)
  {
    assert d in long <==> d in short by {
      assert long == short + long[|short|..];
    }
    if d in short {
      PeriodStartsExtend(long, |short|, PayDateBefore(shelf.cadence, long[0]), end, d);
    }
  }

  lemma TurnsExtend(shelf: Shelf, start: int, end: int, further: int, openingTurn: bool, d: int)
    requires Sound(shelf) && d <= end <= further
    ensures d in Turns(shelf, start, end, openingTurn) <==> d in Turns(shelf, start, further, openingTurn)
  {
    YearTurnsAre(shelf, start, end, d);
    YearTurnsAre(shelf, start, further, d);
  }

  /** Projecting further never changes a balance already projected. */
  lemma FurtherChangesNothing(shelf: Shelf, basket: Basket, usage: Hours, absence: Hours, through: int, further: int,
                              today: int, credits: Hours, openingTurn: bool, when: int)
    requires Sound(shelf) && through <= further && when <= Horizon(shelf, basket, through, today)
    ensures Balance(shelf, basket, usage, absence, through, today, credits, openingTurn, when)
         == Balance(shelf, basket, usage, absence, further, today, credits, openingTurn, when)
  {
    var near := TermsOf(shelf, basket, absence, through, today, openingTurn);
    var far := TermsOf(shelf, basket, absence, further, today, openingTurn);
    PayDaysExtend(shelf, basket, near.start, near.through, far.through);
    forall d | d <= near.through ensures SameDay(near, far, d) {
      EarnedExtends(shelf, basket, absence, near.start, PayDays(shelf, basket, near.start, near.through),
                    PayDays(shelf, basket, near.start, far.through), near.through, d);
      TurnsExtend(shelf, near.start, near.through, far.through, openingTurn, d);
    }
    SameDaysSameBalance(near, far, usage, credits, when);
  }

  // ---------------------------------------------------------- Test Time Off

  /** What a pay date loses to time off that was not there before. */
  function AccrualLost(shelf: Shelf, basket: Basket, absence: Hours, extra: Hours, today: int, through: int): Hours
    requires Sound(shelf)
  {
    var t := TermsOf(shelf, basket, absence, through, today, false);
    var less := TermsOf(shelf, basket, Plus(absence, extra), through, today, false);
    map d | d in t.earned :: t.earned[d] - On(less.earned, d)
  }

  lemma AbsenceEarnsLess(shelf: Shelf, basket: Basket, absence: Hours, more: Hours, through: int, today: int)
    requires Sound(shelf) && TakesMore(absence, more)
    requires basket.accrual.Some? ==> basket.accrual.value >= 0.0
    ensures EarnsLess(TermsOf(shelf, basket, absence, through, today, false),
                      TermsOf(shelf, basket, more, through, today, false))
    ensures !basket.prorated ==>
      TermsOf(shelf, basket, absence, through, today, false) == TermsOf(shelf, basket, more, through, today, false)
  {
    var start, end := StartOf(shelf, basket, today), Horizon(shelf, basket, through, today);
    var days := PayDays(shelf, basket, start, end);
    forall d | d in days && d > start
      ensures Earned(shelf, basket, more, start, days)[d] <= Earned(shelf, basket, absence, start, days)[d]
      ensures !basket.prorated ==>
        Earned(shelf, basket, more, start, days)[d] == Earned(shelf, basket, absence, start, days)[d]
    {
      AbsenceNeverEarns(shelf, basket, absence, more, WindowStart(shelf, days, start, d), d);
    }
  }

  lemma {:induction false} SumOfLost(t: Terms, less: Terms, lost: Hours, a: int, b: int)
    requires forall d :: On(lost, d) == On(t.earned, d) - On(less.earned, d)
    ensures Sum(lost, a, b) == Sum(t.earned, a, b) - Sum(less.earned, a, b)
    decreases b - a
  {
    if a <= b {
      SumOfLost(t, less, lost, a, b - 1);
    }
  }

  /** A proposed booking, counted into both usage and absence, never raises the
      balance of any day and lowers it by at most its own hours and the accrual
      they cost; on a flat accrual by at most its own hours. */
  lemma {:induction false} TestTimeOff(shelf: Shelf, basket: Basket, usage: Hours, absence: Hours, extra: Hours,
                                       through: int, today: int, credits: Hours, when: int)
    requires Sound(shelf) && (basket.accrual.Some? ==> basket.accrual.value >= 0.0)
    requires forall d :: On(extra, d) >= 0
    ensures
      var cost := Balance(shelf, basket, usage, absence, through, today, credits, false, when)
                  - Balance(shelf, basket, Plus(usage, extra), Plus(absence, extra),
                            through, today, credits, false, when);
      var start, last := StartOf(shelf, basket, today), Min(when, Horizon(shelf, basket, through, today));
      var lost := Sum(AccrualLost(shelf, basket, absence, extra, today, through), start, last);
      && 0 <= cost <= Sum(extra, start, last) + lost
      && (!basket.prorated ==> lost == 0)
  {
    var t := TermsOf(shelf, basket, absence, through, today, false);
    var less := TermsOf(shelf, basket, Plus(absence, extra), through, today, false);
    var lost := AccrualLost(shelf, basket, absence, extra, today, through);
    var last := Min(when, t.through);
    AbsenceEarnsLess(shelf, basket, absence, Plus(absence, extra), through, today);
    TimeOffCosts(t, less, usage, Plus(usage, extra), credits, when);
    SumOfPlus(usage, extra, t.start, last);
    SumOfLost(t, less, lost, t.start, last);
  }
}
