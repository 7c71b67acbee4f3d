/** loaf_forecast.py, the walk inside project and balance_on: the arithmetic
    once the dates are known. Hours are whole hundredths, days are ordinals.

    The walk visits only the days something happens on. `Daily` is the plain
    day-by-day simulation it has to agree with. */
module LoafWalk {
  import opened Wrappers
  import opened Sorting

  datatype Carryover = Reset | Capped(cap: int) | All

  /** Everything a walk needs besides what was taken and handed over: the days
      the leave year turns, and what each pay date earns before the ceiling. */
  datatype Terms = Terms(start: int, through: int, opening: int,
                         turns: set<int>, earned: map<int, int>,
                         carryover: Carryover, grant: Option<int>, ceiling: Option<int>)

  datatype Event = Event(date: int, turnedOver: bool, granted: int, accrued: int,
                         credited: int, used: int, balance: int)

  type Hours = map<int, int>

  function On(hours: Hours, day: int): int {
    if day in hours then hours[day] else 0
  }

  function Min(a: int, b: int): int {
    if a <= b then a else b
  }

  // ------------------------------------------------------------- one stop

  /** What is left of a balance when the year turns. */
  function Carried(t: Terms, balance: int): int {
    match t.carryover
    case Reset => 0
    case Capped(cap) => Min(balance, cap)
    case All => balance
  }

  function Granted(t: Terms): int {
    if t.grant.Some? then t.grant.value else 0
  }

  function AfterTurn(t: Terms, balance: int, day: int): int {
    if day in t.turns then Carried(t, balance) + Granted(t) else balance
  }

  function AfterAccrual(t: Terms, balance: int, day: int): int {
    if day !in t.earned then balance
    else if t.ceiling.Some? then Min(balance + t.earned[day], t.ceiling.value)
    else balance + t.earned[day]
  }

  /** One day's movements, in their order: turn, accrual, credit, usage. */
  function DayEvent(t: Terms, usage: Hours, credits: Hours, balance: int, day: int): Event {
    var turned := AfterTurn(t, balance, day);
    var accrued := AfterAccrual(t, turned, day);
    Event(day, day in t.turns, if day in t.turns then Granted(t) else 0, accrued - turned,
          On(credits, day), On(usage, day), accrued + On(credits, day) - On(usage, day))
  }

  // ------------------------------------------------------------- the walk

  ghost predicate WellTimed(t: Terms) {
    && t.start <= t.through
    && (forall d :: d in t.turns ==> t.start <= d <= t.through)
    && (forall d :: d in t.earned ==> t.start < d <= t.through)
  }

  function Stops(t: Terms, usage: Hours, credits: Hours): set<int> {
    t.turns + t.earned.Keys
    + (set d | d in usage && t.start <= d <= t.through)
    + (set d | d in credits && t.start <= d <= t.through)
  }

  /** The balance after the first stops of a list. */
  function BalanceAfter(t: Terms, usage: Hours, credits: Hours, stops: seq<int>): int {
    if stops == [] then t.opening
    else
      var n := |stops| - 1;
      DayEvent(t, usage, credits, BalanceAfter(t, usage, credits, stops[..n]), stops[n]).balance
  }

  function Events(t: Terms, usage: Hours, credits: Hours, stops: seq<int>): (events: seq<Event>)
    ensures |events| == |stops|
  {
    if stops == [] then []
    else
      var n := |stops| - 1;
      Events(t, usage, credits, stops[..n])
      + [DayEvent(t, usage, credits, BalanceAfter(t, usage, credits, stops[..n]), stops[n])]
  }

  function Checkpoints(t: Terms, usage: Hours, credits: Hours, stops: seq<int>): seq<(int, int)> {
    if stops == [] then [(t.start, t.opening)]
    else
      var n := |stops| - 1;
      Checkpoints(t, usage, credits, stops[..n]) + [(stops[n], BalanceAfter(t, usage, credits, stops))]
  }

  datatype Result = Result(events: seq<Event>, checkpoints: seq<(int, int)>, accruedTotal: int, usedTotal: int)

  function AccruedTotal(events: seq<Event>, n: nat): int
    requires n <= |events|
  {
    if n == 0 then 0 else AccruedTotal(events, n - 1) + events[n - 1].accrued + events[n - 1].credited
  }

  function UsedTotal(events: seq<Event>, n: nat): int
    requires n <= |events|
  {
    if n == 0 then 0 else UsedTotal(events, n - 1) + events[n - 1].used
  }

  function Visited(t: Terms, usage: Hours, credits: Hours, stops: seq<int>): Result {
    var events := Events(t, usage, credits, stops);
    Result(events, Checkpoints(t, usage, credits, stops), AccruedTotal(events, |events|), UsedTotal(events, |events|))
  }

  function Walked(t: Terms, usage: Hours, credits: Hours): Result {
    Visited(t, usage, credits, AscendingList(Stops(t, usage, credits)))
  }

  /** One turn of the loop: the four rules in place, each on the balance the last one left. */
  method Visit(t: Terms, usage: Hours, credits: Hours, before: int, day: int) returns (moved: Event)
    requires t.start <= day <= t.through
    ensures moved == DayEvent(t, usage, credits, before, day)
  {
    var balance := before;
    moved := Event(day, false, 0, 0, 0, 0, balance);
    if day in t.turns {
      match t.carryover {
        case Reset => balance := 0;
        case Capped(cap) => balance := Min(balance, cap);
        case All =>
      }
      moved := moved.(turnedOver := true);
      if t.grant.Some? {
        balance := balance + t.grant.value;
        moved := moved.(granted := t.grant.value);
      }
    }
    assert balance == AfterTurn(t, before, day);
    if day in t.earned {
      var carriedIn := balance;
      balance := balance + t.earned[day];
      if t.ceiling.Some? {
        balance := Min(balance, t.ceiling.value);
      }
      moved := moved.(accrued := balance - carriedIn);
    }
    assert balance == AfterAccrual(t, AfterTurn(t, before, day), day);
    if day in credits {
      balance := balance + credits[day];
      moved := moved.(credited := credits[day]);
    }
    if day in usage {
      balance := balance - usage[day];
      moved := moved.(used := usage[day]);
    }
    moved := moved.(balance := balance);
  }

  /** The walk of project: gather the stops, sort them, visit each once. */
  method Walk(t: Terms, usage: Hours, credits: Hours) returns (result: Result)
    requires WellTimed(t)
    ensures result == Walked(t, usage, credits)
  {
    var stops := AscendingList(Stops(t, usage, credits));
    AscendingListIs(Stops(t, usage, credits));
    forall k | 0 <= k < |stops| ensures t.start <= stops[k] <= t.through {
      assert stops[k] in stops;
    }
    result := VisitAll(t, usage, credits, stops);
  }

  method VisitAll(t: Terms, usage: Hours, credits: Hours, stops: seq<int>) returns (result: Result)
    requires forall k :: 0 <= k < |stops| ==> t.start <= stops[k] <= t.through
    ensures result == Visited(t, usage, credits, stops)
  {
    var balance, events, checkpoints := t.opening, [], [(t.start, t.opening)];
    for k := 0 to |stops|
      invariant balance == BalanceAfter(t, usage, credits, stops[..k])
      invariant events == Events(t, usage, credits, stops[..k])
      invariant checkpoints == Checkpoints(t, usage, credits, stops[..k])
    {
      assert stops[..k + 1][..k] == stops[..k];
      var moved := Visit(t, usage, credits, balance, stops[k]);
      balance := moved.balance;
      events := events + [moved];
      checkpoints := checkpoints + [(stops[k], balance)];
    }
    assert stops[..|stops|] == stops;
    result := Result(events, checkpoints, AccruedTotal(events, |events|), UsedTotal(events, |events|));
  }

  /** What the last checkpoint at or before a day says, scanning from the front. */
  function LastAtOrBefore(checkpoints: seq<(int, int)>, when: int, answer: int): int {
    if checkpoints == [] || checkpoints[0].0 > when then answer
    else LastAtOrBefore(checkpoints[1..], when, checkpoints[0].1)
  }

  function BalanceOn(checkpoints: seq<(int, int)>, when: int): int
    requires checkpoints != []
  {
    LastAtOrBefore(checkpoints, when, checkpoints[0].1)
  }

  /** balance_on, as it runs. */
  method ReadBalance(checkpoints: seq<(int, int)>, when: int) returns (balance: int)
    requires checkpoints != []
    ensures balance == BalanceOn(checkpoints, when)
  {
    var answer: Option<int> := None;
    for k := 0 to |checkpoints|
      invariant BalanceOn(checkpoints, when)
             == LastAtOrBefore(checkpoints[k..], when, if answer.Some? then answer.value else checkpoints[0].1)
    {
      assert checkpoints[k..][1..] == checkpoints[k + 1..];
      if checkpoints[k].0 <= when {
        answer := Some(checkpoints[k].1);
      } else {
        break;
      }
    }
    balance := if answer.Some? then answer.value else checkpoints[0].1;
  }

  // ------------------------------------------------- the daily simulation

  /** The balance at the end of a day, every day simulated in turn. */
  ghost function Daily(t: Terms, usage: Hours, credits: Hours, day: int): int
    decreases day - t.start
  {
    if day < t.start then t.opening
    else if day > t.through then Daily(t, usage, credits, day - 1)
    else DayEvent(t, usage, credits, Daily(t, usage, credits, day - 1), day).balance
  }

  /** On a day that is not a stop nothing moves. */
  lemma QuietDay(t: Terms, usage: Hours, credits: Hours, balance: int, day: int)
    requires day !in Stops(t, usage, credits)
    ensures t.start <= day <= t.through ==> DayEvent(t, usage, credits, balance, day).balance == balance
  {
  }

  lemma {:induction false} FlatBetween(t: Terms, usage: Hours, credits: Hours, a: int, b: int)
    requires WellTimed(t) && a <= b
    requires forall d :: a < d <= b ==> d !in Stops(t, usage, credits)
    ensures Daily(t, usage, credits, b) == Daily(t, usage, credits, a)
    decreases b - a
  {
    if a < b {
      FlatBetween(t, usage, credits, a, b - 1);
      QuietDay(t, usage, credits, Daily(t, usage, credits, b - 1), b);
    }
  }

  ghost predicate Covers(t: Terms, usage: Hours, credits: Hours, stops: seq<int>, until: int) {
    && Ascending(stops)
    && (forall k :: 0 <= k < |stops| ==> stops[k] in Stops(t, usage, credits))
    && (forall d :: d in Stops(t, usage, credits) && d <= until ==> d in stops)
  }

  lemma {:induction false} CoversAllButLast(t: Terms, usage: Hours, credits: Hours, stops: seq<int>, until: int)
    requires Covers(t, usage, credits, stops, until) && stops != [] && stops[|stops| - 1] <= until
    ensures
      var n := |stops| - 1;
      && Covers(t, usage, credits, stops[..n], stops[n] - 1)
      && (forall k :: 0 <= k < n ==> stops[..n][k] <= stops[n] - 1)
      && (forall d :: stops[n] < d <= until ==> d !in Stops(t, usage, credits))
  {
    var n := |stops| - 1;
    assert stops == stops[..n] + [stops[n]];
  }

  /** Visiting only the stops up to a day is simulating every day up to it. */
  lemma {:induction false} StopsSuffice(t: Terms, usage: Hours, credits: Hours, stops: seq<int>, until: int)
    requires WellTimed(t) && Covers(t, usage, credits, stops, until)
    requires forall k :: 0 <= k < |stops| ==> stops[k] <= until
    ensures BalanceAfter(t, usage, credits, stops) == Daily(t, usage, credits, until)
  {
    if stops == [] {
      if until >= t.start {
        FlatBetween(t, usage, credits, t.start - 1, until);
      }
    } else {
      var n := |stops| - 1;
      CoversAllButLast(t, usage, credits, stops, until);
      StopsSuffice(t, usage, credits, stops[..n], stops[n] - 1);
      FlatBetween(t, usage, credits, stops[n], until);
      StopInWindow(t, usage, credits, stops[n]);
    }
  }

  lemma StopInWindow(t: Terms, usage: Hours, credits: Hours, day: int)
    requires WellTimed(t) && day in Stops(t, usage, credits)
    ensures t.start <= day <= t.through
  {
  }

  lemma {:induction false} LastOfAppended(checkpoints: seq<(int, int)>, next: (int, int), when: int, answer: int)
    requires forall c :: c in checkpoints ==> c.0 <= next.0
    ensures LastAtOrBefore(checkpoints + [next], when, answer)
         == if next.0 <= when then next.1 else LastAtOrBefore(checkpoints, when, answer)
  {
    if checkpoints != [] {
      assert (checkpoints + [next])[1..] == checkpoints[1..] + [next];
      LastOfAppended(checkpoints[1..], next, when, checkpoints[0].1);
    }
  }

  lemma {:induction false} CheckpointsBefore(t: Terms, usage: Hours, credits: Hours, stops: seq<int>, day: int)
    requires t.start <= day && forall k :: 0 <= k < |stops| ==> stops[k] <= day
    ensures
      var checkpoints := Checkpoints(t, usage, credits, stops);
      && checkpoints != [] && checkpoints[0] == (t.start, t.opening)
      && forall c :: c in checkpoints ==> c.0 <= day
  {
    if stops != [] {
      CheckpointsBefore(t, usage, credits, stops[..|stops| - 1], day);
    }
  }

  lemma {:induction false} ReadsDaily(t: Terms, usage: Hours, credits: Hours, stops: seq<int>, until: int, when: int)
    requires WellTimed(t) && Covers(t, usage, credits, stops, until) && when <= until
    ensures Checkpoints(t, usage, credits, stops) != []
    ensures BalanceOn(Checkpoints(t, usage, credits, stops), when) == Daily(t, usage, credits, when)
  {
    if stops == [] {
      if when >= t.start {
        FlatBetween(t, usage, credits, t.start - 1, when);
      }
      assert LastAtOrBefore([(t.start, t.opening)][1..], when, t.opening) == t.opening;
    } else {
      var n := |stops| - 1;
      var before := Checkpoints(t, usage, credits, stops[..n]);
      var next := (stops[n], BalanceAfter(t, usage, credits, stops));
      StopInWindow(t, usage, credits, stops[n]);
      CheckpointsBefore(t, usage, credits, stops[..n], stops[n]);
      LastOfAppended(before, next, when, t.opening);
      assert (before + [next])[0] == before[0];
      if stops[n] <= when {
        StopsSuffice(t, usage, credits, stops, when);
      } else {
        CoversBefore(t, usage, credits, stops, until);
        ReadsDaily(t, usage, credits, stops[..n], Min(until, stops[n] - 1), when);
      }
    }
  }

  lemma CoversBefore(t: Terms, usage: Hours, credits: Hours, stops: seq<int>, until: int)
    requires Covers(t, usage, credits, stops, until) && stops != []
    ensures Covers(t, usage, credits, stops[..|stops| - 1], Min(until, stops[|stops| - 1] - 1))
  {
    var n := |stops| - 1;
    assert stops == stops[..n] + [stops[n]];
  }

  /** The sparse walk reads the same balance on every day as simulating every day. */
  lemma WalkIsDaily(t: Terms, usage: Hours, credits: Hours, when: int)
    requires WellTimed(t)
    ensures Walked(t, usage, credits).checkpoints != []
    ensures BalanceOn(Walked(t, usage, credits).checkpoints, when) == Daily(t, usage, credits, when)
  {
    var stops := AscendingList(Stops(t, usage, credits));
    AscendingListIs(Stops(t, usage, credits));
    var until := if when >= t.through then when else t.through;
    assert Covers(t, usage, credits, stops, until) by {
      assert forall k :: 0 <= k < |stops| ==> stops[k] in stops;
    }
    ReadsDaily(t, usage, credits, stops, until, when);
  }

  // ------------------------------------------------------------ the horizon

  /** Two walks that do the same things on a day. */
  ghost predicate SameDay(near: Terms, far: Terms, day: int) {
    && (day in near.turns <==> day in far.turns)
    && (day in near.earned <==> day in far.earned)
    && On(near.earned, day) == On(far.earned, day)
  }

  lemma {:induction false} SameDaysSameBalance(near: Terms, far: Terms, usage: Hours, credits: Hours, day: int)
    requires near.start == far.start && near.through <= far.through && near.opening == far.opening
    requires near.carryover == far.carryover && near.grant == far.grant && near.ceiling == far.ceiling
    requires day <= near.through && forall d :: d <= near.through ==> SameDay(near, far, d)
    ensures Daily(near, usage, credits, day) == Daily(far, usage, credits, day)
    decreases day - near.start
  {
    if near.start <= day {
      SameDaysSameBalance(near, far, usage, credits, day - 1);
      assert SameDay(near, far, day);
    }
  }

  // --------------------------------------------------- nothing goes missing

  /** Hours of a map falling on the days from `a` to `b`. */
  function Sum(hours: Hours, a: int, b: int): int
    decreases b - a
  {
    if b < a then 0 else Sum(hours, a, b - 1) + On(hours, b)
  }

  /** Hours of two maps together, day by day. */
  function Plus(hours: Hours, extra: Hours): (both: Hours)
    ensures forall d :: On(both, d) == On(hours, d) + On(extra, d)
  {
    map d | d in hours.Keys + extra.Keys :: On(hours, d) + On(extra, d)
  }

  lemma {:induction false} SumOfPlus(hours: Hours, extra: Hours, a: int, b: int)
    ensures Sum(Plus(hours, extra), a, b) == Sum(hours, a, b) + Sum(extra, a, b)
    decreases b - a
  {
    if a <= b {
      SumOfPlus(hours, extra, a, b - 1);
    }
  }

  ghost function TurnsBy(t: Terms, day: int): nat
    decreases day - t.start
  {
    if day < t.start then 0 else TurnsBy(t, day - 1) + if day in t.turns then 1 else 0
  }

  /** What the turns up to a day have taken away: all of it, what is above the cap, or nothing. */
  ghost function ForfeitedBy(t: Terms, usage: Hours, credits: Hours, day: int): int
    decreases day - t.start
  {
    if day < t.start then 0
    else
      var before := Daily(t, usage, credits, day - 1);
      ForfeitedBy(t, usage, credits, day - 1)
      + if day !in t.turns then 0
        else match t.carryover
             case Reset => before
             case Capped(cap) => if before > cap then before - cap else 0
             case All => 0
  }

  /** What the pay dates up to a day have added, after the ceiling. */
  ghost function AccruedBy(t: Terms, usage: Hours, credits: Hours, day: int): int
    decreases day - t.start
  {
    if day < t.start then 0
    else
      AccruedBy(t, usage, credits, day - 1)
      + DayEvent(t, usage, credits, Daily(t, usage, credits, day - 1), day).accrued
  }

  lemma OneMoreTurn(turns: nat, granted: int)
    ensures (turns + 1) * granted == turns * granted + granted
  {
  }

  lemma {:induction false} AccruedAtMost(t: Terms, usage: Hours, credits: Hours, day: int)
    ensures AccruedBy(t, usage, credits, day) <= Sum(t.earned, t.start, day)
    decreases day - t.start
  {
    if day >= t.start {
      AccruedAtMost(t, usage, credits, day - 1);
    }
  }

  /** Opening hours, plus what was granted, accrued and handed over, less what
      was taken and what the turns forfeited, is the balance of every day. */
  lemma {:induction false} HoursAreConserved(t: Terms, usage: Hours, credits: Hours, day: int)
    requires WellTimed(t) && t.start - 1 <= day <= t.through
    ensures Daily(t, usage, credits, day)
         == t.opening + TurnsBy(t, day) * (if t.grant.Some? then t.grant.value else 0)
            + AccruedBy(t, usage, credits, day) + Sum(credits, t.start, day) - Sum(usage, t.start, day)
            - ForfeitedBy(t, usage, credits, day)
    ensures AccruedBy(t, usage, credits, day) <= Sum(t.earned, t.start, day)
    decreases day - t.start
  {
    AccruedAtMost(t, usage, credits, day);
    if day >= t.start {
      HoursAreConserved(t, usage, credits, day - 1);
      OneMoreTurn(TurnsBy(t, day - 1), Granted(t));
    }
  }

  lemma {:induction false} CarryingAllForfeitsNothing(t: Terms, usage: Hours, credits: Hours, day: int)
    requires t.carryover == All
    ensures ForfeitedBy(t, usage, credits, day) == 0
    decreases day - t.start
  {
    if day >= t.start {
      CarryingAllForfeitsNothing(t, usage, credits, day - 1);
    }
  }

  // ------------------------------------------------ what is read, day by day

  /** What balance_on reads on a day, from what it reads on the day before: a turn
      carries over nothing, or no more than the cap, or all of it, and grants on top;
      an accrual stops at the ceiling; credits come in and usage goes out. */
  lemma ReadsDayByDay(t: Terms, usage: Hours, credits: Hours, day: int)
    requires WellTimed(t) && t.start <= day <= t.through
    ensures Walked(t, usage, credits).checkpoints != []
    ensures
      var checkpoints := Walked(t, usage, credits).checkpoints;
      var before := BalanceOn(checkpoints, day - 1);
      var turned :=
        if day !in t.turns then before
        else
          (match t.carryover
           case Reset => 0
           case Capped(cap) => if before > cap then cap else before
           case All => before) + if t.grant.Some? then t.grant.value else 0;
      var accrued :=
        if day !in t.earned then turned
        else if t.ceiling.Some? && turned + t.earned[day] > t.ceiling.value then t.ceiling.value
        else turned + t.earned[day];
      BalanceOn(checkpoints, day)
      == accrued + (if day in credits then credits[day] else 0) - if day in usage then usage[day] else 0
    ensures BalanceOn(Walked(t, usage, credits).checkpoints, t.start - 1) == t.opening
  {
    WalkIsDaily(t, usage, credits, day - 1);
    WalkIsDaily(t, usage, credits, day);
    WalkIsDaily(t, usage, credits, t.start - 1);
  }

  /** A turn on its own: nothing is left, or the least of the cap and what there was,
      or all there was. */
  lemma TurnLeaves(t: Terms, usage: Hours, credits: Hours, day: int)
    requires WellTimed(t) && day in t.turns && t.grant.None? && day !in t.earned && day !in usage && day !in credits
    ensures Walked(t, usage, credits).checkpoints != []
    ensures
      var checkpoints := Walked(t, usage, credits).checkpoints;
      var before := BalanceOn(checkpoints, day - 1);
      BalanceOn(checkpoints, day) == match t.carryover
                                     case Reset => 0
                                     case Capped(cap) => if before <= cap then before else cap
                                     case All => before
  {
    ReadsDayByDay(t, usage, credits, day);
  }

  lemma {:induction false} EventAt(t: Terms, usage: Hours, credits: Hours, stops: seq<int>, k: nat)
    requires k < |stops|
    ensures Events(t, usage, credits, stops)[k]
         == DayEvent(t, usage, credits, BalanceAfter(t, usage, credits, stops[..k]), stops[k])
  {
    var n := |stops| - 1;
    if k < n {
      EventAt(t, usage, credits, stops[..n], k);
      assert stops[..n][..k] == stops[..k];
    }
  }

  lemma {:induction false} StopsBefore(t: Terms, usage: Hours, credits: Hours, stops: seq<int>, until: int, k: nat)
    requires Covers(t, usage, credits, stops, until) && k < |stops| && stops[k] <= until
    ensures Covers(t, usage, credits, stops[..k], stops[k] - 1)
    ensures forall i :: 0 <= i < k ==> stops[..k][i] <= stops[k] - 1
  {
    forall d | d in Stops(t, usage, credits) && d <= stops[k] - 1 ensures d in stops[..k] {
      var i :| 0 <= i < |stops| && stops[i] == d;
      assert i < k;
      assert stops[..k][i] == d;
    }
  }

  /** One day's event, in plain numbers. */
  lemma DayAccounts(t: Terms, usage: Hours, credits: Hours, before: int, day: int)
    ensures
      var e := DayEvent(t, usage, credits, before, day);
      var carried := if day !in t.turns then before
                     else match t.carryover
                          case Reset => 0
                          case Capped(cap) => if before > cap then cap else before
                          case All => before;
      && e.date == day && (e.turnedOver <==> day in t.turns)
      && e.granted == (if day in t.turns && t.grant.Some? then t.grant.value else 0)
      && e.credited == (if day in credits then credits[day] else 0)
      && e.used == (if day in usage then usage[day] else 0)
      && e.balance == carried + e.granted + e.accrued + e.credited - e.used
  {
  }

  lemma EventReads(t: Terms, usage: Hours, credits: Hours, stops: seq<int>, k: nat)
    requires WellTimed(t) && stops == AscendingList(Stops(t, usage, credits)) && k < |stops|
    ensures Walked(t, usage, credits).checkpoints != []
    ensures
      var walked := Walked(t, usage, credits);
      var before := BalanceOn(walked.checkpoints, stops[k] - 1);
      && t.start <= stops[k] <= t.through
      && walked.events[k] == DayEvent(t, usage, credits, before, stops[k])
      && walked.events[k].balance == BalanceOn(walked.checkpoints, stops[k])
  {
    AscendingListIs(Stops(t, usage, credits));
    assert stops[k] in stops;
    StopInWindow(t, usage, credits, stops[k]);
    EventAt(t, usage, credits, stops, k);
    assert Covers(t, usage, credits, stops, t.through) by {
      assert forall i :: 0 <= i < |stops| ==> stops[i] in stops;
    }
    StopsBefore(t, usage, credits, stops, t.through, k);
    StopsSuffice(t, usage, credits, stops[..k], stops[k] - 1);
    WalkIsDaily(t, usage, credits, stops[k] - 1);
    WalkIsDaily(t, usage, credits, stops[k]);
  }

  /** Each event tells its day's movements, and they account for the balance it leaves. */
  lemma EventsTell(t: Terms, usage: Hours, credits: Hours, k: nat)
    requires WellTimed(t) && k < |Walked(t, usage, credits).events|
    ensures Walked(t, usage, credits).checkpoints != []
    ensures
      var (e, checkpoints) := (Walked(t, usage, credits).events[k], Walked(t, usage, credits).checkpoints);
      var before := BalanceOn(checkpoints, e.date - 1);
      var carried := if e.date !in t.turns then before
                     else match t.carryover
                          case Reset => 0
                          case Capped(cap) => if before > cap then cap else before
                          case All => before;
      && t.start <= e.date <= t.through
      && (e.turnedOver <==> e.date in t.turns)
      && e.granted == (if e.date in t.turns && t.grant.Some? then t.grant.value else 0)
      && e.credited == (if e.date in credits then credits[e.date] else 0)
      && e.used == (if e.date in usage then usage[e.date] else 0)
      && e.balance == BalanceOn(checkpoints, e.date)
      && e.balance == carried + e.granted + e.accrued + e.credited - e.used
  {
    var stops := AscendingList(Stops(t, usage, credits));
    EventReads(t, usage, credits, stops, k);
    DayAccounts(t, usage, credits, BalanceOn(Walked(t, usage, credits).checkpoints, stops[k] - 1), stops[k]);
  }

  lemma {:induction false} NothingBetween(hours: Hours, from: int, a: int, b: int)
    requires a <= b && from <= a + 1 && forall d :: a < d <= b ==> On(hours, d) == 0
    ensures Sum(hours, from, b) == Sum(hours, from, a)
    decreases b - a
  {
    if a < b {
      NothingBetween(hours, from, a, b - 1);
    }
  }

  /** Nothing falls on a day that is not stopped at. */
  lemma NoneOnAQuietDay(t: Terms, usage: Hours, credits: Hours, day: int)
    requires day !in Stops(t, usage, credits) && t.start <= day <= t.through
    ensures On(usage, day) == 0 && On(credits, day) == 0 && day !in t.earned
  {
  }

  lemma {:induction false} SamePrefix(one: seq<Event>, two: seq<Event>, n: nat)
    requires n <= |one| && n <= |two| && forall k :: 0 <= k < n ==> one[k] == two[k]
    ensures UsedTotal(one, n) == UsedTotal(two, n) && AccruedTotal(one, n) == AccruedTotal(two, n)
  {
    if n > 0 {
      SamePrefix(one, two, n - 1);
    }
  }

  lemma OneMoreEvent(t: Terms, usage: Hours, credits: Hours, stops: seq<int>, n: nat)
    requires |stops| == n + 1
    ensures
      var (events, before) := (Events(t, usage, credits, stops), Events(t, usage, credits, stops[..n]));
      var last := DayEvent(t, usage, credits, BalanceAfter(t, usage, credits, stops[..n]), stops[n]);
      && UsedTotal(events, n + 1) == UsedTotal(before, n) + last.used
      && AccruedTotal(events, n + 1) == AccruedTotal(before, n) + last.accrued + last.credited
  {
    SamePrefix(Events(t, usage, credits, stops[..n]), Events(t, usage, credits, stops), n);
  }

  /** Where nothing falls on a day, nothing accrues. */
  lemma {:induction false} AccruedBetween(t: Terms, usage: Hours, credits: Hours, a: int, b: int)
    requires a <= b && t.start - 1 <= a && forall d :: a < d <= b ==> d !in t.earned
    ensures AccruedBy(t, usage, credits, b) == AccruedBy(t, usage, credits, a)
    decreases b - a
  {
    if a < b {
      AccruedBetween(t, usage, credits, a, b - 1);
    }
  }

  /** Nothing comes in or goes out between stops. */
  lemma {:induction false} QuietBetween(t: Terms, usage: Hours, credits: Hours, last: int, until: int)
    requires t.start - 1 <= last <= until <= t.through
    requires forall d :: last < d <= until ==> d !in Stops(t, usage, credits)
    ensures Sum(usage, t.start, until) == Sum(usage, t.start, last)
    ensures Sum(credits, t.start, until) == Sum(credits, t.start, last)
    ensures AccruedBy(t, usage, credits, until) == AccruedBy(t, usage, credits, last)
  {
    forall d | last < d <= until ensures On(usage, d) == 0 && On(credits, d) == 0 && d !in t.earned {
      NoneOnAQuietDay(t, usage, credits, d);
    }
    NothingBetween(usage, t.start, last, until);
    NothingBetween(credits, t.start, last, until);
    AccruedBetween(t, usage, credits, last, until);
  }

  /** What a day's event adds to each sum. */
  lemma DayAdds(t: Terms, usage: Hours, credits: Hours, day: int, e: Event)
    requires t.start <= day && e == DayEvent(t, usage, credits, Daily(t, usage, credits, day - 1), day)
    ensures Sum(usage, t.start, day) == Sum(usage, t.start, day - 1) + e.used
    ensures AccruedBy(t, usage, credits, day) + Sum(credits, t.start, day)
         == AccruedBy(t, usage, credits, day - 1) + Sum(credits, t.start, day - 1) + e.accrued + e.credited
  {
  }

  /** The totals of some stops are those of the days up to one. */
  ghost predicate TotalsAre(t: Terms, usage: Hours, credits: Hours, stops: seq<int>, until: int) {
    var events := Events(t, usage, credits, stops);
    && UsedTotal(events, |events|) == Sum(usage, t.start, until)
    && AccruedTotal(events, |events|) == AccruedBy(t, usage, credits, until) + Sum(credits, t.start, until)
  }

  lemma {:induction false} TotalsStay(t: Terms, usage: Hours, credits: Hours, stops: seq<int>, last: int, until: int)
    requires TotalsAre(t, usage, credits, stops, last) && t.start - 1 <= last <= until <= t.through
    requires forall d :: last < d <= until ==> d !in Stops(t, usage, credits)
    ensures TotalsAre(t, usage, credits, stops, until)
  {
    QuietBetween(t, usage, credits, last, until);
  }

  lemma {:induction false} TotalsUpTo(t: Terms, usage: Hours, credits: Hours, stops: seq<int>, until: int)
    requires WellTimed(t) && Covers(t, usage, credits, stops, until) && t.start - 1 <= until <= t.through
    requires stops != [] ==> stops[|stops| - 1] <= until
    ensures TotalsAre(t, usage, credits, stops, until)
    decreases |stops|
  {
    if stops == [] {
      TotalsStay(t, usage, credits, stops, t.start - 1, until);
    } else {
      var n, last := |stops| - 1, stops[|stops| - 1];
      CoversAllButLast(t, usage, credits, stops, until);
      StopInWindow(t, usage, credits, last);
      assert n > 0 ==> stops[..n][n - 1] <= last - 1;
      TotalsUpTo(t, usage, credits, stops[..n], last - 1);
      TotalsOn(t, usage, credits, stops, n, last, until);
    }
  }

  lemma {:induction false} TotalsOn(t: Terms, usage: Hours, credits: Hours, stops: seq<int>, n: nat, day: int,
                                    until: int)
    requires WellTimed(t) && |stops| == n + 1 && stops[n] == day && t.start <= day <= until <= t.through
    requires Covers(t, usage, credits, stops[..n], day - 1) && forall k :: 0 <= k < n ==> stops[..n][k] <= day - 1
    requires forall d :: day < d <= until ==> d !in Stops(t, usage, credits)
    requires TotalsAre(t, usage, credits, stops[..n], day - 1)
    ensures TotalsAre(t, usage, credits, stops, until)
  {
    TotalsAtAStop(t, usage, credits, stops, n, day);
    TotalsStay(t, usage, credits, stops, day, until);
  }

  lemma {:induction false} TotalsAtAStop(t: Terms, usage: Hours, credits: Hours, stops: seq<int>, n: nat, day: int)
    requires WellTimed(t) && |stops| == n + 1 && stops[n] == day && t.start <= day
    requires Covers(t, usage, credits, stops[..n], day - 1) && forall k :: 0 <= k < n ==> stops[..n][k] <= day - 1
    requires TotalsAre(t, usage, credits, stops[..n], day - 1)
    ensures TotalsAre(t, usage, credits, stops, day)
  {
    StopsSuffice(t, usage, credits, stops[..n], day - 1);
    OneMoreEvent(t, usage, credits, stops, n);
    DayAdds(t, usage, credits, day, DayEvent(t, usage, credits, Daily(t, usage, credits, day - 1), day));
  }

  lemma {:induction false} AllStops(t: Terms, usage: Hours, credits: Hours, stops: seq<int>)
    requires WellTimed(t) && stops == AscendingList(Stops(t, usage, credits))
    ensures Covers(t, usage, credits, stops, t.through) && forall k :: 0 <= k < |stops| ==> stops[k] <= t.through
  {
    AscendingListIs(Stops(t, usage, credits));
    forall k | 0 <= k < |stops| ensures stops[k] in Stops(t, usage, credits) && stops[k] <= t.through {
      assert stops[k] in stops;
    }
  }

  /** The used total is what was used within the walk. */
  lemma UsedTotalIs(t: Terms, usage: Hours, credits: Hours)
    requires WellTimed(t)
    ensures Walked(t, usage, credits).usedTotal == Sum(usage, t.start, t.through)
  {
    var stops := AscendingList(Stops(t, usage, credits));
    AllStops(t, usage, credits, stops);
    TotalsUpTo(t, usage, credits, stops, t.through);
  }

  /** The two totals, the grants and what turns forfeited account for the last balance. */
  lemma TotalsBalance(t: Terms, usage: Hours, credits: Hours)
    requires WellTimed(t)
    ensures Walked(t, usage, credits).checkpoints != []
    ensures
      var walked := Walked(t, usage, credits);
      BalanceOn(walked.checkpoints, t.through)
      == t.opening + TurnsBy(t, t.through) * (if t.grant.Some? then t.grant.value else 0)
         + walked.accruedTotal - walked.usedTotal - ForfeitedBy(t, usage, credits, t.through)
  {
    var stops := AscendingList(Stops(t, usage, credits));
    AllStops(t, usage, credits, stops);
    TotalsUpTo(t, usage, credits, stops, t.through);
    UsedTotalIs(t, usage, credits);
    HoursAreConserved(t, usage, credits, t.through);
    WalkIsDaily(t, usage, credits, t.through);
  }

  // ---------------------------------------------------------- the ceiling

  /** An accrual takes hours away exactly when a balance above the ceiling,
      which a grant or a credit may leave, meets one. */
  lemma AccrualTakesAway(t: Terms, balance: int, day: int)
    requires day in t.earned && t.earned[day] >= 0
    ensures AfterAccrual(t, balance, day) < balance <==> t.ceiling.Some? && balance > t.ceiling.value
  {
  }

  /** Granted 150 hours under a ceiling of 120, the first pay date takes 30 back. */
  lemma GrantLostToTheCeiling()
    ensures
      var t := Terms(0, 10, 0, {1}, map[2 := 800], Reset, Some(15000), Some(12000));
      WellTimed(t) && AfterTurn(t, 0, 1) == 15000 && AfterAccrual(t, 15000, 2) == 12000
  {
    assert 2 in map[2 := 800];
  }

  // --------------------------------------------------------- Test Time Off

  /** The same terms, with some accruals smaller. */
  ghost predicate EarnsLess(t: Terms, less: Terms) {
    && less.earned.Keys == t.earned.Keys
    && less == t.(earned := less.earned)
    && forall d :: d in t.earned ==> less.earned[d] <= t.earned[d]
  }

  ghost predicate TakesMore(usage: Hours, more: Hours) {
    forall d :: On(usage, d) <= On(more, d)
  }

  /** One day neither reverses the order of two balances nor widens their gap,
      beyond what that day's own hours and accrual differ by. */
  lemma DayKeepsOrder(t: Terms, less: Terms, usage: Hours, more: Hours, credits: Hours, high: int, low: int, day: int)
    requires EarnsLess(t, less) && On(usage, day) <= On(more, day) && low <= high
    ensures
      var cost := DayEvent(t, usage, credits, high, day).balance - DayEvent(less, more, credits, low, day).balance;
      0 <= cost <= high - low + On(more, day) - On(usage, day) + On(t.earned, day) - On(less.earned, day)
  {
    assert AfterTurn(less, low, day) == AfterTurn(t, low, day);
    assert 0 <= AfterTurn(t, high, day) - AfterTurn(t, low, day) <= high - low;
  }

  /** Taking more, and earning less for having been away, never raises a balance
      and lowers it by at most the hours taken and the accrual they cost. */
  lemma {:induction false} TimeOffCosts(t: Terms, less: Terms, usage: Hours, more: Hours, credits: Hours, day: int)
    requires EarnsLess(t, less) && TakesMore(usage, more)
    ensures
      var cost := Daily(t, usage, credits, day) - Daily(less, more, credits, day);
      var last := Min(day, t.through);
      0 <= cost <= Sum(more, t.start, last) - Sum(usage, t.start, last)
                   + Sum(t.earned, t.start, last) - Sum(less.earned, t.start, last)
    decreases day - t.start
  {
    if day >= t.start {
      TimeOffCosts(t, less, usage, more, credits, day - 1);
      if day <= t.through {
        assert On(usage, day) <= On(more, day);
        DayKeepsOrder(t, less, usage, more, credits,
                      Daily(t, usage, credits, day - 1), Daily(less, more, credits, day - 1), day);
      }
    }
  }

  // ------------------------------------------------- a figure on one date

  /** A credit or a prior on one date moves that day's balance by exactly that
      and leaves every earlier one, because neither is clamped or pro-rated. */
  lemma {:induction false} SameBefore(t: Terms, usage: Hours, credits: Hours, usage': Hours, credits': Hours,
                                      day: int, when: int)
    requires forall d :: d != day ==> On(usage, d) == On(usage', d) && On(credits, d) == On(credits', d)
    requires when < day
    ensures Daily(t, usage, credits, when) == Daily(t, usage', credits', when)
    decreases when - t.start
  {
    if when >= t.start {
      SameBefore(t, usage, credits, usage', credits', day, when - 1);
      assert On(usage, when) == On(usage', when) && On(credits, when) == On(credits', when);
    }
  }

  lemma {:induction false} MovesByExactly(t: Terms, usage: Hours, credits: Hours, usage': Hours, credits': Hours,
                                          day: int)
    requires forall d :: d != day ==> On(usage, d) == On(usage', d) && On(credits, d) == On(credits', d)
    requires t.start <= day <= t.through
    ensures Daily(t, usage', credits', day) - Daily(t, usage, credits, day)
         == On(credits', day) - On(credits, day) - (On(usage', day) - On(usage, day))
  {
    SameBefore(t, usage, credits, usage', credits', day, day - 1);
  }

  // ----------------------------------------------------- opening a new year

  /** Replaying a year from nothing, the turn that opens it included, is the
      same walk as starting from what that turn left. */
  lemma {:induction false} OpeningTurnFoldsIn(t: Terms, usage: Hours, credits: Hours, day: int)
    requires WellTimed(t)
    requires On(usage, t.start) == 0 && On(credits, t.start) == 0
    requires t.start <= day
    ensures
      var folded := t.(opening := Daily(t, usage, credits, t.start), turns := t.turns - {t.start});
      Daily(folded, usage, credits, day) == Daily(t, usage, credits, day)
    decreases day - t.start
  {
    if day > t.start {
      OpeningTurnFoldsIn(t, usage, credits, day - 1);
    }
  }
}
