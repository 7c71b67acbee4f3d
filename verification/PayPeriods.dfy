/** pay_forecast.py, placing paychecks: paydays moved off closed days, and the
    periods the checks pay for. */
module PayPeriods {
  import opened Wrappers
  import opened Sorting
  import opened Calendar
  import opened Arithmetic
  import opened Cadence
  import Paychecks

  datatype Rule = Before | After | NoShift

  const MOST_DAYS_MOVED := 14
  const MARGIN := 10

  // --------------------------------------------------------------- paydays

  predicate Shut(closed: set<int>, day: int) {
    Weekday(day) >= 5 || day in closed
  }

  function StepOf(rule: Rule): int {
    match rule
    case Before => -1
    case After => 1
    case NoShift => 0
  }

  function Shifted(rule: Rule, closed: set<int>, when: int, guard: nat): int
    decreases guard
  {
    if rule != NoShift && Shut(closed, when) && guard > 0
    then Shifted(rule, closed, when + StepOf(rule), guard - 1) else when
  }

  function PaydayFor(rule: Rule, closed: set<int>): int -> int {
    nominal => Shifted(rule, closed, nominal, MOST_DAYS_MOVED)
  }

  /** shift_payday. */
  method ShiftPayday(nominal: int, rule: Rule, closed: set<int>) returns (when: int)
    ensures when == PaydayFor(rule, closed)(nominal)
  {
    when := nominal;
    if rule == NoShift {
      return;
    }
    var guard := 0;
    while (Weekday(when) >= 5 || when in closed) && guard < MOST_DAYS_MOVED
      invariant 0 <= guard <= MOST_DAYS_MOVED
      invariant Shifted(rule, closed, when, MOST_DAYS_MOVED - guard) == PaydayFor(rule, closed)(nominal)
    {
      when := when + StepOf(rule);
      guard := guard + 1;
    }
  }

  /** The money arrives on the nearest open day on that side, every day up to it
      being shut; or, none being within reach, fourteen days off. */
  lemma {:induction false} NearestOpenDay(rule: Rule, closed: set<int>, when: int, guard: nat, between: int)
    requires rule != NoShift
    ensures
      var moved := StepOf(rule) * (Shifted(rule, closed, when, guard) - when);
      && 0 <= moved <= guard
      && (Shut(closed, Shifted(rule, closed, when, guard)) ==> moved == guard)
      && (0 <= between < moved ==> Shut(closed, when + StepOf(rule) * between))
    decreases guard
  {
    if Shut(closed, when) && guard > 0 {
      NearestOpenDay(rule, closed, when + StepOf(rule), guard - 1, between - 1);
    }
  }

  /** More days to move in only ever moves further. */
  lemma {:induction false} OneMoreDay(rule: Rule, closed: set<int>, when: int, guard: nat)
    ensures rule == Before ==> Shifted(rule, closed, when, guard + 1) <= Shifted(rule, closed, when, guard)
    ensures rule == After ==> Shifted(rule, closed, when, guard) <= Shifted(rule, closed, when, guard + 1)
    decreases guard
  {
    if rule != NoShift && Shut(closed, when) && guard > 0 {
      OneMoreDay(rule, closed, when + StepOf(rule), guard - 1);
    }
  }

  /** Moving paydays off closed days never makes a later one arrive earlier. */
  lemma {:induction false} ShiftKeepsOrder(rule: Rule, closed: set<int>, a: int, b: int, guard: nat)
    requires a <= b
    ensures Shifted(rule, closed, a, guard) <= Shifted(rule, closed, b, guard)
    decreases guard
  {
    if rule != NoShift && guard > 0 && a < b {
      if rule == Before {
        StepsDown(rule, closed, a, guard);
        if Shut(closed, b) {
          ShiftKeepsOrder(rule, closed, a, b - 1, guard - 1);
          OneMoreDay(rule, closed, a, guard - 1);
        }
      } else {
        StepsUp(rule, closed, b, guard);
        if Shut(closed, a) {
          ShiftKeepsOrder(rule, closed, a + 1, b, guard - 1);
          OneMoreDay(rule, closed, b, guard - 1);
        }
      }
    }
  }

  lemma StepsDown(rule: Rule, closed: set<int>, when: int, guard: nat)
    requires rule == Before
    ensures Shifted(rule, closed, when, guard) <= when
  {
    NearestOpenDay(rule, closed, when, guard, 0);
  }

  lemma StepsUp(rule: Rule, closed: set<int>, when: int, guard: nat)
    requires rule == After
    ensures when <= Shifted(rule, closed, when, guard)
  {
    NearestOpenDay(rule, closed, when, guard, 0);
  }

  // --------------------------------------------------------------- periods

  datatype PayPeriod = PayPeriod(payDate: int, nominal: int, start: int, end: int)

  /** The pay date the period of one nominal date begins after. */
  function Previous(nominals: seq<int>, before: int, k: nat): int
    requires k < |nominals|
  {
    if k == 0 then before else nominals[k - 1]
  }

  function PeriodOf(nominals: seq<int>, before: int, lag: nat, pay: int -> int, k: nat): PayPeriod
    requires k < |nominals|
  {
    PayPeriod(pay(nominals[k]), nominals[k], Previous(nominals, before, k) - lag + 1, nominals[k] - lag)
  }

  /** The periods of the first n nominal dates whose money lands in [first, last]. */
  function Landing(nominals: seq<int>, before: int, lag: nat, pay: int -> int, first: int, last: int,
                   n: nat): seq<PayPeriod>
    requires n <= |nominals|
  {
    if n == 0 then []
    else
      Landing(nominals, before, lag, pay, first, last, n - 1)
      + if first <= pay(nominals[n - 1]) <= last then [PeriodOf(nominals, before, lag, pay, n - 1)] else []
  }

  /** sorted(set(dates)). */
  function DatesOf(dates: seq<int>): seq<int> {
    AscendingList(set d | d in dates)
  }

  /** The nominal pay dates looked at for a window. */
  function Nominals(c: Cadence, anchor: int, first: int, last: int): seq<int>
    requires WellFormed(c)
  {
    DatesOf(OccurrenceDates(c, GenerateFrom(c, anchor, first - MARGIN), last + MARGIN))
  }

  /** The periods of one list of nominal dates. */
  function PeriodsFrom(c: Cadence, nominals: seq<int>, lag: nat, pay: int -> int, first: int, last: int): seq<PayPeriod>
    requires WellFormed(c)
  {
    if |nominals| == 0 then []
    else Landing(nominals, PayDateBefore(c, nominals[0]), lag, pay, first, last, |nominals|)
  }

  function Periods(c: Cadence, anchor: Option<int>, lag: nat, rule: Rule, closed: set<int>, first: int, last: int)
    : seq<PayPeriod>
    requires WellFormed(c)
  {
    if anchor.None? || last < first then []
    else PeriodsFrom(c, Nominals(c, anchor.value, first, last), lag, PaydayFor(rule, closed), first, last)
  }

  /** pay_periods, given the closed days. */
  method ListPayPeriods(c: Cadence, anchor: Option<int>, lag: nat, rule: Rule, closed: set<int>, first: int, last: int)
    returns (out: seq<PayPeriod>)
    requires WellFormed(c)
    ensures out == Periods(c, anchor, lag, rule, closed, first, last)
  {
    if anchor.None? || last < first {
      return [];
    }
    var nominals := ListNominals(c, anchor.value, first, last);
    if |nominals| == 0 {
      return [];
    }
    out := PlacePeriods(nominals, PayDateBefore(c, nominals[0]), lag, rule, closed, first, last);
  }

  method ListNominals(c: Cadence, anchor: int, first: int, last: int) returns (nominals: seq<int>)
    requires WellFormed(c)
    ensures nominals == Nominals(c, anchor, first, last)
  {
    var walkFrom := WalkBackToStart(c, anchor, first - MARGIN);
    var dates := RecurringOccurrenceDates(c, walkFrom, last + MARGIN);
    nominals := DatesOf(dates);
  }

  method PlacePeriods(nominals: seq<int>, before: int, lag: nat, rule: Rule, closed: set<int>, first: int, last: int)
    returns (out: seq<PayPeriod>)
    ensures out == Landing(nominals, before, lag, PaydayFor(rule, closed), first, last, |nominals|)
  {
    out := [];
    var previous := before;
    for k := 0 to |nominals|
      invariant previous == if k == 0 then before else nominals[k - 1]
      invariant out == Landing(nominals, before, lag, PaydayFor(rule, closed), first, last, k)
    {
      var payDate := ShiftPayday(nominals[k], rule, closed);
      if first <= payDate <= last {
        out := out + [PayPeriod(payDate, nominals[k], previous - lag + 1, nominals[k] - lag)];
      }
      previous := nominals[k];
    }
  }

  // ------------------------------------------------- a check, in plain terms

  /** A payday, and every day between it and the date it was due: moved by nothing when the
      rule moves none or the day is open; else over shut days only, onto an open one unless
      fourteen were not enough. */
  ghost predicate MovedOver(rule: Rule, closed: set<int>, nominal: int, payday: int) {
    match rule
    case NoShift => payday == nominal
    case Before =>
      && nominal - 14 <= payday <= nominal
      && (forall d :: payday < d <= nominal ==> Weekday(d) >= 5 || d in closed)
      && (payday == nominal - 14 || (Weekday(payday) < 5 && payday !in closed))
    case After =>
      && nominal <= payday <= nominal + 14
      && (forall d :: nominal <= d < payday ==> Weekday(d) >= 5 || d in closed)
      && (payday == nominal + 14 || (Weekday(payday) < 5 && payday !in closed))
  }

  lemma MovesBack(closed: set<int>, nominal: int, guard: nat)
    requires guard == 14
    ensures MovedOver(Before, closed, nominal, Shifted(Before, closed, nominal, guard))
  {
    var payday := Shifted(Before, closed, nominal, guard);
    NearestOpenDay(Before, closed, nominal, guard, 0);
    forall d | payday < d <= nominal ensures Shut(closed, d) {
      NearestOpenDay(Before, closed, nominal, guard, nominal - d);
    }
  }

  lemma MovesOn(closed: set<int>, nominal: int, guard: nat)
    requires guard == 14
    ensures MovedOver(After, closed, nominal, Shifted(After, closed, nominal, guard))
  {
    var payday := Shifted(After, closed, nominal, guard);
    NearestOpenDay(After, closed, nominal, guard, 0);
    forall d | nominal <= d < payday ensures Shut(closed, d) {
      NearestOpenDay(After, closed, nominal, guard, d - nominal);
    }
  }

  /** So every payday is. */
  lemma PaydayMoves(rule: Rule, closed: set<int>, nominal: int)
    ensures MovedOver(rule, closed, nominal, PaydayFor(rule, closed)(nominal))
  {
    match rule
    case NoShift =>
    case Before => MovesBack(closed, nominal, MOST_DAYS_MOVED);
    case After => MovesOn(closed, nominal, MOST_DAYS_MOVED);
  }

  lemma {:induction false} LandedAt(nominals: seq<int>, before: int, lag: nat, pay: int -> int, first: int, last: int,
                                    n: nat, i: nat) returns (k: nat)
    requires n <= |nominals| && i < |Landing(nominals, before, lag, pay, first, last, n)|
    ensures k < n && first <= pay(nominals[k]) <= last
    ensures Landing(nominals, before, lag, pay, first, last, n)[i]
         == PayPeriod(pay(nominals[k]), nominals[k], (if k == 0 then before else nominals[k - 1]) - lag + 1,
                      nominals[k] - lag)
  {
    if i < |Landing(nominals, before, lag, pay, first, last, n - 1)| {
      k := LandedAt(nominals, before, lag, pay, first, last, n - 1, i);
    } else {
      k := n - 1;
    }
  }

  /** Each check listed: paid within the window, on a day its due date moves to; for a period
      that ends the lag before it was due, and begins the lag after the last date before. */
  lemma CheckTells(c: Cadence, anchor: int, lag: nat, rule: Rule, closed: set<int>, first: int, last: int, i: nat)
    returns (previous: int)
    requires WellFormed(c) && i < |Periods(c, Some(anchor), lag, rule, closed, first, last)|
    ensures
      var check := Periods(c, Some(anchor), lag, rule, closed, first, last)[i];
      && first <= check.payDate <= last && MovedOver(rule, closed, check.nominal, check.payDate)
      && check.nominal <= last + 10 && Occurs(c, GenerateFrom(c, anchor, first - 10), check.nominal)
      && check.end == check.nominal - lag && check.start == previous - lag + 1 && previous < check.nominal
      && Quiet(c, GenerateFrom(c, anchor, first - 10), previous, check.nominal)
  {
    var nominals, pay := Nominals(c, anchor, first, last), PaydayFor(rule, closed);
    NominalsAre(c, anchor, first, last, 0);
    var k := LandedAt(nominals, PayDateBefore(c, nominals[0]), lag, pay, first, last, |nominals|, i);
    PaydayMoves(rule, closed, nominals[k]);
    previous := if k == 0 then PayDateBefore(c, nominals[0]) else nominals[k - 1];
    assert nominals[k] in nominals;
    NominalsAre(c, anchor, first, last, nominals[k]);
    var days, start := nominals, GenerateFrom(c, anchor, first - 10);
    forall d | previous < d && Occurs(c, start, d) ensures days[k] <= d {
      if d < days[k] {
        NominalsAre(c, anchor, first, last, d);
        NotBetween(days, previous, k, d);
      }
    }
  }

  /** The series has no date strictly between two days. */
  ghost predicate Quiet(c: Cadence, start: int, after: int, before: int)
    requires WellFormed(c)
  {
    forall d :: after < d && Occurs(c, start, d) ==> before <= d
  }

  /** No date of an ascending list lies between two that follow one another. */
  lemma NotBetween(days: seq<int>, previous: int, k: nat, d: int)
    requires Ascending(days) && k < |days| && (k > 0 ==> previous == days[k - 1]) && previous < d < days[k]
    ensures d !in days
  {
    forall j | 0 <= j < |days| ensures days[j] != d {
      assert j > k ==> days[k] < days[j];
      assert j < k - 1 ==> days[j] < days[k - 1];
    }
  }

  // ------------------------------------------------------- periods tile time

  ghost predicate KeepsOrder(pay: int -> int) {
    forall a, b :: a <= b ==> pay(a) <= pay(b)
  }

  /** No run of closed days moves a payday past the margin looked at. */
  ghost predicate StaysNear(pay: int -> int) {
    forall d :: d - MARGIN <= pay(d) <= d + MARGIN
  }

  lemma PaydaysKeepOrder(rule: Rule, closed: set<int>)
    ensures KeepsOrder(PaydayFor(rule, closed))
  {
    forall a, b | a <= b ensures PaydayFor(rule, closed)(a) <= PaydayFor(rule, closed)(b) {
      ShiftKeepsOrder(rule, closed, a, b, MOST_DAYS_MOVED);
    }
  }

  /** The last period listed is the last nominal date's, unless that one's money
      already lands past the window. */
  lemma {:induction false} LastListed(nominals: seq<int>, before: int, lag: nat, pay: int -> int, first: int,
                                      last: int, n: nat)
    requires Ascending(nominals) && KeepsOrder(pay) && 0 < n <= |nominals|
    ensures
      var out := Landing(nominals, before, lag, pay, first, last, n);
      out != [] ==> out[|out| - 1] == PeriodOf(nominals, before, lag, pay, n - 1) || pay(nominals[n - 1]) > last
  {
    if n > 1 {
      LastListed(nominals, before, lag, pay, first, last, n - 1);
      assert nominals[n - 2] < nominals[n - 1];
      assert pay(nominals[n - 2]) <= pay(nominals[n - 1]);
    }
    if pay(nominals[n - 1]) < first {
      NothingLandsBefore(nominals, before, lag, pay, first, last, n);
    }
  }

  lemma {:induction false} NothingLandsBefore(nominals: seq<int>, before: int, lag: nat, pay: int -> int, first: int,
                                              last: int,
                                              n: nat)
    requires Ascending(nominals) && KeepsOrder(pay) && 0 < n <= |nominals| && pay(nominals[n - 1]) < first
    ensures Landing(nominals, before, lag, pay, first, last, n) == []
  {
    if n > 1 {
      assert nominals[n - 2] < nominals[n - 1];
      NothingLandsBefore(nominals, before, lag, pay, first, last, n - 1);
    }
  }

  function Spans(periods: seq<PayPeriod>): (r: seq<Paychecks.Period>)
    ensures |r| == |periods|
  {
    seq(|periods|, i requires 0 <= i < |periods| => Paychecks.Period(periods[i].start, periods[i].end))
  }

  /** Whatever the window, the periods listed follow one another with no gap and
      no overlap. */
  lemma {:induction false} PeriodsTile(nominals: seq<int>, before: int, lag: nat, pay: int -> int, first: int,
                                       last: int, n: nat)
    requires Ascending(nominals) && KeepsOrder(pay) && n <= |nominals|
    requires |nominals| > 0 ==> before < nominals[0]
    ensures Paychecks.Tiling(Spans(Landing(nominals, before, lag, pay, first, last, n)))
  {
    if n > 0 {
      PeriodsTile(nominals, before, lag, pay, first, last, n - 1);
      if n > 1 {
        LastListed(nominals, before, lag, pay, first, last, n - 1);
        assert nominals[n - 2] < nominals[n - 1];
        assert pay(nominals[n - 2]) <= pay(nominals[n - 1]);
      }
      TileOn(Landing(nominals, before, lag, pay, first, last, n - 1), PeriodOf(nominals, before, lag, pay, n - 1));
    }
  }

  /** So it is for every window, every rule and every run of closed days. */
  lemma PayPeriodsTile(c: Cadence, anchor: Option<int>, lag: nat, rule: Rule, closed: set<int>, first: int, last: int)
    requires WellFormed(c)
    ensures Paychecks.Tiling(Spans(Periods(c, anchor, lag, rule, closed, first, last)))
  {
    if anchor.Some? && first <= last {
      var nominals := Nominals(c, anchor.value, first, last);
      NominalsAre(c, anchor.value, first, last, 0);
      PaydaysKeepOrder(rule, closed);
      if |nominals| > 0 {
        PeriodsTile(nominals, PayDateBefore(c, nominals[0]), lag, PaydayFor(rule, closed), first, last, |nominals|);
      }
    }
  }

  lemma TileOn(periods: seq<PayPeriod>, next: PayPeriod)
    requires Paychecks.Tiling(Spans(periods)) && next.start <= next.end + 1
    ensures (periods != [] ==> next.start == periods[|periods| - 1].end + 1)
            ==> Paychecks.Tiling(Spans(periods + [next]))
    ensures Paychecks.Tiling(Spans(periods + []))
  {
    assert periods + [] == periods;
    var spans, after := Spans(periods), Spans(periods + [next]);
    assert forall i :: 0 <= i < |periods| ==> after[i] == spans[i];
  }

  // --------------------------------------------------------- windows compose

  lemma {:induction false} WindowSplits(nominals: seq<int>, before: int, lag: nat, pay: int -> int, a: int, b: int,
                                        c: int, n: nat)
    requires Ascending(nominals) && KeepsOrder(pay) && n <= |nominals| && a <= b < c
    ensures Landing(nominals, before, lag, pay, a, c, n)
         == Landing(nominals, before, lag, pay, a, b, n) + Landing(nominals, before, lag, pay, b + 1, c, n)
  {
    if n > 0 {
      WindowSplits(nominals, before, lag, pay, a, b, c, n - 1);
      if pay(nominals[n - 1]) <= b {
        NothingLandsBefore(nominals, before, lag, pay, b + 1, c, n);
        if n > 1 {
          assert nominals[n - 2] < nominals[n - 1];
          NothingLandsBefore(nominals, before, lag, pay, b + 1, c, n - 1);
        }
      } else {
        var last := if pay(nominals[n - 1]) <= c then [PeriodOf(nominals, before, lag, pay, n - 1)] else [];
        Reassociate(Landing(nominals, before, lag, pay, a, b, n - 1),
                    Landing(nominals, before, lag, pay, b + 1, c, n - 1), last);
      }
    }
  }

  lemma Reassociate<T>(one: seq<T>, two: seq<T>, three: seq<T>)
    ensures one + two + three == one + (two + three)
  {
  }

  /** Nominal dates past the window add nothing to it. */
  lemma {:induction false} FrontSuffices(nominals: seq<int>, before: int, lag: nat, pay: int -> int, first: int,
                                         last: int,
                                         m: nat, n: nat)
    requires m <= n <= |nominals| && forall k :: m <= k < |nominals| ==> pay(nominals[k]) > last
    ensures Landing(nominals, before, lag, pay, first, last, n) == Landing(nominals, before, lag, pay, first, last, m)
  {
    if m < n {
      FrontSuffices(nominals, before, lag, pay, first, last, m, n - 1);
    }
  }

  lemma {:induction false} FrontAlone(nominals: seq<int>, before: int, lag: nat, pay: int -> int, first: int, last: int,
                                      m: nat, n: nat)
    requires n <= m <= |nominals|
    ensures Landing(nominals[..m], before, lag, pay, first, last, n)
         == Landing(nominals, before, lag, pay, first, last, n)
  {
    if n > 0 {
      FrontAlone(nominals, before, lag, pay, first, last, m, n - 1);
    }
  }

  /** Nor do those before it, so long as the one just before is remembered. */
  lemma {:induction false} BackSuffices(nominals: seq<int>, before: int, lag: nat, pay: int -> int, first: int,
                                        last: int,
                                        k: nat, n: nat)
    requires Ascending(nominals) && KeepsOrder(pay) && k < n <= |nominals|
    requires forall i :: 0 <= i < k ==> pay(nominals[i]) < first
    ensures Landing(nominals[k..], Previous(nominals, before, k), lag, pay, first, last, n - k)
         == Landing(nominals, before, lag, pay, first, last, n)
  {
    var tail := nominals[k..];
    if n - 1 > k {
      BackSuffices(nominals, before, lag, pay, first, last, k, n - 1);
    } else if k > 0 {
      NothingLandsBefore(nominals, before, lag, pay, first, last, k);
    }
    assert PeriodOf(tail, Previous(nominals, before, k), lag, pay, n - k - 1)
        == PeriodOf(nominals, before, lag, pay, n - 1);
  }

  ghost predicate Has(days: seq<int>, d: int) {
    exists j :: 0 <= j < |days| && days[j] == d
  }

  ghost predicate IsWithin(one: seq<int>, two: seq<int>) {
    forall k :: 0 <= k < |one| ==> Has(two, one[k])
  }

  lemma FrontHas(days: seq<int>, d: int)
    requires Ascending(days) && |days| > 0 && Has(days, d) && d != days[|days| - 1]
    ensures Has(days[..|days| - 1], d)
  {
    var j :| 0 <= j < |days| && days[j] == d;
    assert days[..|days| - 1][j] == d;
  }

  lemma FrontWithin(one: seq<int>, two: seq<int>)
    requires Ascending(one) && Ascending(two) && IsWithin(one, two) && |one| > 0 && |two| > 0
    requires one[|one| - 1] == two[|two| - 1]
    ensures IsWithin(one[..|one| - 1], two[..|two| - 1])
  {
    var front := one[..|one| - 1];
    forall k | 0 <= k < |front| ensures Has(two[..|two| - 1], front[k]) {
      assert front[k] == one[k] < one[|one| - 1];
      FrontHas(two, one[k]);
    }
  }

  lemma SameLast(one: seq<int>, two: seq<int>)
    requires Ascending(one) && Ascending(two) && IsWithin(one, two) && IsWithin(two, one) && |one| > 0
    ensures |two| > 0 && one[|one| - 1] == two[|two| - 1]
  {
    assert Has(two, one[|one| - 1]);
    var j :| 0 <= j < |two| && two[j] == one[|one| - 1];
    assert Has(one, two[|two| - 1]);
    var k :| 0 <= k < |one| && one[k] == two[|two| - 1];
  }

  lemma SomewhereToBe(one: seq<int>, two: seq<int>)
    requires IsWithin(one, two)
    ensures |one| > 0 ==> |two| > 0
  {
    if |one| > 0 {
      assert Has(two, one[0]);
    }
  }

  /** Two ascending lists of the same days are one list. */
  lemma {:induction false} AscendingUnique(one: seq<int>, two: seq<int>)
    requires Ascending(one) && Ascending(two) && IsWithin(one, two) && IsWithin(two, one)
    ensures one == two
  {
    SomewhereToBe(two, one);
    if |one| > 0 {
      SameLast(one, two);
      FrontWithin(one, two);
      FrontWithin(two, one);
      AscendingUnique(one[..|one| - 1], two[..|two| - 1]);
      assert one == one[..|one| - 1] + [one[|one| - 1]] && two == two[..|two| - 1] + [two[|two| - 1]];
    }
  }

  lemma {:induction false} WithinByMembers(one: seq<int>, two: seq<int>)
    requires forall d :: d in one ==> d in two
    ensures IsWithin(one, two)
  {
    forall k | 0 <= k < |one| ensures Has(two, one[k]) {
      var d := one[k];
      assert d in one && d in two;
    }
  }

  /** Where an ascending list passes a day. */
  lemma {:induction false} CutAt(days: seq<int>, end: int) returns (m: nat)
    requires Ascending(days)
    ensures m <= |days|
    ensures forall k :: 0 <= k < m ==> days[k] <= end
    ensures forall k :: m <= k < |days| ==> days[k] > end
  {
    m := 0;
    while m < |days| && days[m] <= end
      invariant m <= |days|
      invariant forall k :: 0 <= k < m ==> days[k] <= end
    {
      m := m + 1;
    }
  }

  lemma {:induction false} FrontIs(days: seq<int>, front: seq<int>, end: int) returns (m: nat)
    requires Ascending(days) && Ascending(front) && forall d :: d in front <==> d in days && d <= end
    ensures m <= |days| && front == days[..m] && forall k :: m <= k < |days| ==> days[k] > end
  {
    m := CutAt(days, end);
    forall d ensures d in front <==> d in days[..m] {
      assert days == days[..m] + days[m..];
    }
    WithinByMembers(front, days[..m]);
    WithinByMembers(days[..m], front);
    AscendingUnique(front, days[..m]);
  }

  lemma {:induction false} TailMembers(days: seq<int>, k: nat, from: int)
    requires k <= |days|
    requires (forall i :: 0 <= i < k ==> days[i] < from) && (forall i :: k <= i < |days| ==> days[i] >= from)
    ensures forall d :: d in days[k..] <==> d in days && d >= from
  {
    assert days == days[..k] + days[k..];
  }

  lemma {:induction false} BackIs(days: seq<int>, back: seq<int>, from: int) returns (k: nat)
    requires Ascending(days) && Ascending(back) && forall d :: d in back <==> d in days && d >= from
    ensures k <= |days| && back == days[k..] && forall i :: 0 <= i < k ==> days[i] < from
  {
    k := CutAt(days, from - 1);
    TailMembers(days, k, from);
    WithinByMembers(back, days[k..]);
    WithinByMembers(days[k..], back);
    AscendingUnique(back, days[k..]);
  }

  lemma NominalsAre(c: Cadence, anchor: int, first: int, last: int, d: int)
    requires WellFormed(c)
    ensures d in Nominals(c, anchor, first, last)
       <==> d <= last + MARGIN && Occurs(c, GenerateFrom(c, anchor, first - MARGIN), d)
    ensures Ascending(Nominals(c, anchor, first, last))
  {
    var dates := OccurrenceDates(c, GenerateFrom(c, anchor, first - MARGIN), last + MARGIN);
    AscendingListIs(set x | x in dates);
    GeneratesTheSeries(c, GenerateFrom(c, anchor, first - MARGIN), last + MARGIN, d);
  }

  lemma {:induction false} ShorterNominals(c: Cadence, anchor: int, a: int, b: int, e: int) returns (m: nat)
    requires WellFormed(c) && a <= b < e
    ensures
      var all := Nominals(c, anchor, a, e);
      && m <= |all| && Nominals(c, anchor, a, b) == all[..m] && forall k :: m <= k < |all| ==> all[k] > b + MARGIN
  {
    var all, front := Nominals(c, anchor, a, e), Nominals(c, anchor, a, b);
    forall d ensures d in front <==> d in all && d <= b + MARGIN {
      NominalsAre(c, anchor, a, b, d);
      NominalsAre(c, anchor, a, e, d);
    }
    NominalsAre(c, anchor, a, e, 0);
    NominalsAre(c, anchor, a, b, 0);
    m := FrontIs(all, front, b + MARGIN);
  }

  lemma EarlyBeforeLate(c: Cadence, anchor: int, a: int, b: int)
    requires WellFormed(c) && a <= b
    ensures
      var early, late := GenerateFrom(c, anchor, a - MARGIN), GenerateFrom(c, anchor, b + 1 - MARGIN);
      early <= late && SamePhase(c, early, late) && (late > b + 1 - MARGIN ==> early == late)
  {
    WalkBackOrder(c, anchor, a - MARGIN, b + 1 - MARGIN, MAX_PERIODS_BACK);
    GenerateFromSamePhase(c, anchor, a - MARGIN, b + 1 - MARGIN);
  }

  lemma LaterHas(c: Cadence, anchor: int, a: int, b: int, e: int, d: int)
    requires WellFormed(c) && a <= b < e
    ensures d in Nominals(c, anchor, b + 1, e)
       <==> d in Nominals(c, anchor, a, e) && d >= GenerateFrom(c, anchor, b + 1 - MARGIN)
  {
    var early, late := GenerateFrom(c, anchor, a - MARGIN), GenerateFrom(c, anchor, b + 1 - MARGIN);
    NominalsAre(c, anchor, b + 1, e, d);
    NominalsAre(c, anchor, a, e, d);
    EarlyBeforeLate(c, anchor, a, b);
    if d >= late {
      PhaseDecidesTheSeries(c, early, late, d);
    }
  }

  lemma EarlierIsFar(c: Cadence, anchor: int, a: int, b: int, e: int, d: int)
    requires WellFormed(c) && a <= b < e
    requires d in Nominals(c, anchor, a, e) && d < GenerateFrom(c, anchor, b + 1 - MARGIN)
    ensures d < b + 1 - MARGIN
  {
    NominalsAre(c, anchor, a, e, d);
    EarlyBeforeLate(c, anchor, a, b);
  }

  /** How many dates of the long window come before those of its second half. */
  function Skipped(c: Cadence, anchor: int, a: int, b: int, e: int): nat
    requires WellFormed(c)
  {
    var all, later := |Nominals(c, anchor, a, e)|, |Nominals(c, anchor, b + 1, e)|;
    if later <= all then all - later else 0
  }

  lemma {:induction false} LaterNominals(c: Cadence, anchor: int, a: int, b: int, e: int) returns (k: nat)
    requires WellFormed(c) && a <= b < e
    ensures
      var all := Nominals(c, anchor, a, e);
      && k <= |all| && Nominals(c, anchor, b + 1, e) == all[k..] && forall i :: 0 <= i < k ==> all[i] < b + 1 - MARGIN
    ensures k == Skipped(c, anchor, a, b, e)
  {
    var all, back := Nominals(c, anchor, a, e), Nominals(c, anchor, b + 1, e);
    var late := GenerateFrom(c, anchor, b + 1 - MARGIN);
    forall d ensures d in back <==> d in all && d >= late {
      LaterHas(c, anchor, a, b, e, d);
    }
    NominalsAre(c, anchor, a, e, 0);
    NominalsAre(c, anchor, b + 1, e, 0);
    k := BackIs(all, back, late);
    forall i | 0 <= i < k ensures all[i] < b + 1 - MARGIN {
      assert all[i] in all;
      EarlierIsFar(c, anchor, a, b, e, all[i]);
    }
  }

  /** The first date's period is the only one that looks at what came before. */
  lemma {:induction false} FirstLooksBack(nominals: seq<int>, one: int, two: int, lag: nat, pay: int -> int,
                                          first: int, last: int, n: nat)
    requires 0 < n <= |nominals|
    ensures
      var ones := Landing(nominals, one, lag, pay, first, last, n);
      var twos := Landing(nominals, two, lag, pay, first, last, n);
      if first <= pay(nominals[0]) <= last then
        && |ones| > 0 && ones[0] == PeriodOf(nominals, one, lag, pay, 0)
        && |twos| > 0 && twos[0] == PeriodOf(nominals, two, lag, pay, 0) && ones[1..] == twos[1..]
      else ones == twos
  {
    if n > 1 {
      FirstLooksBack(nominals, one, two, lag, pay, first, last, n - 1);
    }
  }

  lemma SameAsLookingBack(nominals: seq<int>, one: int, two: int, lag: nat, pay: int -> int, first: int, last: int)
    requires |nominals| > 0
    ensures Landing(nominals, one, lag, pay, first, last, |nominals|)
            == Landing(nominals, two, lag, pay, first, last, |nominals|)
            <==> (first <= pay(nominals[0]) <= last ==> one == two)
  {
    FirstLooksBack(nominals, one, two, lag, pay, first, last, |nominals|);
    var ones := Landing(nominals, one, lag, pay, first, last, |nominals|);
    var twos := Landing(nominals, two, lag, pay, first, last, |nominals|);
    if first <= pay(nominals[0]) <= last && one == two {
      assert ones == [ones[0]] + ones[1..] && twos == [twos[0]] + twos[1..];
    }
  }

  /** The second window, looking back from the first date it generates, finds the
      date the first window has before it; or that date's money is not its own. */
  ghost predicate PicksUp(c: Cadence, all: seq<int>, k: nat, pay: int -> int, first: int, last: int)
    requires WellFormed(c)
  {
    0 < k < |all| && first <= pay(all[k]) <= last ==> PayDateBefore(c, all[k]) == all[k - 1]
  }

  /** The paychecks of a window are those of its two halves, one after the other. */
  predicate Composes(c: Cadence, anchor: Option<int>, lag: nat, rule: Rule, closed: set<int>, a: int, b: int, e: int)
    requires WellFormed(c)
  {
    Periods(c, anchor, lag, rule, closed, a, e)
    == Periods(c, anchor, lag, rule, closed, a, b) + Periods(c, anchor, lag, rule, closed, b + 1, e)
  }

  /** The paychecks of a long window are those of its two halves, one after the
      other, exactly when the second half picks up where the first leaves off. */
  lemma WindowsComposeExactly(c: Cadence, anchor: int, lag: nat, rule: Rule, closed: set<int>, a: int, b: int, e: int)
    requires WellFormed(c) && a <= b < e && StaysNear(PaydayFor(rule, closed))
    ensures Composes(c, Some(anchor), lag, rule, closed, a, b, e)
       <==> PicksUp(c, Nominals(c, anchor, a, e), Skipped(c, anchor, a, b, e), PaydayFor(rule, closed), b + 1, e)
  {
    var m := ShorterNominals(c, anchor, a, b, e);
    var k := LaterNominals(c, anchor, a, b, e);
    NominalsAre(c, anchor, a, e, 0);
    PaydaysKeepOrder(rule, closed);
    HalvesCompose(c, Nominals(c, anchor, a, e), m, k, lag, PaydayFor(rule, closed), a, b, e);
  }

  lemma {:induction false} HalvesJoin(c: Cadence, all: seq<int>, m: nat, k: nat, lag: nat, pay: int -> int, a: int,
                                      b: int, e: int)
    requires WellFormed(c) && a <= b < e && Ascending(all) && KeepsOrder(pay) && StaysNear(pay) && |all| > 0
    requires m <= |all| && forall i :: m <= i < |all| ==> all[i] > b + MARGIN
    requires k <= |all| && forall i :: 0 <= i < k ==> all[i] < b + 1 - MARGIN
    ensures
      var before := PayDateBefore(c, all[0]);
      PeriodsFrom(c, all, lag, pay, a, e)
      == PeriodsFrom(c, all[..m], lag, pay, a, b)
         + if k == |all| then []
           else Landing(all[k..], Previous(all, before, k), lag, pay, b + 1, e, |all| - k)
  {
    var before := PayDateBefore(c, all[0]);
    WindowSplits(all, before, lag, pay, a, b, e, |all|);
    FrontHalf(all, before, lag, pay, a, b, m);
    BackHalf(all, before, lag, pay, b + 1, e, k);
    assert m > 0 ==> all[..m][0] == all[0];
  }

  lemma {:induction false} HalvesCompose(c: Cadence, all: seq<int>, m: nat, k: nat, lag: nat, pay: int -> int, a: int,
                                         b: int, e: int)
    requires WellFormed(c) && a <= b < e && Ascending(all) && KeepsOrder(pay) && StaysNear(pay)
    requires m <= |all| && forall i :: m <= i < |all| ==> all[i] > b + MARGIN
    requires k <= |all| && forall i :: 0 <= i < k ==> all[i] < b + 1 - MARGIN
    ensures PeriodsFrom(c, all, lag, pay, a, e)
         == PeriodsFrom(c, all[..m], lag, pay, a, b) + PeriodsFrom(c, all[k..], lag, pay, b + 1, e)
       <==> PicksUp(c, all, k, pay, b + 1, e)
  {
    if |all| > 0 {
      HalvesJoin(c, all, m, k, lag, pay, a, b, e);
      if k < |all| {
        TailPicksUp(c, all, k, lag, pay, b + 1, e);
        SameEnds(PeriodsFrom(c, all[..m], lag, pay, a, b),
                 Landing(all[k..], Previous(all, PayDateBefore(c, all[0]), k), lag, pay, b + 1, e, |all| - k),
                 PeriodsFrom(c, all[k..], lag, pay, b + 1, e));
      }
    }
  }

  lemma TailPicksUp(c: Cadence, all: seq<int>, k: nat, lag: nat, pay: int -> int, first: int, last: int)
    requires WellFormed(c) && k < |all|
    ensures Landing(all[k..], Previous(all, PayDateBefore(c, all[0]), k), lag, pay, first, last, |all| - k)
            == PeriodsFrom(c, all[k..], lag, pay, first, last)
       <==> PicksUp(c, all, k, pay, first, last)
  {
    var tail := all[k..];
    assert tail[0] == all[k];
    SameAsLookingBack(tail, Previous(all, PayDateBefore(c, all[0]), k),
                      PayDateBefore(c, tail[0]), lag, pay, first, last);
  }

  lemma SameEnds<T>(front: seq<T>, one: seq<T>, two: seq<T>)
    ensures front + one == front + two <==> one == two
  {
    assert (front + one)[|front|..] == one && (front + two)[|front|..] == two;
  }

  lemma {:induction false} FrontHalf(all: seq<int>, before: int, lag: nat, pay: int -> int, first: int, last: int,
                                     m: nat)
    requires StaysNear(pay) && m <= |all| && forall k :: m <= k < |all| ==> all[k] > last + MARGIN
    ensures Landing(all, before, lag, pay, first, last, |all|)
         == if m == 0 then [] else Landing(all[..m], before, lag, pay, first, last, m)
  {
    forall k | m <= k < |all| ensures pay(all[k]) > last {
    }
    FrontSuffices(all, before, lag, pay, first, last, m, |all|);
    FrontAlone(all, before, lag, pay, first, last, m, m);
  }

  lemma {:induction false} BackHalf(all: seq<int>, before: int, lag: nat, pay: int -> int, first: int, last: int,
                                    k: nat)
    requires Ascending(all) && KeepsOrder(pay) && StaysNear(pay) && k <= |all| && |all| > 0
    requires forall i :: 0 <= i < k ==> all[i] < first - MARGIN
    ensures Landing(all, before, lag, pay, first, last, |all|)
         == if k == |all| then []
            else Landing(all[k..], Previous(all, before, k), lag, pay, first, last, |all| - k)
  {
    forall i | 0 <= i < k ensures pay(all[i]) < first {
    }
    if k == |all| {
      NothingLandsBefore(all, before, lag, pay, first, last, |all|);
    } else {
      BackSuffices(all, before, lag, pay, first, last, k, |all|);
    }
  }
}
