/** loaf_app.py, the payday check: asking what the employer shows for a job's
    baskets on its last payday, and putting the difference in as one correction. */
module Payday {
  import opened Wrappers
  import opened Sorting
  import opened Calendar
  import opened Cadence
  import opened LoafWalk
  import opened Shelf
  import opened Bookings
  import opened Projection

  const LOOK_BACK := 400

  /** What the person typed for one basket. */
  datatype Typed = Blank | Hours(figure: int) | Unreadable

  datatype Due = Due(id: int, balance: int)

  function Later(a: int, b: int): int {
    if a >= b then a else b
  }

  /** _balance_after: what is left at the end of a day. */
  ghost function BalanceAfter(shelf: Shelf, basket: Basket, baskets: set<int>, entries: seq<Entry>, day: int,
                              today: int): int
    requires Sound(shelf)
  {
    Balance(shelf, basket, UsageByDate(shelf, basket.id, entries), AbsenceByDate(shelf, baskets, entries),
            Later(day, today), today, CreditByDate(basket.id, entries), false, day)
  }

  method MeasureBalance(shelf: Shelf, basket: Basket, baskets: set<int>, entries: seq<Entry>, day: int, today: int)
    returns (balance: int)
    requires Sound(shelf)
    ensures balance == BalanceAfter(shelf, basket, baskets, entries, day, today)
  {
    var absence := Gather(Leaving(shelf, baskets), entries);
    var usage := Gather(Spending(shelf, basket.id), entries);
    var credits := Gather(Giving(basket.id), entries);
    var result := Project(shelf, basket, usage, absence, Later(day, today), today, credits, false);
    ProjectionIsDaily(shelf, basket, usage, absence, Later(day, today), today, credits, false, day);
    balance := ReadBalance(result.checkpoints, day);
  }

  // --------------------------------------------------------- the correction

  /** The one entry that puts a difference right, on the payday. */
  function Correction(id: int, basket: int, payday: int, difference: int): Entry {
    Entry(id, basket, Some(Midnight(payday)), Some(Midnight(payday) + 1439), true,
          if difference > 0 then difference else -difference, true, false, if difference > 0 then Accrue else Prior)
  }

  lemma GatherOneMore(part: Entry -> Hours, entries: seq<Entry>, c: Entry)
    ensures Gathered(part, entries + [c])
         == if part(c) == map[] then Gathered(part, entries) else Plus(Gathered(part, entries), part(c))
  {
    assert (entries + [c])[..|entries|] == entries;
    assert Plus(Gathered(part, entries), map[]) == Gathered(part, entries);
  }

  /** A correction is not absence, and another basket never sees it. */
  lemma CorrectionGathers(shelf: Shelf, baskets: set<int>, basket: int, entries: seq<Entry>, c: Entry)
    requires c.direction != Use && c.starts.Some? && !c.cancelled
    ensures AbsenceByDate(shelf, baskets, entries + [c]) == AbsenceByDate(shelf, baskets, entries)
    ensures UsageByDate(shelf, basket, entries + [c])
         == if c.basket == basket && c.direction == Prior
            then Plus(UsageByDate(shelf, basket, entries), map[FirstDay(c) := c.hours])
            else UsageByDate(shelf, basket, entries)
    ensures CreditByDate(basket, entries + [c])
         == if c.basket == basket && c.direction == Accrue
            then Plus(CreditByDate(basket, entries), map[FirstDay(c) := c.hours])
            else CreditByDate(basket, entries)
  {
    GatherOneMore(Leaving(shelf, baskets), entries, c);
    GatherOneMore(Spending(shelf, basket), entries, c);
    GatherOneMore(Giving(basket), entries, c);
  }

  /** Hours put down on one day move that day's balance by exactly themselves if
      the walk has begun by then, and no earlier balance at all. */
  lemma {:induction false} HoursOnOneDay(t: Terms, usage: Hours, credits: Hours, usage': Hours, credits': Hours,
                                         day: int, when: int)
    requires when <= day <= t.through
    requires forall d :: d != day ==> On(usage, d) == On(usage', d) && On(credits, d) == On(credits', d)
    ensures Daily(t, usage', credits', when)
         == Daily(t, usage, credits, when)
            + if when == day && t.start <= day
              then On(credits', day) - On(credits, day) - (On(usage', day) - On(usage, day)) else 0
  {
    if when < day {
      SameBefore(t, usage, credits, usage', credits', day, when);
    } else if t.start <= day {
      MovesByExactly(t, usage, credits, usage', credits', day);
    }
  }

  // ------------------------------------------------------- what is waiting

  /** Whether a basket is asked about for a payday. */
  predicate IsDue(basket: Basket, payday: int) {
    && basket.accrual.Some?
    && !(basket.checkedOn.Some? && basket.checkedOn.value >= payday)
    && !(basket.startingDate.Some? && basket.startingDate.value >= payday)
  }

  /** What is asked, when each basket's balance is what `left` says. */
  function DueOf(pools: seq<Basket>, payday: int, left: Basket -> int): seq<Due> {
    if pools == [] then []
    else
      var n := |pools| - 1;
      DueOf(pools[..n], payday, left) + if IsDue(pools[n], payday) then [Due(pools[n].id, left(pools[n]))] else []
  }

  ghost function LeftOn(shelf: Shelf, visible: set<int>, entries: seq<Entry>, payday: int, today: int): Basket -> int
    requires Sound(shelf)
  {
    basket => BalanceAfter(shelf, basket, visible, entries, payday, today)
  }

  ghost function DueList(shelf: Shelf, pools: seq<Basket>, visible: set<int>, entries: seq<Entry>, payday: int,
                         today: int)
    : seq<Due>
    requires Sound(shelf)
  {
    DueOf(pools, payday, LeftOn(shelf, visible, entries, payday, today))
  }

  lemma {:induction false} DueComesFromAPool(pools: seq<Basket>, payday: int, left: Basket -> int, k: nat)
    returns (i: nat)
    requires k < |DueOf(pools, payday, left)|
    ensures i < |pools| && IsDue(pools[i], payday)
    ensures DueOf(pools, payday, left)[k] == Due(pools[i].id, left(pools[i]))
  {
    var n := |pools| - 1;
    if k < |DueOf(pools[..n], payday, left)| {
      i := DueComesFromAPool(pools[..n], payday, left, k);
    } else {
      i := n;
    }
  }

  lemma {:induction false} DueIsListed(pools: seq<Basket>, payday: int, left: Basket -> int, i: nat) returns (k: nat)
    requires i < |pools| && IsDue(pools[i], payday)
    ensures k < |DueOf(pools, payday, left)| && DueOf(pools, payday, left)[k].id == pools[i].id
  {
    var n := |pools| - 1;
    if i < n {
      k := DueIsListed(pools[..n], payday, left, i);
    } else {
      k := |DueOf(pools[..n], payday, left)|;
    }
  }

  /** Asked about: a basket that earns, not checked on that payday or since, and begun before it. */
  ghost predicate AsksAbout(pools: seq<Basket>, i: int, payday: int) {
    && 0 <= i < |pools| && pools[i].accrual.Some?
    && (pools[i].checkedOn.None? || pools[i].checkedOn.value < payday)
    && (pools[i].startingDate.None? || pools[i].startingDate.value < payday)
  }

  lemma {:induction false} DueIs(pools: seq<Basket>, payday: int, left: Basket -> int, x: Due)
    ensures x in DueOf(pools, payday, left)
       <==> exists i :: AsksAbout(pools, i, payday) && x == Due(pools[i].id, left(pools[i]))
  {
    if pools != [] {
      var n := |pools| - 1;
      DueIs(pools[..n], payday, left, x);
      forall i | 0 <= i < n ensures AsksAbout(pools, i, payday) <==> AsksAbout(pools[..n], i, payday) {
      }
      assert pools[n] == pools[|pools| - 1];
      assert AsksAbout(pools, n, payday) <==> IsDue(pools[n], payday);
    }
  }

  ghost predicate NoPayday(c: Cadence, start: int, after: int, through: int)
    requires WellFormed(c)
  {
    forall d :: after < d && Occurs(c, start, d) ==> through < d
  }

  /** The last of a series after one day and up to another, if there is any. */
  ghost predicate LastOf(c: Cadence, start: int, after: int, today: int, payday: Option<int>)
    requires WellFormed(c)
  {
    match payday
    case None => NoPayday(c, start, after, today)
    case Some(last) => after < last <= today && Occurs(c, start, last) && NoPayday(c, start, last, today)
  }

  /** The last payday of a job, no more than four hundred days gone. */
  ghost predicate LastPayday(shelf: Shelf, today: int, payday: Option<int>)
    requires Sound(shelf)
  {
    if shelf.anchor.None? then payday == None
    else
      LastOf(shelf.cadence, GenerateFrom(shelf.cadence, shelf.anchor.value, today - 400), today - 400, today, payday)
  }

  lemma LastOfThem(c: Cadence, anchor: int, after: int, today: int, paydays: seq<int>)
    requires WellFormed(c) && paydays == PayDates(c, Some(anchor), after, today)
    ensures LastOf(c, GenerateFrom(c, anchor, after), after, today,
                   if |paydays| == 0 then None else Some(paydays[|paydays| - 1]))
  {
    var start := GenerateFrom(c, anchor, after);
    forall d | after < d && Occurs(c, start, d) ensures d <= today ==> d in paydays {
      PayDatesAre(c, Some(anchor), after, today, d);
    }
    PayDatesAre(c, Some(anchor), after, today, 0);
    if |paydays| > 0 {
      assert paydays[|paydays| - 1] in paydays;
      PayDatesAre(c, Some(anchor), after, today, paydays[|paydays| - 1]);
      NoneAfterTheLast(paydays);
    }
  }

  lemma LastPaydayIs(shelf: Shelf, today: int, paydays: seq<int>)
    requires Sound(shelf) && paydays == PayDates(shelf.cadence, shelf.anchor, today - LOOK_BACK, today)
    ensures LastPayday(shelf, today, if |paydays| == 0 then None else Some(paydays[|paydays| - 1]))
  {
    if shelf.anchor.Some? {
      LastOfThem(shelf.cadence, shelf.anchor.value, today - LOOK_BACK, today, paydays);
    }
  }

  lemma {:induction false} NoneAfterTheLast(days: seq<int>)
    requires Ordered(days, LessEq) && |days| > 0
    ensures forall d :: d in days ==> d <= days[|days| - 1]
  {
    forall d | d in days ensures d <= days[|days| - 1] {
      var k :| 0 <= k < |days| && days[k] == d;
      assert k == |days| - 1 || LessEq(days[k], days[|days| - 1]);
    }
  }

  ghost predicate DistinctPools(pools: seq<Basket>) {
    forall i, j :: 0 <= i < j < |pools| ==> pools[i].id != pools[j].id
  }

  ghost predicate DistinctDue(due: seq<Due>) {
    forall i, j :: 0 <= i < j < |due| ==> due[i].id != due[j].id
  }

  lemma {:induction false} DistinctOf(pools: seq<Basket>, payday: int, left: Basket -> int)
    requires DistinctPools(pools)
    ensures DistinctDue(DueOf(pools, payday, left))
  {
    if pools != [] {
      var n := |pools| - 1;
      DistinctOf(pools[..n], payday, left);
      var before := DueOf(pools[..n], payday, left);
      forall k | 0 <= k < |before| ensures before[k].id != pools[n].id {
        var i := DueComesFromAPool(pools[..n], payday, left, k);
      }
    }
  }

  lemma DueIsDistinct(shelf: Shelf, pools: seq<Basket>, visible: set<int>, entries: seq<Entry>, payday: int, today: int)
    requires Sound(shelf) && DistinctPools(pools)
    ensures DistinctDue(DueList(shelf, pools, visible, entries, payday, today))
  {
    DistinctOf(pools, payday, LeftOn(shelf, visible, entries, payday, today));
  }

  // ------------------------------------------------------------ the answer

  function TypedFor(stated: map<int, Typed>, id: int): Typed {
    if id in stated then stated[id] else Blank
  }

  /** How far one item's answer is from what Loaf had. */
  function Difference(item: Due, stated: map<int, Typed>): int {
    match TypedFor(stated, item.id)
    case Hours(figure) => figure - item.balance
    case _ => 0
  }

  /** The corrections that the first n answers come to. */
  function Corrections(due: seq<Due>, n: nat, stated: map<int, Typed>, payday: int, newId: int): seq<Entry>
    requires n <= |due|
  {
    if n == 0 then []
    else
      var before, difference := Corrections(due, n - 1, stated, payday, newId), Difference(due[n - 1], stated);
      if difference == 0 then before
      else before + [Correction(newId + |before|, due[n - 1].id, payday, difference)]
  }

  /** How many answers come before the first that cannot be read. */
  function Readable(due: seq<Due>, n: nat, stated: map<int, Typed>): (r: nat)
    requires n <= |due|
    ensures n <= r <= |due|
    decreases |due| - n
  {
    if n == |due| || TypedFor(stated, due[n].id).Unreadable? then n else Readable(due, n + 1, stated)
  }

  /** A figure other than what Loaf had is put in as one entry on the payday: so many hours
      more handed over, or so many less counted as taken before. */
  lemma {:induction false} CorrectionTells(due: seq<Due>, n: nat, stated: map<int, Typed>, payday: int, newId: int,
                                           k: nat)
    returns (j: nat)
    requires k < n <= |due| && due[k].id in stated && stated[due[k].id].Hours?
    requires stated[due[k].id].figure != due[k].balance
    ensures
      var (made, figure, had) := (Corrections(due, n, stated, payday, newId), stated[due[k].id].figure, due[k].balance);
      && j < |made|
      && made[j] == Entry(newId + j, due[k].id, Some(1440 * payday), Some(1440 * payday + 1439), true,
                          if figure > had then figure - had else had - figure, true, false,
                          if figure > had then Accrue else Prior)
  {
    if k == n - 1 {
      j := |Corrections(due, n - 1, stated, payday, newId)|;
    } else {
      j := CorrectionTells(due, n - 1, stated, payday, newId, k);
    }
  }

  /** Nothing else is put in: each is for an answer read as hours, another figure than was had. */
  lemma {:induction false} CorrectionIsFor(due: seq<Due>, n: nat, stated: map<int, Typed>, payday: int, newId: int,
                                           j: nat)
    returns (k: nat)
    requires n <= |due| && j < |Corrections(due, n, stated, payday, newId)|
    ensures k < n && due[k].id in stated && stated[due[k].id].Hours? && stated[due[k].id].figure != due[k].balance
    ensures Corrections(due, n, stated, payday, newId)[j].basket == due[k].id
  {
    if j < |Corrections(due, n - 1, stated, payday, newId)| {
      k := CorrectionIsFor(due, n - 1, stated, payday, newId, j);
    } else {
      k := n - 1;
    }
  }

  /** Answers are taken up to the first that cannot be read. */
  lemma {:induction false} ReadableTells(due: seq<Due>, n: nat, stated: map<int, Typed>, k: nat)
    requires n <= k < |due|
    ensures
      var read := Readable(due, n, stated);
      && (k < read ==> due[k].id !in stated || !stated[due[k].id].Unreadable?)
      && (read < |due| ==> due[read].id in stated && stated[due[read].id].Unreadable?)
    decreases |due| - n
  {
    if n < Readable(due, n, stated) && n < k {
      ReadableTells(due, n + 1, stated, k);
    } else if n < Readable(due, n, stated) && n + 1 < |due| {
      ReadableTells(due, n + 1, stated, n + 1);
    }
  }

  function Stamp(pools: seq<Basket>, id: int, payday: int): (r: seq<Basket>)
    ensures |r| == |pools|
  {
    seq(|pools|, i requires 0 <= i < |pools| =>
      if pools[i].id == id then pools[i].(checkedOn := Some(payday)) else pools[i])
  }

  function Stamped(pools: seq<Basket>, due: seq<Due>, n: nat, payday: int): (r: seq<Basket>)
    requires n <= |due|
    ensures |r| == |pools|
  {
    if n == 0 then pools else Stamp(Stamped(pools, due, n - 1, payday), due[n - 1].id, payday)
  }

  /** What the first n answers come to for one basket. */
  function Moved(due: seq<Due>, n: nat, stated: map<int, Typed>, id: int): int
    requires n <= |due|
  {
    if n == 0 then 0
    else Moved(due, n - 1, stated, id) + if due[n - 1].id == id then Difference(due[n - 1], stated) else 0
  }

  lemma {:induction false} MovedOnce(due: seq<Due>, n: nat, stated: map<int, Typed>, k: nat)
    requires DistinctDue(due) && k < |due| && n <= |due|
    ensures Moved(due, n, stated, due[k].id) == if k < n then Difference(due[k], stated) else 0
  {
    if n > 0 {
      MovedOnce(due, n - 1, stated, k);
      assert k < n - 1 ==> due[k].id != due[n - 1].id;
      assert n - 1 < k ==> due[n - 1].id != due[k].id;
    }
  }

  /** Hours given less hours spent, on one day of one basket. */
  function Net(shelf: Shelf, basket: int, entries: seq<Entry>, d: int): int {
    On(CreditByDate(basket, entries), d) - On(UsageByDate(shelf, basket, entries), d)
  }

  /** Entries that differ from others only by what they put on the payday of a basket. */
  ghost predicate MovesOnly(shelf: Shelf, visible: set<int>, basket: int, entries: seq<Entry>, after: seq<Entry>,
                            payday: int, moved: int, d: int)
  {
    && AbsenceByDate(shelf, visible, after) == AbsenceByDate(shelf, visible, entries)
    && Net(shelf, basket, after, d) == Net(shelf, basket, entries, d) + (if d == payday then moved else 0)
    && (d != payday ==> On(UsageByDate(shelf, basket, after), d) == On(UsageByDate(shelf, basket, entries), d))
  }

  lemma CorrectionNets(shelf: Shelf, basket: int, before: seq<Entry>, c: Entry, payday: int, difference: int, d: int)
    requires difference != 0 && c == Correction(c.id, c.basket, payday, difference)
    ensures Net(shelf, basket, before + [c], d)
         == Net(shelf, basket, before, d) + if c.basket == basket && d == payday then difference else 0
    ensures d != payday ==>
      On(UsageByDate(shelf, basket, before + [c]), d) == On(UsageByDate(shelf, basket, before), d)
  {
    DayOfMinute(payday, 0);
    CorrectionGathers(shelf, {}, basket, before, c);
    HoursPutDown(UsageByDate(shelf, basket, before), payday, c.hours, d);
    HoursPutDown(CreditByDate(basket, before), payday, c.hours, d);
  }

  lemma OneMovesOnly(shelf: Shelf, visible: set<int>, basket: int, entries: seq<Entry>, before: seq<Entry>,
                     after: seq<Entry>, id: int, corrected: int, payday: int, moved: int, difference: int, d: int)
    requires difference != 0 && MovesOnly(shelf, visible, basket, entries, before, payday, moved, d)
    requires after == before + [Correction(id, corrected, payday, difference)]
    ensures MovesOnly(shelf, visible, basket, entries, after, payday,
                      moved + (if corrected == basket then difference else 0), d)
  {
    var c := Correction(id, corrected, payday, difference);
    CorrectionGathers(shelf, visible, basket, before, c);
    CorrectionNets(shelf, basket, before, c, payday, difference, d);
  }

  lemma HoursPutDown(hours: Hours, day: int, more: int, d: int)
    ensures On(Plus(hours, map[day := more]), d) == On(hours, d) + if d == day then more else 0
  {
  }

  /** All the corrections of an answer move the payday and no other day, each
      basket by its own difference, and nobody's absence. */
  lemma {:induction false} CorrectionsGather(shelf: Shelf, visible: set<int>, basket: int, entries: seq<Entry>,
                                             due: seq<Due>, n: nat, stated: map<int, Typed>, payday: int, newId: int,
                                             d: int,
                                             after: seq<Entry>)
    requires n <= |due| && after == entries + Corrections(due, n, stated, payday, newId)
    ensures MovesOnly(shelf, visible, basket, entries, after, payday, Moved(due, n, stated, basket), d)
  {
    if n == 0 {
      assert after == entries;
    } else {
      var before := entries + Corrections(due, n - 1, stated, payday, newId);
      CorrectionsGather(shelf, visible, basket, entries, due, n - 1, stated, payday, newId, d, before);
      CorrectionsGoOn(entries, due, n, stated, payday, newId, before, after);
      if Difference(due[n - 1], stated) == 0 {
        assert after == before;
      } else {
        OneMovesOnly(shelf, visible, basket, entries, before, after, newId + |before| - |entries|,
                     due[n - 1].id, payday,
                     Moved(due, n - 1, stated, basket), Difference(due[n - 1], stated), d);
      }
    }
  }

  lemma CorrectionsGoOn(entries: seq<Entry>, due: seq<Due>, n: nat, stated: map<int, Typed>, payday: int, newId: int,
                        before: seq<Entry>, after: seq<Entry>)
    requires 0 < n <= |due| && before == entries + Corrections(due, n - 1, stated, payday, newId)
    requires after == entries + Corrections(due, n, stated, payday, newId)
    ensures
      var last := due[n - 1];
      after == if Difference(last, stated) == 0 then before
               else before + [Correction(newId + |before| - |entries|, last.id, payday, Difference(last, stated))]
  {
  }

  /** The same, for every day at once. */
  ghost predicate MovesPayday(shelf: Shelf, visible: set<int>, basket: int, entries: seq<Entry>, after: seq<Entry>,
                              payday: int, moved: int)
  {
    && AbsenceByDate(shelf, visible, after) == AbsenceByDate(shelf, visible, entries)
    && OneDayApart(UsageByDate(shelf, basket, entries), CreditByDate(basket, entries),
                   UsageByDate(shelf, basket, after), CreditByDate(basket, after), payday, moved)
  }

  ghost predicate OneDayApart(usage: Hours, credits: Hours, usage': Hours, credits': Hours, day: int, moved: int) {
    && (forall d :: d != day ==> On(usage, d) == On(usage', d) && On(credits, d) == On(credits', d))
    && On(credits', day) - On(usage', day) == On(credits, day) - On(usage, day) + moved
  }

  lemma AnswerMovesPayday(shelf: Shelf, visible: set<int>, basket: int, entries: seq<Entry>, due: seq<Due>, n: nat,
                          stated: map<int, Typed>, payday: int, newId: int, after: seq<Entry>)
    requires n <= |due| && after == entries + Corrections(due, n, stated, payday, newId)
    ensures MovesPayday(shelf, visible, basket, entries, after, payday, Moved(due, n, stated, basket))
  {
    forall d
      ensures d != payday ==> On(UsageByDate(shelf, basket, entries), d) == On(UsageByDate(shelf, basket, after), d)
      ensures d != payday ==> On(CreditByDate(basket, entries), d) == On(CreditByDate(basket, after), d)
    {
      CorrectionsGather(shelf, visible, basket, entries, due, n, stated, payday, newId, d, after);
    }
    CorrectionsGather(shelf, visible, basket, entries, due, n, stated, payday, newId, payday, after);
  }

  lemma DailyOneDayApart(t: Terms, usage: Hours, credits: Hours, usage': Hours, credits': Hours, day: int, moved: int,
                         when: int)
    requires OneDayApart(usage, credits, usage', credits', day, moved) && when <= day
    requires t.start <= day ==> day <= t.through
    ensures Daily(t, usage', credits', when)
         == Daily(t, usage, credits, when) + if when == day && t.start <= day then moved else 0
  {
    if t.start <= day {
      HoursOnOneDay(t, usage, credits, usage', credits', day, when);
    }
  }

  lemma PaydayMoves(shelf: Shelf, basket: Basket, visible: set<int>, entries: seq<Entry>, after: seq<Entry>,
                    payday: int,
                    moved: int, when: int, today: int)
    requires Sound(shelf) && when <= payday <= today
    requires MovesPayday(shelf, visible, basket.id, entries, after, payday, moved)
    ensures BalanceAfter(shelf, basket, visible, after, when, today)
         == BalanceAfter(shelf, basket, visible, entries, when, today)
            + if when == payday && StartOf(shelf, basket, today) <= payday then moved else 0
  {
    var t := TermsOf(shelf, basket, AbsenceByDate(shelf, visible, entries), Later(when, today), today, false);
    DailyOneDayApart(t, UsageByDate(shelf, basket.id, entries), CreditByDate(basket.id, entries),
                     UsageByDate(shelf, basket.id, after), CreditByDate(basket.id, after), payday, moved, when);
  }

  /** Nobody's absence is touched, so no pay date of any basket earns differently. */
  lemma AnswerEarnsNothing(shelf: Shelf, basket: Basket, visible: set<int>, entries: seq<Entry>, due: seq<Due>, n: nat,
                           stated: map<int, Typed>, payday: int, newId: int, start: int, days: seq<int>,
                           after: seq<Entry>)
    requires Sound(shelf) && n <= |due| && (days != [] ==> basket.accrual.Some?)
    requires after == entries + Corrections(due, n, stated, payday, newId)
    ensures Earned(shelf, basket, AbsenceByDate(shelf, visible, after), start, days)
         == Earned(shelf, basket, AbsenceByDate(shelf, visible, entries), start, days)
  {
    CorrectionsGather(shelf, visible, basket.id, entries, due, n, stated, payday, newId, payday, after);
  }

  /** After the answer, projecting again gives exactly the employer's figure at
      the end of the payday, unless the walk only begins later than that and the
      figures differed; every earlier day of every basket is as it was, and a
      basket left blank, or not reached, is as it was on the payday too. */
  lemma AnswerReads(shelf: Shelf, basket: Basket, visible: set<int>, entries: seq<Entry>, due: seq<Due>, n: nat,
                    stated: map<int, Typed>, payday: int, newId: int, when: int, today: int, k: nat)
    requires Sound(shelf) && payday <= today && DistinctDue(due) && k < |due| && n <= |due|
    requires due[k] == Due(basket.id, BalanceAfter(shelf, basket, visible, entries, payday, today))
    ensures
      var after := entries + Corrections(due, n, stated, payday, newId);
      && (if k < n && TypedFor(stated, basket.id).Hours?
          then
            BalanceAfter(shelf, basket, visible, after, payday, today) == TypedFor(stated, basket.id).figure
            <==> (due[k].balance == TypedFor(stated, basket.id).figure || StartOf(shelf, basket, today) <= payday)
          else BalanceAfter(shelf, basket, visible, after, payday, today) == due[k].balance)
      && (when < payday ==>
            BalanceAfter(shelf, basket, visible, after, when, today)
            == BalanceAfter(shelf, basket, visible, entries, when, today))
  {
    var after, moved := entries + Corrections(due, n, stated, payday, newId), Moved(due, n, stated, basket.id);
    MovedOnce(due, n, stated, k);
    AnswerMovesPayday(shelf, visible, basket.id, entries, due, n, stated, payday, newId, after);
    PaydayMoves(shelf, basket, visible, entries, after, payday, moved, payday, today);
    if when < payday {
      PaydayMoves(shelf, basket, visible, entries, after, payday, moved, when, today);
    }
  }

  /** Being marked as checked changes nothing that is projected. */
  lemma StampChangesNothing(shelf: Shelf, basket: Basket, absence: Hours, through: int, today: int, payday: int)
    requires Sound(shelf)
    ensures TermsOf(shelf, basket.(checkedOn := Some(payday)), absence, through, today, false)
         == TermsOf(shelf, basket, absence, through, today, false)
  {
    var start, end := StartOf(shelf, basket, today), Horizon(shelf, basket, through, today);
    EarnedByRule(shelf, basket.(checkedOn := Some(payday)), basket, absence, start, PayDays(shelf, basket, start, end));
  }

  /** The answered baskets are marked, and nothing else about any basket changes. */
  lemma {:induction false} StampedAre(pools: seq<Basket>, due: seq<Due>, n: nat, payday: int, i: nat)
    requires n <= |due| && i < |pools|
    ensures Stamped(pools, due, n, payday)[i]
         == if exists k :: 0 <= k < n && due[k].id == pools[i].id
            then pools[i].(checkedOn := Some(payday)) else pools[i]
  {
    if n > 0 {
      StampedAre(pools, due, n - 1, payday, i);
    }
  }

  /** A payday is asked about once: answered in full, nothing is due for it again. */
  lemma NothingLeftDue(shelf: Shelf, pools: seq<Basket>, visible: set<int>, entries: seq<Entry>, payday: int,
                       today: int,
                       i: nat)
    requires Sound(shelf) && i < |pools|
    ensures
      var due := DueList(shelf, pools, visible, entries, payday, today);
      !IsDue(Stamped(pools, due, |due|, payday)[i], payday)
  {
    var due := DueList(shelf, pools, visible, entries, payday, today);
    StampedAre(pools, due, |due|, payday, i);
    if IsDue(pools[i], payday) {
      var k := DueIsListed(pools, payday, LeftOn(shelf, visible, entries, payday, today), i);
    }
  }

  // ---------------------------------------------------------------- the job

  class Job {
    const shelf: Shelf
    var pools: seq<Basket>
    var entries: seq<Entry>

    constructor (shelf: Shelf, pools: seq<Basket>, entries: seq<Entry>)
      ensures this.shelf == shelf && this.pools == pools && this.entries == entries
    {
      this.shelf, this.pools, this.entries := shelf, pools, entries;
    }

    function Visible(): set<int>
      reads this
    {
      set i | 0 <= i < |pools| :: pools[i].id
    }

    /** _payday_checks, for one job: its last payday, and the baskets to ask about. */
    method PaydayChecks(today: int) returns (payday: Option<int>, due: seq<Due>)
      requires Sound(shelf)
      ensures
        var paydays := PayDates(shelf.cadence, shelf.anchor, today - LOOK_BACK, today);
        payday == if |paydays| == 0 then None else Some(paydays[|paydays| - 1])
      ensures LastPayday(shelf, today, payday)
      ensures payday.None? ==> due == []
      ensures payday.Some? ==> due == DueList(shelf, pools, Visible(), entries, payday.value, today)
    {
      var paydays := PayDates(shelf.cadence, shelf.anchor, today - LOOK_BACK, today);
      LastPaydayIs(shelf, today, paydays);
      if |paydays| == 0 {
        return None, [];
      }
      payday := Some(paydays[|paydays| - 1]);
      due := ListDue(payday.value, today);
    }

    method ListDue(payday: int, today: int) returns (due: seq<Due>)
      requires Sound(shelf)
      ensures due == DueList(shelf, pools, Visible(), entries, payday, today)
    {
      due := [];
      for k := 0 to |pools|
        invariant due == DueList(shelf, pools[..k], Visible(), entries, payday, today)
      {
        assert pools[..k + 1][..k] == pools[..k];
        if IsDue(pools[k], payday) {
          var balance := MeasureBalance(shelf, pools[k], Visible(), entries, payday, today);
          due := due + [Due(pools[k].id, balance)];
        }
      }
      assert pools[..|pools|] == pools;
    }

    /** update_basket with balance_checked_on. */
    method MarkChecked(id: int, payday: int)
      modifies this`pools
      ensures pools == Stamp(old(pools), id, payday)
    {
      pools := Stamp(pools, id, payday);
    }

    /** api_payday_check_answer: how many corrections were made, and whether every
        answer could be read. */
    method Answer(asked: int, stated: map<int, Typed>, today: int, newId: int) returns (corrections: nat, ok: bool)
      requires Sound(shelf)
      modifies this
      ensures
        var paydays := PayDates(shelf.cadence, shelf.anchor, today - LOOK_BACK, today);
        if |paydays| == 0 || paydays[|paydays| - 1] != asked then
          corrections == 0 && ok && pools == old(pools) && entries == old(entries)
        else
          var due := DueList(shelf, old(pools), old(Visible()), old(entries), asked, today);
          var n := Readable(due, 0, stated);
          && ok == (n == |due|)
          && corrections == |Corrections(due, n, stated, asked, newId)|
          && entries == old(entries) + Corrections(due, n, stated, asked, newId)
          && pools == Stamped(old(pools), due, n, asked)
    {
      var payday, due := PaydayChecks(today);
      if payday == None || payday.value != asked {
        return 0, true;
      }
      corrections, ok := AnswerEach(due, asked, stated, newId);
    }

    method AnswerEach(due: seq<Due>, payday: int, stated: map<int, Typed>, newId: int)
      returns (corrections: nat, ok: bool)
      modifies this
      ensures Readable(due, 0, stated) <= |due|
      ensures
        var n := Readable(due, 0, stated);
        && ok == (n == |due|)
        && corrections == |Corrections(due, n, stated, payday, newId)|
        && entries == old(entries) + Corrections(due, n, stated, payday, newId)
        && pools == Stamped(old(pools), due, n, payday)
    {
      corrections, ok := 0, true;
      for n := 0 to |due|
        invariant Readable(due, 0, stated) == Readable(due, n, stated)
        invariant corrections == |Corrections(due, n, stated, payday, newId)|
        invariant entries == old(entries) + Corrections(due, n, stated, payday, newId)
        invariant pools == Stamped(old(pools), due, n, payday)
      {
        match TypedFor(stated, due[n].id) {
          case Blank =>
          case Unreadable => return corrections, false;
          case Hours(figure) =>
            var difference := figure - due[n].balance;
            if difference != 0 {
              entries := entries + [Correction(newId + corrections, due[n].id, payday, difference)];
              corrections := corrections + 1;
            }
        }
        MarkChecked(due[n].id, payday);
      }
    }
  }

  // --------------------------------------------------------- job after job

  /** What is asked about one job of the list. */
  datatype Asked = Asked(job: nat, payday: int, due: seq<Due>)

  /** A job as it is read: its week, its baskets and what is booked. */
  datatype JobRow = JobRow(shelf: Shelf, pools: seq<Basket>, entries: seq<Entry>)

  ghost function AskedOf(job: JobRow, place: nat, today: int): seq<Asked>
    requires Sound(job.shelf)
  {
    var paydays := PayDates(job.shelf.cadence, job.shelf.anchor, today - LOOK_BACK, today);
    if |paydays| == 0 then []
    else
      var payday := paydays[|paydays| - 1];
      var visible := set i | 0 <= i < |job.pools| :: job.pools[i].id;
      var due := DueList(job.shelf, job.pools, visible, job.entries, payday, today);
      if due == [] then [] else [Asked(place, payday, due)]
  }

  ghost function Asking(jobs: seq<JobRow>, today: int): int -> seq<Asked>
    requires forall j :: 0 <= j < |jobs| ==> Sound(jobs[j].shelf)
  {
    j => if 0 <= j < |jobs| then AskedOf(jobs[j], j, today) else []
  }

  /** One job after the other. */
  function InTurn(asked: int -> seq<Asked>, n: nat): seq<Asked> {
    if n == 0 then [] else InTurn(asked, n - 1) + asked(n - 1)
  }

  /** _payday_checks: the jobs with something to ask, in their order. */
  method ListChecks(jobs: seq<JobRow>, today: int) returns (out: seq<Asked>)
    requires forall j :: 0 <= j < |jobs| ==> Sound(jobs[j].shelf)
    ensures out == InTurn(Asking(jobs, today), |jobs|)
  {
    out := [];
    for n := 0 to |jobs|
      invariant out == InTurn(Asking(jobs, today), n)
    {
      var asked := Ask(jobs[n], n, today);
      out := out + asked;
    }
  }

  method Ask(row: JobRow, place: nat, today: int) returns (asked: seq<Asked>)
    requires Sound(row.shelf)
    ensures asked == AskedOf(row, place, today)
  {
    var job := new Job(row.shelf, row.pools, row.entries);
    var payday, due := job.PaydayChecks(today);
    asked := if due == [] then [] else [Asked(place, payday.value, due)];
  }

  /** Nothing of another basket is gathered for these. */
  lemma GatheredElsewhere(shelf: Shelf, visible: set<int>, basket: int, entries: seq<Entry>, e: Entry)
    requires e.basket !in visible && basket in visible
    ensures AbsenceByDate(shelf, visible, entries + [e]) == AbsenceByDate(shelf, visible, entries)
    ensures UsageByDate(shelf, basket, entries + [e]) == UsageByDate(shelf, basket, entries)
    ensures CreditByDate(basket, entries + [e]) == CreditByDate(basket, entries)
  {
    GatherOneMore(Leaving(shelf, visible), entries, e);
    GatherOneMore(Spending(shelf, basket), entries, e);
    GatherOneMore(Giving(basket), entries, e);
  }

  lemma {:induction false} SameLeftSameDue(pools: seq<Basket>, payday: int, one: Basket -> int, two: Basket -> int)
    requires forall k :: 0 <= k < |pools| ==> one(pools[k]) == two(pools[k])
    ensures DueOf(pools, payday, one) == DueOf(pools, payday, two)
  {
    if pools != [] {
      SameLeftSameDue(pools[..|pools| - 1], payday, one, two);
    }
  }

  lemma {:induction false} OneElsewhere(shelf: Shelf, pools: seq<Basket>, visible: set<int>, entries: seq<Entry>,
                                        e: Entry, payday: int, today: int)
    requires Sound(shelf) && e.basket !in visible && forall k :: 0 <= k < |pools| ==> pools[k].id in visible
    ensures DueList(shelf, pools, visible, entries + [e], payday, today)
         == DueList(shelf, pools, visible, entries, payday, today)
  {
    var after := LeftOn(shelf, visible, entries + [e], payday, today);
    var before := LeftOn(shelf, visible, entries, payday, today);
    forall k | 0 <= k < |pools| ensures after(pools[k]) == before(pools[k]) {
      GatheredElsewhere(shelf, visible, pools[k].id, entries, e);
    }
    SameLeftSameDue(pools, payday, after, before);
  }

  /** Whatever is booked on other jobs, one job's answers included, a job is asked the same. */
  lemma {:induction false} OtherJobsAreAskedTheSame(shelf: Shelf, pools: seq<Basket>, visible: set<int>,
                                                    entries: seq<Entry>, more: seq<Entry>, payday: int, today: int)
    requires Sound(shelf) && forall k :: 0 <= k < |pools| ==> pools[k].id in visible
    requires forall i :: 0 <= i < |more| ==> more[i].basket !in visible
    ensures DueList(shelf, pools, visible, entries + more, payday, today)
         == DueList(shelf, pools, visible, entries, payday, today)
  {
    if more == [] {
      assert entries + more == entries;
    } else {
      var n := |more| - 1;
      OtherJobsAreAskedTheSame(shelf, pools, visible, entries, more[..n], payday, today);
      OneElsewhere(shelf, pools, visible, entries + more[..n], more[n], payday, today);
      assert entries + more == entries + more[..n] + [more[n]];
    }
  }
}
