/** bank_import.py, defer_unmatched: settling the forecasts of a bank-fed table
    up to the last day the bank has reported. */
module DeferUnmatched {
  import opened Wrappers
  import opened Ledger
  import opened Buckets

  /** What a pass is run for: the categories the feed answers for (all of them
      when none are named), the last day reported, and which categories are bills. */
  datatype Feed = Feed(allowed: Option<set<int>>, cutoff: int, wageBill: int -> bool)

  predicate IsOpen(feed: Feed, e: Entry) {
    && e.isBucket && e.amount > 0
    && (feed.allowed.Some? ==> e.category in feed.allowed.value)
    && e.date <= feed.cutoff
  }

  /** _is_allowance: only a recurring one has a period to be spent down in. */
  predicate IsAllowance(feed: Feed, e: Entry) {
    e.recurring.Some? && !feed.wageBill(e.category)
  }

  /** _defer_day: the first day the bank has not reported. */
  function DeferDay(feed: Feed): int {
    feed.cutoff + 1
  }

  function Outcome(feed: Feed, e: Entry): seq<Entry> {
    if IsAllowance(feed, e) then [] else [Deferred(e, DeferDay(feed))]
  }

  /** The list once every open forecast among the first n is settled. */
  function Pass(feed: Feed, entries: seq<Entry>, n: nat): seq<Entry>
    requires n <= |entries|
  {
    if n == 0 then []
    else
      Pass(feed, entries, n - 1)
      + if IsOpen(feed, entries[n - 1]) then Outcome(feed, entries[n - 1]) else [entries[n - 1]]
  }

  /** What a row comes to: left alone unless it is a forecast of something, in a category the
      feed answers for, on or before the last day reported; then let go when it is recurring
      and no bill, and else put off to the day after, keeping the day it was first for. */
  ghost predicate SettledAs(feed: Feed, e: Entry, rows: seq<Entry>) {
    var open := e.isBucket && e.amount > 0 && e.date <= feed.cutoff
                && (feed.allowed.None? || e.category in feed.allowed.value);
    var kept := if e.anchor.Some? then e.anchor.value else e.date;
    if !open then rows == [e]
    else if e.recurring.Some? && !feed.wageBill(e.category) then rows == []
    else rows == [Entry(e.id, e.category, feed.cutoff + 1, e.amount, true, e.original, Some(kept), e.recurring,
                        e.processed)]
  }

  lemma RowSettles(feed: Feed, e: Entry)
    ensures SettledAs(feed, e, if IsOpen(feed, e) then Outcome(feed, e) else [e])
  {
  }

  /** One row more is settled after the others, and changes nothing about them. */
  lemma OneRowMore(feed: Feed, entries: seq<Entry>, e: Entry) returns (rows: seq<Entry>)
    ensures Pass(feed, entries + [e], |entries| + 1) == Pass(feed, entries, |entries|) + rows
    ensures SettledAs(feed, e, rows)
  {
    rows := if IsOpen(feed, e) then Outcome(feed, e) else [e];
    PassOneMore(feed, entries, e);
    RowSettles(feed, e);
  }

  lemma PassOneMore(feed: Feed, entries: seq<Entry>, e: Entry)
    ensures Pass(feed, entries + [e], |entries| + 1)
         == Pass(feed, entries, |entries|) + if IsOpen(feed, e) then Outcome(feed, e) else [e]
  {
    SamePass(feed, entries, entries + [e], |entries|);
  }

  lemma {:induction false} SamePass(feed: Feed, one: seq<Entry>, two: seq<Entry>, n: nat)
    requires n <= |one| && n <= |two| && forall i :: 0 <= i < n ==> one[i] == two[i]
    ensures Pass(feed, one, n) == Pass(feed, two, n)
  {
    if n > 0 {
      SamePass(feed, one, two, n - 1);
    }
  }

  // ---------------------------------------------------- what a pass leaves

  /** Nothing on the table is still open up to the last day reported. */
  lemma {:induction false} NothingStaysOpen(feed: Feed, entries: seq<Entry>, n: nat, k: nat)
    requires n <= |entries| && k < |Pass(feed, entries, n)|
    ensures !IsOpen(feed, Pass(feed, entries, n)[k])
  {
    if k < |Pass(feed, entries, n - 1)| {
      NothingStaysOpen(feed, entries, n - 1, k);
    }
  }

  lemma {:induction false} NothingToDo(feed: Feed, entries: seq<Entry>, n: nat)
    requires n <= |entries| && forall i :: 0 <= i < n ==> !IsOpen(feed, entries[i])
    ensures Pass(feed, entries, n) == entries[..n]
  {
    if n > 0 {
      NothingToDo(feed, entries, n - 1);
      assert entries[..n] == entries[..n - 1] + [entries[n - 1]];
    }
  }

  /** A second pass changes nothing. */
  lemma SecondPassChangesNothing(feed: Feed, entries: seq<Entry>)
    ensures
      var once := Pass(feed, entries, |entries|);
      Pass(feed, once, |once|) == once
  {
    var once := Pass(feed, entries, |entries|);
    forall k | 0 <= k < |once| ensures !IsOpen(feed, once[k]) {
      NothingStaysOpen(feed, entries, |entries|, k);
    }
    NothingToDo(feed, once, |once|);
    assert once[..|once|] == once;
  }

  /** Everything but an allowance that is over comes through: a bill or a one-off
      with its id and its amount, remembering the date it was first for, and
      whatever was not open exactly as it was. */
  lemma {:induction false} ObligationsSurvive(feed: Feed, entries: seq<Entry>, n: nat, i: nat) returns (k: nat)
    requires i < n <= |entries| && !(IsOpen(feed, entries[i]) && IsAllowance(feed, entries[i]))
    ensures k < |Pass(feed, entries, n)|
    ensures
      var e, after := entries[i], Pass(feed, entries, n)[k];
      && after.id == e.id && after.amount == e.amount && Period(after) == Period(e)
      && (IsOpen(feed, e) ==> after.anchor == Some(Period(e)) && after.date == feed.cutoff + 1)
      && (!IsOpen(feed, e) ==> after == e)
  {
    if i == n - 1 {
      k := |Pass(feed, entries, n - 1)|;
    } else {
      k := ObligationsSurvive(feed, entries, n - 1, i);
    }
  }

  /** Every row after a pass is a row from before it. */
  lemma {:induction false} NothingIsInvented(feed: Feed, entries: seq<Entry>, n: nat, k: nat) returns (i: nat)
    requires n <= |entries| && k < |Pass(feed, entries, n)|
    ensures i < n && Pass(feed, entries, n)[k].id == entries[i].id
    ensures !(IsOpen(feed, entries[i]) && IsAllowance(feed, entries[i]))
  {
    if k < |Pass(feed, entries, n - 1)| {
      i := NothingIsInvented(feed, entries, n - 1, k);
    } else {
      i := n - 1;
    }
  }

  /** What is released is exactly the recurring allowances whose period is over. */
  lemma {:induction false} OnlyAllowancesAreReleased(feed: Feed, entries: seq<Entry>, i: nat)
    requires i < |entries| && DistinctIds(entries)
    ensures
      var after := Pass(feed, entries, |entries|);
      (forall k :: 0 <= k < |after| ==> after[k].id != entries[i].id)
      <==> IsOpen(feed, entries[i]) && IsAllowance(feed, entries[i])
  {
    var after := Pass(feed, entries, |entries|);
    if IsOpen(feed, entries[i]) && IsAllowance(feed, entries[i]) {
      forall k | 0 <= k < |after| ensures after[k].id != entries[i].id {
        var j := NothingIsInvented(feed, entries, |entries|, k);
        assert j != i;
      }
    } else {
      var k := ObligationsSurvive(feed, entries, |entries|, i);
      assert after[k].id == entries[i].id;
    }
  }

  // -------------------------------------------------------------- as it runs

  /** The list part-way through: the forecasts with these ids are settled. */
  function PartWay(feed: Feed, entries: seq<Entry>, n: nat, done: set<int>): seq<Entry>
    requires n <= |entries|
  {
    if n == 0 then []
    else
      PartWay(feed, entries, n - 1, done)
      + if entries[n - 1].id in done then Outcome(feed, entries[n - 1]) else [entries[n - 1]]
  }

  lemma {:induction false} DoneElsewhere(feed: Feed, entries: seq<Entry>, n: nat, done: set<int>, id: int)
    requires n <= |entries| && forall i :: 0 <= i < n ==> entries[i].id != id
    ensures PartWay(feed, entries, n, done + {id}) == PartWay(feed, entries, n, done)
  {
    if n > 0 {
      DoneElsewhere(feed, entries, n - 1, done, id);
    }
  }

  lemma ChangeThenTail(front: seq<Entry>, tail: seq<Entry>, p: nat, e: Entry)
    requires p < |front|
    ensures Without(front + tail, p) == Without(front, p) + tail
    ensures (front + tail)[p := e] == front[p := e] + tail && (front + tail)[p] == front[p]
  {
  }

  lemma ChangeAtTheEnd(front: seq<Entry>, last: Entry, e: Entry)
    ensures Without(front + [last], |front|) == front + [] && (front + [last])[|front| := e] == front + [e]
  {
  }

  /** Settling one more forecast settles that row of the list and no other. */
  lemma {:induction false} OneMoreDone(feed: Feed, entries: seq<Entry>, n: nat, done: set<int>, i: nat, p: nat)
    requires i < n <= |entries| && DistinctIds(entries) && entries[i].id !in done
    requires p == |PartWay(feed, entries, i, done)|
    ensures
      var now, after := PartWay(feed, entries, n, done), PartWay(feed, entries, n, done + {entries[i].id});
      && p < |now| && now[p] == entries[i]
      && after == if IsAllowance(feed, entries[i]) then Without(now, p)
                  else now[p := Deferred(entries[i], DeferDay(feed))]
  {
    var front, e := PartWay(feed, entries, n - 1, done), Deferred(entries[i], DeferDay(feed));
    if i == n - 1 {
      DoneElsewhere(feed, entries, i, done, entries[i].id);
      ChangeAtTheEnd(front, entries[i], e);
    } else {
      OneMoreDone(feed, entries, n - 1, done, i, p);
      assert entries[n - 1].id != entries[i].id;
      ChangeThenTail(front, if entries[n - 1].id in done then Outcome(feed, entries[n - 1]) else [entries[n - 1]],
                     p, e);
    }
  }

  /** Ids of the open forecasts among the first n, in order. */
  function OpenIds(feed: Feed, entries: seq<Entry>, n: nat): set<int>
    requires n <= |entries|
  {
    set i | 0 <= i < n && IsOpen(feed, entries[i]) :: entries[i].id
  }

  lemma {:induction false} AllDone(feed: Feed, entries: seq<Entry>, n: nat)
    requires n <= |entries| && DistinctIds(entries)
    ensures PartWay(feed, entries, n, OpenIds(feed, entries, |entries|)) == Pass(feed, entries, n)
  {
    if n > 0 {
      AllDone(feed, entries, n - 1);
      assert entries[n - 1].id in OpenIds(feed, entries, |entries|) <==> IsOpen(feed, entries[n - 1]);
    }
  }

  lemma {:induction false} NoneDone(feed: Feed, entries: seq<Entry>, n: nat)
    requires n <= |entries|
    ensures PartWay(feed, entries, n, {}) == entries[..n]
  {
    if n > 0 {
      NoneDone(feed, entries, n - 1);
      assert entries[..n] == entries[..n - 1] + [entries[n - 1]];
    }
  }

  function DoneIds(entries: seq<Entry>, due: seq<nat>, n: nat): set<int>
    requires n <= |due| && forall j :: 0 <= j < |due| ==> due[j] < |entries|
  {
    if n == 0 then {} else DoneIds(entries, due, n - 1) + {entries[due[n - 1]].id}
  }

  lemma {:induction false} DoneIdsAre(entries: seq<Entry>, due: seq<nat>, n: nat, id: int)
    requires n <= |due| && forall j :: 0 <= j < |due| ==> due[j] < |entries|
    ensures id in DoneIds(entries, due, n) <==> exists j :: 0 <= j < n && entries[due[j]].id == id
  {
    if n > 0 {
      DoneIdsAre(entries, due, n - 1, id);
    }
  }

  /** Where the open forecasts among the first n are. */
  function OpenAt(feed: Feed, entries: seq<Entry>, n: nat): seq<nat>
    requires n <= |entries|
    ensures forall j :: 0 <= j < |OpenAt(feed, entries, n)| ==> OpenAt(feed, entries, n)[j] < n
  {
    if n == 0 then [] else OpenAt(feed, entries, n - 1) + if IsOpen(feed, entries[n - 1]) then [n - 1] else []
  }

  /** How many of the first n rows are open, and are allowances or are not. */
  function CountOpen(feed: Feed, entries: seq<Entry>, n: nat, allowance: bool): nat
    requires n <= |entries|
  {
    if n == 0 then 0
    else
      CountOpen(feed, entries, n - 1, allowance)
      + if IsOpen(feed, entries[n - 1]) && IsAllowance(feed, entries[n - 1]) == allowance then 1 else 0
  }

  function CountDue(feed: Feed, entries: seq<Entry>, due: seq<nat>, n: nat, allowance: bool): nat
    requires n <= |due| && forall j :: 0 <= j < |due| ==> due[j] < |entries|
  {
    if n == 0 then 0
    else CountDue(feed, entries, due, n - 1, allowance)
         + if IsAllowance(feed, entries[due[n - 1]]) == allowance then 1 else 0
  }

  lemma {:induction false} CountFront(feed: Feed, entries: seq<Entry>, one: seq<nat>, two: seq<nat>, n: nat,
                                      allowance: bool)
    requires n <= |one| && n <= |two| && forall j :: 0 <= j < n ==> one[j] == two[j]
    requires forall j :: 0 <= j < |one| ==> one[j] < |entries|
    requires forall j :: 0 <= j < |two| ==> two[j] < |entries|
    ensures CountDue(feed, entries, one, n, allowance) == CountDue(feed, entries, two, n, allowance)
  {
    if n > 0 {
      CountFront(feed, entries, one, two, n - 1, allowance);
    }
  }

  lemma {:induction false} EachCountsOnce(feed: Feed, entries: seq<Entry>, due: seq<nat>, n: nat)
    requires n <= |due| && forall j :: 0 <= j < |due| ==> due[j] < |entries|
    ensures CountDue(feed, entries, due, n, true) + CountDue(feed, entries, due, n, false) == n
  {
    if n > 0 {
      EachCountsOnce(feed, entries, due, n - 1);
    }
  }

  /** Counting down the list of open ones is counting the open ones. */
  lemma {:induction false} CountsMatch(feed: Feed, entries: seq<Entry>, n: nat, allowance: bool)
    requires n <= |entries|
    ensures
      var due := OpenAt(feed, entries, n);
      CountDue(feed, entries, due, |due|, allowance) == CountOpen(feed, entries, n, allowance)
  {
    if n > 0 {
      CountsMatch(feed, entries, n - 1, allowance);
      var front, due := OpenAt(feed, entries, n - 1), OpenAt(feed, entries, n);
      CountFront(feed, entries, front, due, |front|, allowance);
    }
  }

  ghost predicate Listed(feed: Feed, entries: seq<Entry>, due: seq<nat>) {
    && (forall j :: 0 <= j < |due| ==> due[j] < |entries| && IsOpen(feed, entries[due[j]]))
    && (forall i, j :: 0 <= i < j < |due| ==> due[i] < due[j])
    && forall i :: 0 <= i < |entries| && IsOpen(feed, entries[i]) ==> i in due
  }

  lemma NotDoneYet(feed: Feed, entries: seq<Entry>, due: seq<nat>, n: nat)
    requires Listed(feed, entries, due) && n < |due| && DistinctIds(entries)
    ensures entries[due[n]].id !in DoneIds(entries, due, n)
  {
    DoneIdsAre(entries, due, n, entries[due[n]].id);
  }

  lemma AllListedDone(feed: Feed, entries: seq<Entry>, due: seq<nat>)
    requires Listed(feed, entries, due)
    ensures DoneIds(entries, due, |due|) == OpenIds(feed, entries, |entries|)
  {
    forall id ensures id in DoneIds(entries, due, |due|) <==> id in OpenIds(feed, entries, |entries|) {
      DoneIdsAre(entries, due, |due|, id);
    }
  }

  function Earlier(before: Option<int>, d: int): Option<int> {
    if before.None? || d < before.value then Some(d) else before
  }

  function EarliestDay(entries: seq<Entry>, due: seq<nat>, n: nat): Option<int>
    requires n <= |due| && forall j :: 0 <= j < |due| ==> due[j] < |entries|
  {
    if n == 0 then None else Earlier(EarliestDay(entries, due, n - 1), entries[due[n - 1]].date)
  }

  lemma {:induction false} EarliestDayIs(entries: seq<Entry>, due: seq<nat>, n: nat)
    requires n <= |due| && forall j :: 0 <= j < |due| ==> due[j] < |entries|
    ensures EarliestDay(entries, due, n).None? <==> n == 0
    ensures EarliestDay(entries, due, n).Some? ==>
      && (forall j :: 0 <= j < n ==> EarliestDay(entries, due, n).value <= entries[due[j]].date)
      && exists j :: 0 <= j < n && EarliestDay(entries, due, n).value == entries[due[j]].date
  {
    if n > 0 {
      EarliestDayIs(entries, due, n - 1);
    }
  }

  /** The running counts of a pass, and the earliest day met. */
  datatype Tally = Tally(moved: nat, released: nat, earliest: Option<int>)

  function TallyAfter(feed: Feed, entries: seq<Entry>, due: seq<nat>, n: nat): Tally
    requires n <= |due| && forall j :: 0 <= j < |due| ==> due[j] < |entries|
  {
    Tally(CountDue(feed, entries, due, n, false), CountDue(feed, entries, due, n, true), EarliestDay(entries, due, n))
  }

  function Counted(tally: Tally, allowance: bool, date: int): Tally {
    if allowance then Tally(tally.moved, tally.released + 1, Earlier(tally.earliest, date))
    else Tally(tally.moved + 1, tally.released, Earlier(tally.earliest, date))
  }

  lemma {:induction false} TallySteps(feed: Feed, entries: seq<Entry>, due: seq<nat>, n: nat)
    requires n < |due| && forall j :: 0 <= j < |due| ==> due[j] < |entries|
    ensures TallyAfter(feed, entries, due, n + 1)
         == Counted(TallyAfter(feed, entries, due, n), IsAllowance(feed, entries[due[n]]), entries[due[n]].date)
  {
  }

  lemma {:induction false} OpenAtLists(feed: Feed, entries: seq<Entry>, n: nat)
    requires n <= |entries|
    ensures
      var due := OpenAt(feed, entries, n);
      && (forall i :: i in due <==> 0 <= i < n && IsOpen(feed, entries[i]))
      && (forall i, j :: 0 <= i < j < |due| ==> due[i] < due[j])
  {
    if n > 0 {
      OpenAtLists(feed, entries, n - 1);
      Lengthened(OpenAt(feed, entries, n - 1), n - 1);
    }
  }

  lemma {:induction false} Lengthened(due: seq<nat>, k: nat)
    requires forall i, j :: 0 <= i < j < |due| ==> due[i] < due[j]
    requires forall i :: i in due ==> i < k
    ensures forall i, j :: 0 <= i < j <= |due| ==> (due + [k])[i] < (due + [k])[j]
    ensures forall i :: i in due + [k] <==> i in due || i == k
  {
    assert forall i :: 0 <= i < |due| ==> due[i] in due;
  }

  /** The positions of the open forecasts, as the list stands before any is settled. */
  method ListOpen(feed: Feed, entries: seq<Entry>) returns (due: seq<nat>)
    ensures Listed(feed, entries, due) && due == OpenAt(feed, entries, |entries|)
  {
    due := [];
    for k := 0 to |entries|
      invariant due == OpenAt(feed, entries, k)
    {
      if IsOpen(feed, entries[k]) {
        due := due + [k];
      }
    }
    OpenAtLists(feed, entries, |entries|);
  }

  /** One forecast of the list, released or put off. */
  method SettleOne(feed: Feed, store: Store, ghost entries: seq<Entry>, ghost done: set<int>, e: Entry, ghost i: nat)
    requires store.Valid() && DistinctIds(entries) && i < |entries| && entries[i] == e
    requires IsOpen(feed, e) && e.id !in done
    requires store.entries == PartWay(feed, entries, |entries|, done)
    modifies store
    ensures store.Valid()
    ensures store.entries == PartWay(feed, entries, |entries|, done + {e.id})
  {
    ghost var p := |PartWay(feed, entries, i, done)|;
    OneMoreDone(feed, entries, |entries|, done, i, p);
    assert FindForecast(store.entries, 0, e.id) == Some(p);
    var changed := store.Resolve(e.id, if IsAllowance(feed, e) then Skip else Defer, DeferDay(feed));
  }

  /** defer_unmatched, on one table: how many were moved, how many released, and
      the earliest day any of them sat on. */
  method SettleUnmatched(feed: Feed, store: Store) returns (moved: nat, released: nat, earliest: Option<int>)
    requires store.Valid()
    modifies store
    ensures store.Valid()
    ensures store.entries == Pass(feed, old(store.entries), |old(store.entries)|)
    ensures moved == CountOpen(feed, old(store.entries), |old(store.entries)|, false)
    ensures released == CountOpen(feed, old(store.entries), |old(store.entries)|, true)
    ensures earliest.None? <==> moved + released == 0
    ensures earliest.Some? ==>
      && (forall i :: 0 <= i < |old(store.entries)| && IsOpen(feed, old(store.entries)[i]) ==>
            earliest.value <= old(store.entries)[i].date)
      && exists i :: 0 <= i < |old(store.entries)| && IsOpen(feed, old(store.entries)[i])
                     && earliest.value == old(store.entries)[i].date
  {
    var due := ListOpen(feed, store.entries);
    var tally := SettleEach(feed, store, due);
    moved, released, earliest := tally.moved, tally.released, tally.earliest;
    CountsMatch(feed, old(store.entries), |old(store.entries)|, true);
    CountsMatch(feed, old(store.entries), |old(store.entries)|, false);
    EachCountsOnce(feed, old(store.entries), due, |due|);
    AllListedDone(feed, old(store.entries), due);
    AllDone(feed, old(store.entries), |old(store.entries)|);
    EarliestDayIs(old(store.entries), due, |due|);
  }

  method SettleEach(feed: Feed, store: Store, due: seq<nat>) returns (tally: Tally)
    requires store.Valid() && Listed(feed, store.entries, due)
    modifies store
    ensures store.Valid()
    ensures store.entries
            == PartWay(feed, old(store.entries), |old(store.entries)|, DoneIds(old(store.entries), due, |due|))
    ensures tally == TallyAfter(feed, old(store.entries), due, |due|)
  {
    var entries := store.entries;
    tally := Tally(0, 0, None);
    NoneDone(feed, entries, |entries|);
    assert entries[..|entries|] == entries;
    for k := 0 to |due|
      invariant store.Valid()
      invariant store.entries == PartWay(feed, entries, |entries|, DoneIds(entries, due, k))
      invariant tally == TallyAfter(feed, entries, due, k)
    {
      var e := entries[due[k]];
      NotDoneYet(feed, entries, due, k);
      SettleOne(feed, store, entries, DoneIds(entries, due, k), e, due[k]);
      TallySteps(feed, entries, due, k);
      tally := Counted(tally, IsAllowance(feed, e), e.date);
    }
  }
}
