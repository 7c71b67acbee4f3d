/** Forecast buckets (bucket_utils.py, recurring_bucket_manager.py and
    bucket_confirmation.py): one forecast is held twice, as an entry in one list
    and as its period's record in another. Money is whole cents, days ordinals. */
module Buckets {
  import opened Wrappers
  import opened Sorting
  import opened Ledger
  import Calendar
  import Cadence

  /** A row of an entry table. `anchor` is original_date, set by the first deferral. */
  datatype Entry = Entry(id: int, category: int, date: int, amount: int, isBucket: bool,
                         original: Option<int>, anchor: Option<int>, recurring: Option<int>, processed: bool)

  datatype Record = Record(id: int, category: int, date: int, amount: int, original: int)

  /** The period a forecast is for, wherever it sits now. */
  function Period(e: Entry): int {
    if e.anchor.Some? then e.anchor.value else e.date
  }

  function EntryPart(e: Entry): Option<(Key, int)> {
    if e.isBucket then Some(((e.category, Period(e)), e.amount)) else None
  }

  function RecordPart(r: Record): Option<(Key, int)> {
    Some(((r.category, r.date), r.amount))
  }

  function Forecasts(entries: seq<Entry>): map<Key, int> {
    Book(entries, |entries|, EntryPart)
  }

  function Periods(records: seq<Record>): map<Key, int> {
    Book(records, |records|, RecordPart)
  }

  /** The two stores agree: one live entry for each record above nothing, at its
      period and for its amount, and no other. */
  ghost predicate Agree(entries: seq<Entry>, records: seq<Record>) {
    && Distinct(entries, EntryPart)
    && Distinct(records, RecordPart)
    && Forecasts(entries) == Positive(Periods(records))
  }

  // ------------------------------------------------- finding rows in a list

  function FindRecord(records: seq<Record>, n: nat, category: int, date: int): (r: Option<nat>)
    requires n <= |records|
    ensures r.Some? ==> n <= r.value < |records|
                        && records[r.value].category == category && records[r.value].date == date
    ensures forall i :: n <= i < (if r.Some? then r.value else |records|) ==>
                          !(records[i].category == category && records[i].date == date)
    decreases |records| - n
  {
    if n == |records| then None
    else if records[n].category == category && records[n].date == date then Some(n)
    else FindRecord(records, n + 1, category, date)
  }

  /** The first row of a category dated on either of two days. */
  function FindEither(records: seq<Record>, n: nat, category: int, one: int, two: int): (r: Option<nat>)
    requires n <= |records|
    ensures r.Some? ==> n <= r.value < |records|
                        && records[r.value].category == category && records[r.value].date in {one, two}
    ensures forall i :: n <= i < (if r.Some? then r.value else |records|) ==>
                          !(records[i].category == category && records[i].date in {one, two})
    decreases |records| - n
  {
    if n == |records| then None
    else if records[n].category == category && records[n].date in {one, two} then Some(n)
    else FindEither(records, n + 1, category, one, two)
  }

  function FindForecast(entries: seq<Entry>, n: nat, id: int): (r: Option<nat>)
    requires n <= |entries|
    ensures r.Some? ==> n <= r.value < |entries| && entries[r.value].id == id && entries[r.value].isBucket
    ensures forall i :: n <= i < (if r.Some? then r.value else |entries|) ==>
                          !(entries[i].id == id && entries[i].isBucket)
    decreases |entries| - n
  {
    if n == |entries| then None
    else if entries[n].id == id && entries[n].isBucket then Some(n)
    else FindForecast(entries, n + 1, id)
  }

  /** The first forecast in a cell: a category's on a day. */
  function FindInCell(entries: seq<Entry>, n: nat, category: int, date: int): (r: Option<nat>)
    requires n <= |entries|
    ensures r.Some? ==> n <= r.value < |entries| && entries[r.value].isBucket
                        && entries[r.value].category == category && entries[r.value].date == date
    ensures forall i :: n <= i < (if r.Some? then r.value else |entries|) ==>
                          !(entries[i].isBucket && entries[i].category == category && entries[i].date == date)
    decreases |entries| - n
  {
    if n == |entries| then None
    else if entries[n].isBucket && entries[n].category == category && entries[n].date == date then Some(n)
    else FindInCell(entries, n + 1, category, date)
  }

  // --------------------------------------------------------- what agreement says

  /** Every live entry has exactly one record, at its original period, with an
      equal amount above nothing. */
  lemma {:induction false} EntryHasItsRecord(entries: seq<Entry>, records: seq<Record>, k: nat)
    requires Agree(entries, records) && k < |entries| && entries[k].isBucket
    ensures
      var e, j := entries[k], FindRecord(records, 0, entries[k].category, Period(entries[k]));
      && j.Some? && records[j.value].amount == e.amount && e.amount > 0
      && forall i :: 0 <= i < |records| && records[i].category == e.category && records[i].date == Period(e)
                ==> i == j.value
  {
    var e := entries[k];
    var key := (e.category, Period(e));
    BookAt(entries, |entries|, EntryPart, k);
    assert key in Forecasts(entries) && key in Periods(records);
    BookHas(records, |records|, RecordPart, key);
    var j := FindRecord(records, 0, e.category, Period(e));
    BookAt(records, |records|, RecordPart, j.value);
    forall i | 0 <= i < |records| && records[i].category == e.category && records[i].date == Period(e)
      ensures i == j.value {
      assert SameKey(records[j.value], records[i], RecordPart);
    }
  }

  /** A record is at or below nothing exactly when its entry is gone. */
  lemma {:induction false} GoneExactlyWhenSpent(entries: seq<Entry>, records: seq<Record>, j: nat)
    requires Agree(entries, records) && j < |records|
    ensures records[j].amount <= 0
       <==> forall k :: 0 <= k < |entries| ==>
              !(entries[k].isBucket && entries[k].category == records[j].category
                && Period(entries[k]) == records[j].date)
  {
    var key := (records[j].category, records[j].date);
    BookAt(records, |records|, RecordPart, j);
    BookHas(entries, |entries|, EntryPart, key);
    assert key in Positive(Periods(records)) <==> records[j].amount > 0;
    forall k | 0 <= k < |entries|
      ensures EntryPart(entries[k]).Some? && EntryPart(entries[k]).value.0 == key
         <==> entries[k].isBucket && entries[k].category == records[j].category && Period(entries[k]) == records[j].date
    {
    }
  }

  // ------------------------------------------------------------- depletion

  /** subtract_from_bucket on one row: what is left, or the row deleted. */
  function TakenFromEntry(entries: seq<Entry>, k: nat, amount: int): seq<Entry>
    requires k < |entries|
  {
    if entries[k].amount - amount <= 0 then Without(entries, k)
    else entries[k := entries[k].(amount := entries[k].amount - amount)]
  }

  function TakenFromRecord(records: seq<Record>, j: nat, amount: int): seq<Record>
    requires j < |records|
  {
    records[j := records[j].(amount := records[j].amount - amount)]
  }

  /** A record's new amount is what the period has left, when that is anything. */
  lemma RecordRefigured(records: seq<Record>, j: nat, left: int)
    requires Distinct(records, RecordPart) && j < |records|
    ensures
      var key, after := (records[j].category, records[j].date), records[j := records[j].(amount := left)];
      && Distinct(after, RecordPart)
      && Positive(Periods(after))
         == if left > 0 then Positive(Periods(records))[key := left] else Positive(Periods(records)) - {key}
  {
    var record := records[j].(amount := left);
    Refigured(records, RecordPart, j, record, |records|);
    RefiguredDistinct(records, RecordPart, j, record);
    PositivePut(Periods(records), (record.category, record.date), left);
  }

  lemma TakenFromEntryLeaves(entries: seq<Entry>, k: nat, amount: int)
    requires Distinct(entries, EntryPart) && k < |entries| && entries[k].isBucket
    ensures
      var key, left := (entries[k].category, Period(entries[k])), entries[k].amount - amount;
      && Distinct(TakenFromEntry(entries, k, amount), EntryPart)
      && Forecasts(TakenFromEntry(entries, k, amount))
         == if left > 0 then Forecasts(entries)[key := left] else Forecasts(entries) - {key}
  {
    var left := entries[k].amount - amount;
    if left <= 0 {
      Dropped(entries, EntryPart, k, |entries|);
      DroppedDistinct(entries, EntryPart, k);
    } else {
      Refigured(entries, EntryPart, k, entries[k].(amount := left), |entries|);
      RefiguredDistinct(entries, EntryPart, k, entries[k].(amount := left));
    }
  }

  /** Taking the same from an entry and from its record keeps the stores agreeing. */
  lemma TakingBothAgrees(entries: seq<Entry>, records: seq<Record>, k: nat, j: nat, amount: int)
    requires Agree(entries, records) && k < |entries| && j < |records| && entries[k].isBucket
    requires records[j].category == entries[k].category && records[j].date == Period(entries[k])
    ensures Agree(TakenFromEntry(entries, k, amount), TakenFromRecord(records, j, amount))
    ensures records[j].amount == entries[k].amount
  {
    EntryHasItsRecord(entries, records, k);
    TakenFromEntryLeaves(entries, k, amount);
    RecordRefigured(records, j, records[j].amount - amount);
  }

  /** Taking from a record alone, which is what spending with no forecast in
      reach does, keeps them agreeing exactly when nothing was left to forecast. */
  lemma TakingFromTheRecordAlone(entries: seq<Entry>, records: seq<Record>, j: nat, amount: int)
    requires Agree(entries, records) && j < |records| && amount > 0
    ensures Agree(entries, TakenFromRecord(records, j, amount)) <==> records[j].amount <= 0
  {
    var key, left := (records[j].category, records[j].date), records[j].amount - amount;
    RecordRefigured(records, j, left);
    BookAt(records, |records|, RecordPart, j);
    if records[j].amount > 0 {
      assert key in Forecasts(entries) && Forecasts(entries)[key] == records[j].amount;
    }
  }

  // --------------------------------------------------------------- answers

  /** A forecast that became what really happened. */
  function Confirmed(e: Entry, amount: int): Entry {
    e.(isBucket := false, amount := amount, original := None, processed := true)
  }

  function Deferred(e: Entry, until: int): Entry {
    e.(anchor := Some(Period(e)), date := until)
  }

  /** The record an answer settles: the first of the category dated on the
      forecast's period or on the day it sits on now. */
  function Settles(records: seq<Record>, e: Entry): Option<nat> {
    FindEither(records, 0, e.category, Period(e), e.date)
  }

  /** What `_apply_to_record` leaves when the record is dropped. */
  function Settled(records: seq<Record>, e: Entry): seq<Record> {
    var j := Settles(records, e);
    if j.Some? then Without(records, j.value) else records
  }

  /** Both ways an answered forecast stops being one. */
  ghost predicate Answered(entries: seq<Entry>, k: nat, after: seq<Entry>)
    requires k < |entries|
  {
    after == Without(entries, k) || exists amount :: after == entries[k := Confirmed(entries[k], amount)]
  }

  lemma AnsweredLeaves(entries: seq<Entry>, k: nat, after: seq<Entry>)
    requires k < |entries| && Distinct(entries, EntryPart) && entries[k].isBucket && Answered(entries, k, after)
    ensures Distinct(after, EntryPart)
    ensures Forecasts(after) == Forecasts(entries) - {(entries[k].category, Period(entries[k]))}
  {
    if after == Without(entries, k) {
      Dropped(entries, EntryPart, k, |entries|);
      DroppedDistinct(entries, EntryPart, k);
    } else {
      var amount :| after == entries[k := Confirmed(entries[k], amount)];
      Silenced(entries, EntryPart, k, Confirmed(entries[k], amount), |entries|);
      RefiguredDistinct(entries, EntryPart, k, Confirmed(entries[k], amount));
    }
  }

  /** An answer settles its own period's record, and the stores go on agreeing,
      exactly when no other record of the category dated on the day the forecast
      sits on comes before it in the list. */
  lemma {:induction false} AnswerAgrees(entries: seq<Entry>, records: seq<Record>, k: nat, after: seq<Entry>)
    requires Agree(entries, records) && k < |entries| && entries[k].isBucket && Answered(entries, k, after)
    ensures
      var own := FindRecord(records, 0, entries[k].category, Period(entries[k]));
      && own.Some?
      && (Agree(after, Settled(records, entries[k])) <==> Settles(records, entries[k]) == own)
      && (Settles(records, entries[k]) == own <==>
          forall i :: 0 <= i < own.value ==>
            !(records[i].category == entries[k].category && records[i].date == entries[k].date))
  {
    var e := entries[k];
    var key := (e.category, Period(e));
    EntryHasItsRecord(entries, records, k);
    AnsweredLeaves(entries, k, after);
    var own, j := FindRecord(records, 0, e.category, Period(e)).value, Settles(records, e);
    assert j.Some? by {
      assert records[own].category == e.category && records[own].date in {Period(e), e.date};
    }
    Dropped(records, RecordPart, j.value, |records|);
    DroppedDistinct(records, RecordPart, j.value);
    PositiveDrop(Periods(records), (records[j.value].category, records[j.value].date));
    if j.value != own {
      BookAt(records, |records|, RecordPart, own);
      assert !SameKey(records[j.value], records[own], RecordPart);
      assert key in Positive(Periods(Settled(records, e)));
    }
  }

  /** Rows of a category stand in date order. */
  ghost predicate InOrder(records: seq<Record>) {
    forall i, j :: 0 <= i < j < |records| && records[i].category == records[j].category
      ==> records[i].date < records[j].date
  }

  /** With records in date order and forecasts only ever put off, an answer
      always settles its own. */
  lemma OwnRecordFirst(entries: seq<Entry>, records: seq<Record>, k: nat)
    requires Agree(entries, records) && InOrder(records) && k < |entries| && entries[k].isBucket
    requires Period(entries[k]) <= entries[k].date
    ensures Settles(records, entries[k]) == FindRecord(records, 0, entries[k].category, Period(entries[k]))
  {
    EntryHasItsRecord(entries, records, k);
    AnswerAgrees(entries, records, k, Without(entries, k));
  }

  lemma DeferralAgrees(entries: seq<Entry>, records: seq<Record>, k: nat, until: int)
    requires Agree(entries, records) && k < |entries| && entries[k].isBucket
    ensures Agree(entries[k := Deferred(entries[k], until)], records)
  {
    var e := entries[k];
    Refigured(entries, EntryPart, k, Deferred(e, until), |entries|);
    RefiguredDistinct(entries, EntryPart, k, Deferred(e, until));
    BookAt(entries, |entries|, EntryPart, k);
  }

  /** Two unpaid months of one rent, the first put off onto the day the second
      is for: with the later record listed first, answering the first month
      settles the second month's record instead. */
  lemma AnswerSettlesAnother()
    ensures
      var entries := [Entry(1, 7, 60, 900, true, Some(900), Some(30), Some(5), false),
                      Entry(2, 7, 60, 900, true, Some(900), None, Some(5), false)];
      var records := [Record(-2, 7, 60, 900, 900), Record(-1, 7, 30, 900, 900)];
      Agree(entries, records) && !Agree(Without(entries, 0), Settled(records, entries[0]))
  {
    var one := Entry(1, 7, 60, 900, true, Some(900), Some(30), Some(5), false);
    var two := Entry(2, 7, 60, 900, true, Some(900), None, Some(5), false);
    var entries, records := [one, two], [Record(-2, 7, 60, 900, 900), Record(-1, 7, 30, 900, 900)];
    BooksOfTwo(entries, EntryPart);
    BooksOfTwo(records, RecordPart);
    var book := map[(7, 30) := 900, (7, 60) := 900];
    assert Forecasts(entries) == book && Positive(Periods(records)) == book;
    AnswerAgrees(entries, records, 0, Without(entries, 0));
    assert records[0].category == one.category && records[0].date == one.date;
  }

  lemma BooksOfTwo<T>(rows: seq<T>, part: Part<T>)
    requires |rows| == 2 && part(rows[0]).Some? && part(rows[1]).Some?
    requires part(rows[0]).value.0 != part(rows[1]).value.0
    ensures Distinct(rows, part)
    ensures Book(rows, 2, part)
         == map[part(rows[0]).value.0 := part(rows[0]).value.1, part(rows[1]).value.0 := part(rows[1]).value.1]
  {
    assert Book(rows, 1, part) == Book(rows, 0, part)[part(rows[0]).value.0 := part(rows[0]).value.1];
  }

  // ------------------------------------------ which forecast spending draws on

  const FORWARD_WINDOW := 45

  /** A live forecast of a category. */
  predicate IsCandidate(e: Entry, category: int) {
    e.isBucket && e.category == category && e.amount > 0
  }

  predicate IsDue(e: Entry, category: int, today: int) {
    IsCandidate(e, category) && e.date <= today
  }

  predicate IsAhead(e: Entry, category: int, today: int) {
    IsCandidate(e, category) && e.date > today
  }

  predicate InReach(e: Entry, category: int, today: int) {
    IsCandidate(e, category) && today <= e.date <= today + FORWARD_WINDOW
  }

  function Due(category: int, today: int): Entry -> bool {
    e => IsDue(e, category, today)
  }

  function Ahead(category: int, today: int): Entry -> bool {
    e => IsAhead(e, category, today)
  }

  function Reaching(category: int, today: int): Entry -> bool {
    e => InReach(e, category, today)
  }

  /** The first of the earliest (or of the latest) rows that a test admits. */
  ghost predicate IsEarliest(entries: seq<Entry>, admits: Entry -> bool, k: nat) {
    && k < |entries| && admits(entries[k])
    && (forall i :: 0 <= i < |entries| && admits(entries[i]) ==> entries[k].date <= entries[i].date)
    && (forall i :: 0 <= i < k && admits(entries[i]) ==> entries[k].date < entries[i].date)
  }

  ghost predicate IsLatest(entries: seq<Entry>, admits: Entry -> bool, k: nat) {
    && k < |entries| && admits(entries[k])
    && (forall i :: 0 <= i < |entries| && admits(entries[i]) ==> entries[i].date <= entries[k].date)
    && (forall i :: 0 <= i < k && admits(entries[i]) ==> entries[i].date < entries[k].date)
  }

  ghost predicate NoneAdmitted(entries: seq<Entry>, admits: Entry -> bool) {
    forall i :: 0 <= i < |entries| ==> !admits(entries[i])
  }

  method Earliest(entries: seq<Entry>, admits: Entry -> bool) returns (k: Option<nat>)
    ensures k.None? ==> NoneAdmitted(entries, admits)
    ensures k.Some? ==> IsEarliest(entries, admits, k.value)
  {
    k := None;
    for i := 0 to |entries|
      invariant k.None? ==> NoneAdmitted(entries[..i], admits)
      invariant k.Some? ==> k.value < i && IsEarliest(entries[..i], admits, k.value)
    {
      if admits(entries[i]) && (k.None? || entries[i].date < entries[k.value].date) {
        k := Some(i);
      }
    }
    assert entries[..|entries|] == entries;
  }

  method Latest(entries: seq<Entry>, admits: Entry -> bool) returns (k: Option<nat>)
    ensures k.None? ==> NoneAdmitted(entries, admits)
    ensures k.Some? ==> IsLatest(entries, admits, k.value)
  {
    k := None;
    for i := 0 to |entries|
      invariant k.None? ==> NoneAdmitted(entries[..i], admits)
      invariant k.Some? ==> k.value < i && IsLatest(entries[..i], admits, k.value)
    {
      if admits(entries[i]) && (k.None? || entries[i].date > entries[k.value].date) {
        k := Some(i);
      }
    }
    assert entries[..|entries|] == entries;
  }

  /** The days the live forecasts of a category sit on. */
  function CandidateDates(entries: seq<Entry>, category: int): set<int> {
    set i | 0 <= i < |entries| && IsCandidate(entries[i], category) :: entries[i].date
  }

  function Step(days: seq<int>, i: nat): int
    requires i + 1 < |days|
  {
    days[i + 1] - days[i]
  }

  method LeastGap(days: seq<int>) returns (gap: Option<int>)
    ensures gap.None? <==> |days| < 2
    ensures gap.Some? ==> exists i: nat :: i + 1 < |days| && Step(days, i) == gap.value
    ensures gap.Some? ==> forall i: nat :: i + 1 < |days| ==> gap.value <= Step(days, i)
  {
    gap := None;
    var i := 0;
    while i + 1 < |days|
      invariant i == 0 || 0 < i < |days|
      invariant gap.None? <==> i == 0
      invariant gap.Some? ==> exists j: nat :: j < i && Step(days, j) == gap.value
      invariant gap.Some? ==> forall j: nat :: j < i ==> gap.value <= Step(days, j)
    {
      if gap.None? || Step(days, i) < gap.value {
        gap := Some(Step(days, i));
      }
      i := i + 1;
    }
  }

  /** A forecast so far ahead that a whole period lies between: this period's is
      already spent. */
  ghost predicate APeriodAway(dates: set<int>, ahead: int) {
    exists a, b :: a in dates && b in dates && a < b && b - a <= ahead
  }

  /** Two neighbours are as close as any two days. */
  lemma {:induction false} ClosestAreNeighbours(days: seq<int>, dates: set<int>, a: int, b: int) returns (p: nat)
    requires Ascending(days) && (forall d :: d in days <==> d in dates) && a in dates && b in dates && a < b
    ensures p + 1 < |days| && Step(days, p) <= b - a
  {
    assert a in days && b in days;
    p :| 0 <= p < |days| && days[p] == a;
    var q :| 0 <= q < |days| && days[q] == b;
    assert p < q;
    assert p + 1 == q || days[p + 1] < days[q];
  }

  /** Whether a period is known and lies between. */
  method SpentAlready(dates: set<int>, ahead: int) returns (spent: bool)
    ensures spent <==> APeriodAway(dates, ahead)
  {
    var days := AscendingList(dates);
    AscendingListIs(dates);
    var period := LeastGap(days);
    spent := period.Some? && ahead >= period.value;
    if spent {
      ghost var i: nat :| i + 1 < |days| && Step(days, i) == period.value;
      assert days[i] in dates && days[i + 1] in dates;
    } else {
      forall a, b | a in dates && b in dates && a < b ensures b - a > ahead {
        var p := ClosestAreNeighbours(days, dates, a, b);
      }
    }
  }

  /** The first forecast within reach is a whole period away. */
  ghost predicate FirstIsAway(entries: seq<Entry>, category: int, today: int, n: nat) {
    && IsEarliest(entries, Reaching(category, today), n)
    && APeriodAway(CandidateDates(entries, category), entries[n].date - today)
  }

  /** The forecast spending on a day draws on. A bill takes the latest one due,
      or the first ahead when none is; an allowance the first within reach,
      unless that is a whole period away. */
  ghost predicate IsNext(entries: seq<Entry>, category: int, wageBill: bool, today: int, k: Option<nat>) {
    if wageBill then
      if exists i :: 0 <= i < |entries| && IsDue(entries[i], category, today)
      then k.Some? && IsLatest(entries, Due(category, today), k.value)
      else if k.Some? then IsEarliest(entries, Ahead(category, today), k.value)
      else NoneAdmitted(entries, Ahead(category, today))
    else if k.Some? then
      && IsEarliest(entries, Reaching(category, today), k.value)
      && !APeriodAway(CandidateDates(entries, category), entries[k.value].date - today)
    else
      || NoneAdmitted(entries, Reaching(category, today))
      || exists n: nat :: FirstIsAway(entries, category, today, n)
  }

  /** A forecast of a category with something left. */
  ghost predicate Live(entries: seq<Entry>, category: int, i: int) {
    0 <= i < |entries| && entries[i].isBucket && entries[i].category == category && entries[i].amount > 0
  }

  /** One that has something left on a day of the forty-five to come, or today. */
  ghost predicate Soon(entries: seq<Entry>, category: int, today: int, i: int) {
    Live(entries, category, i) && today <= entries[i].date <= today + 45
  }

  /** For a bill, the latest live forecast up to today, or with none of those the first after
      it, the row listed first where days are equal; none when nothing is live. */
  ghost predicate BillDraws(entries: seq<Entry>, category: int, today: int, k: Option<nat>) {
    match k
    case None => forall i :: !Live(entries, category, i)
    case Some(n) =>
      && Live(entries, category, n)
      && forall i :: Live(entries, category, i) ==>
           if entries[n].date <= today
           then today < entries[i].date || entries[i].date < entries[n].date
                || (entries[i].date == entries[n].date && n <= i)
           else entries[n].date < entries[i].date || (entries[i].date == entries[n].date && n <= i)
  }

  /** For an allowance, the first of the coming days' forecasts, unless two live ones lie no
      further apart than that one is ahead. */
  ghost predicate AllowanceDraws(entries: seq<Entry>, category: int, today: int, k: Option<nat>) {
    match k
    case None =>
      (forall i :: !Soon(entries, category, today, i))
      || exists n :: FirstSoon(entries, category, today, n) && TwoAsClose(entries, category, entries[n].date - today)
    case Some(n) =>
      && FirstSoon(entries, category, today, n)
      && !TwoAsClose(entries, category, entries[n].date - today)
  }

  ghost predicate Draws(entries: seq<Entry>, category: int, wageBill: bool, today: int, k: Option<nat>) {
    if wageBill then BillDraws(entries, category, today, k) else AllowanceDraws(entries, category, today, k)
  }

  lemma BillDrawsOn(entries: seq<Entry>, category: int, today: int, k: Option<nat>)
    requires IsNext(entries, category, true, today, k)
    ensures BillDraws(entries, category, today, k)
  {
  }

  lemma {:induction false} DatesLie(entries: seq<Entry>, category: int, d: int)
    ensures d in CandidateDates(entries, category) <==> exists i :: Live(entries, category, i) && entries[i].date == d
  {
    if d in CandidateDates(entries, category) {
      var i :| 0 <= i < |entries| && IsCandidate(entries[i], category) && entries[i].date == d;
      assert Live(entries, category, i);
    }
  }

  /** Two live forecasts no further apart than some days ahead. */
  ghost predicate TwoWithin(entries: seq<Entry>, category: int, a: int, b: int, ahead: int) {
    && Live(entries, category, a) && Live(entries, category, b)
    && 0 < entries[b].date - entries[a].date <= ahead
  }

  ghost predicate TwoAsClose(entries: seq<Entry>, category: int, ahead: int) {
    exists a, b :: TwoWithin(entries, category, a, b, ahead)
  }

  lemma PeriodAwayIs(entries: seq<Entry>, category: int, ahead: int)
    ensures APeriodAway(CandidateDates(entries, category), ahead) <==> TwoAsClose(entries, category, ahead)
  {
    var dates := CandidateDates(entries, category);
    if APeriodAway(dates, ahead) {
      var one, two :| one in dates && two in dates && one < two && two - one <= ahead;
      DatesLie(entries, category, one);
      DatesLie(entries, category, two);
      var a :| Live(entries, category, a) && entries[a].date == one;
      var b :| Live(entries, category, b) && entries[b].date == two;
      assert TwoWithin(entries, category, a, b, ahead);
    }
    if TwoAsClose(entries, category, ahead) {
      var a, b :| TwoWithin(entries, category, a, b, ahead);
      DatesLie(entries, category, entries[a].date);
      DatesLie(entries, category, entries[b].date);
    }
  }

  ghost predicate FirstSoon(entries: seq<Entry>, category: int, today: int, n: int) {
    && Soon(entries, category, today, n)
    && forall i :: Soon(entries, category, today, i) ==>
         entries[n].date < entries[i].date || (entries[i].date == entries[n].date && n <= i)
  }

  lemma FirstInReach(entries: seq<Entry>, category: int, today: int, n: nat)
    requires IsEarliest(entries, Reaching(category, today), n)
    ensures FirstSoon(entries, category, today, n)
  {
  }

  lemma AwayIs(entries: seq<Entry>, category: int, today: int, n: nat)
    requires FirstIsAway(entries, category, today, n)
    ensures FirstSoon(entries, category, today, n)
    ensures TwoAsClose(entries, category, entries[n].date - today)
  {
    FirstInReach(entries, category, today, n);
    PeriodAwayIs(entries, category, entries[n].date - today);
  }

  lemma SoonIsReached(entries: seq<Entry>, category: int, today: int, i: int)
    requires Soon(entries, category, today, i)
    ensures !NoneAdmitted(entries, Reaching(category, today))
  {
    assert Reaching(category, today)(entries[i]);
  }

  lemma AllowanceDrawsOn(entries: seq<Entry>, category: int, today: int, k: Option<nat>)
    requires IsNext(entries, category, false, today, k)
    ensures AllowanceDraws(entries, category, today, k)
  {
    if k.Some? {
      FirstInReach(entries, category, today, k.value);
      PeriodAwayIs(entries, category, entries[k.value].date - today);
    } else if exists i :: Soon(entries, category, today, i) {
      var i :| Soon(entries, category, today, i);
      SoonIsReached(entries, category, today, i);
      var n: nat :| FirstIsAway(entries, category, today, n);
      AwayIs(entries, category, today, n);
    }
  }

  /** find_next_bucket_for_category. */
  method FindNext(entries: seq<Entry>, category: int, wageBill: bool, today: int) returns (k: Option<nat>)
    ensures IsNext(entries, category, wageBill, today, k)
    ensures k.Some? ==> k.value < |entries| && IsCandidate(entries[k.value], category)
    ensures Draws(entries, category, wageBill, today, k)
  {
    if wageBill {
      k := Latest(entries, Due(category, today));
      if k.None? {
        k := Earliest(entries, Ahead(category, today));
      }
    } else {
      k := Earliest(entries, Reaching(category, today));
      if k.Some? {
        var spent := SpentAlready(CandidateDates(entries, category), entries[k.value].date - today);
        if spent {
          assert FirstIsAway(entries, category, today, k.value);
          k := None;
        }
      }
    }
    if wageBill {
      BillDrawsOn(entries, category, today, k);
    } else {
      AllowanceDrawsOn(entries, category, today, k);
    }
  }

  // --------------------------------------- which period a day falls within

  function ClampedDay(month: int, n: nat): int
    requires n >= 1
  {
    Calendar.DateOf(month, if n <= Calendar.MonthLength(month) then n else Calendar.MonthLength(month))
  }

  /** The latest listed weekday within a week back, `back` days of it looked at. */
  function WeekdayBack(weekdays: seq<Calendar.DayOfWeek>, day: int, back: nat): (r: Option<int>)
    requires back <= 7
    ensures r.Some? ==> day - 7 < r.value <= day - back && Calendar.Weekday(r.value) in weekdays
    ensures forall x :: (if r.Some? then r.value else day - 7) < x <= day - back ==> Calendar.Weekday(x) !in weekdays
    decreases 7 - back
  {
    if back == 7 then None
    else if Calendar.Weekday(day - back) in weekdays then Some(day - back)
    else WeekdayBack(weekdays, day, back + 1)
  }

  /** _find_bucket_date_for_entry: by the first day of the month, the weekday or the
      date of the year that the cadence names, every so often not looked at. None
      too where the source raises and its caller carries on. */
  function PeriodFor(c: Cadence.Cadence, day: int): Option<int> {
    match c.unit
    case Months =>
      if c.monthlyDays.None? || |c.monthlyDays.value| == 0 then None
      else MonthlyPeriod(c.monthlyDays.value[0], day)
    case Weeks => WeekdayBack(c.weekdays, day, 0)
    case Years =>
      if c.yearly.None? then None
      else
        var here := Cadence.YearDate(c, Calendar.YearOfDay(day));
        if here.Some? && day < here.value then Cadence.YearDate(c, Calendar.YearOfDay(day) - 1) else here
    case Days => None
  }

  function MonthlyPeriod(first: Cadence.MonthDay, day: int): Option<int> {
    match first
    case LastDay => None
    case Day(n) =>
      if n < 1 then None
      else
        var month := Calendar.MonthOf(day);
        Some(if day >= ClampedDay(month, n) then ClampedDay(month, n) else ClampedDay(month - 1, n))
  }

  /** The loop back over a week. */
  method FindWeekday(weekdays: seq<Calendar.DayOfWeek>, day: int) returns (found: Option<int>)
    ensures found == WeekdayBack(weekdays, day, 0)
  {
    for back := 0 to 7
      invariant WeekdayBack(weekdays, day, 0) == WeekdayBack(weekdays, day, back)
    {
      if Calendar.Weekday(day - back) in weekdays {
        return Some(day - back);
      }
    }
    return None;
  }

  /** Paid every week, or every month on a day all months have, the period found
      is the last occurrence up to the day. */
  lemma {:induction false} PeriodIsTheLastOccurrence(c: Cadence.Cadence, start: int, day: int, x: int)
    requires c.interval == 1 && PeriodFor(c, day).Some? && start <= PeriodFor(c, day).value
    requires c.unit == Cadence.Weeks
             || (c.unit == Cadence.Months && exists n: nat :: 1 <= n <= 28 && c.monthlyDays == Some([Cadence.Day(n)]))
    ensures
      var p := PeriodFor(c, day).value;
      && p <= day && Cadence.Occurs(c, start, p)
      && (p < x <= day ==> !Cadence.Occurs(c, start, x))
  {
    if c.unit == Cadence.Months {
      MonthlyIsTheLast(c, start, day, x);
    }
  }

  lemma OnTheDay(c: Cadence.Cadence, n: nat, start: int, d: int)
    requires c.interval == 1 && c.unit == Cadence.Months && 1 <= n <= 28 && c.monthlyDays == Some([Cadence.Day(n)])
    ensures Cadence.Occurs(c, start, d) <==> d >= start && Calendar.DayOf(d) == n
  {
    assert Cadence.DaysOfMonth(c)[0] == Cadence.Day(n);
    if d >= start {
      Calendar.MonthOfMonotone(start, d);
    }
    if Calendar.DayOf(d) == n {
      assert Cadence.Day(n) in Cadence.DaysOfMonth(c)
             && Cadence.MonthDate(Calendar.MonthOf(d), Cadence.Day(n)) == Some(d);
    }
  }

  lemma {:induction false} MonthlyIsTheLast(c: Cadence.Cadence, start: int, day: int, x: int)
    requires c.interval == 1 && c.unit == Cadence.Months && PeriodFor(c, day).Some? && start <= PeriodFor(c, day).value
    requires exists n: nat :: 1 <= n <= 28 && c.monthlyDays == Some([Cadence.Day(n)])
    ensures
      var p := PeriodFor(c, day).value;
      && p <= day && Cadence.Occurs(c, start, p)
      && (p < x <= day ==> !Cadence.Occurs(c, start, x))
  {
    var n: nat :| 1 <= n <= 28 && c.monthlyDays == Some([Cadence.Day(n)]);
    var p := PeriodFor(c, day).value;
    OnTheDay(c, n, start, p);
    OnTheDay(c, n, start, x);
    LastOnTheDay(n, day, x);
  }

  lemma LastOnTheDay(n: nat, day: int, x: int)
    requires 1 <= n <= 28
    ensures
      var p := MonthlyPeriod(Cadence.Day(n), day).value;
      p <= day && Calendar.DayOf(p) == n && (p < x <= day ==> Calendar.DayOf(x) != n)
  {
    var p := MonthlyPeriod(Cadence.Day(n), day).value;
    if p < x <= day {
      Calendar.MonthOfMonotone(p, x);
      Calendar.MonthOfMonotone(x, day);
    }
    if Calendar.MonthOf(p) < Calendar.MonthOf(day) {
      Calendar.EarlierMonthEarlierDay(p, day);
    }
  }

  /** The day of the month a number names: itself, or the last of a month too short for it. */
  ghost predicate Shows(d: int, n: nat) {
    Calendar.DayOf(d) == n || (Calendar.DayOf(d) < n && Calendar.DayOf(d + 1) == 1)
  }

  lemma ShowsIs(d: int, n: nat)
    requires n >= 1
    ensures Shows(d, n) <==> d == ClampedDay(Calendar.MonthOf(d), n)
  {
    var month := Calendar.MonthOf(d);
    Calendar.NextMonthStart(month);
    if Calendar.DayOf(d) == Calendar.MonthLength(month) {
      Calendar.MonthOfUnique(d + 1, month + 1);
    } else {
      Calendar.MonthOfUnique(d + 1, month);
    }
  }

  /** By the week: the latest listed weekday of the last seven days, if one is listed. */
  lemma PeriodByWeek(c: Cadence.Cadence, day: int, x: int)
    requires c.unit == Cadence.Weeks
    ensures PeriodFor(c, day).None? <==> c.weekdays == []
    ensures
      var found := PeriodFor(c, day);
      found.Some? ==>
        && day - 7 < found.value <= day && Calendar.Weekday(found.value) in c.weekdays
        && (found.value < x <= day ==> Calendar.Weekday(x) !in c.weekdays)
  {
    if c.weekdays != [] {
      var w := c.weekdays[0];
      var d := day - (Calendar.Weekday(day) - w) % 7;
      assert day - 7 < d <= day && Calendar.Weekday(d) == w && w in c.weekdays;
    }
  }

  /** By the day, by a month's last, and with no day named, there is none to be found. */
  lemma NoPeriodFound(c: Cadence.Cadence, day: int)
    requires
      || c.unit == Cadence.Days
      || (c.unit == Cadence.Years && c.yearly.None?)
      || (c.unit == Cadence.Months
          && (c.monthlyDays.None? || c.monthlyDays.value == [] || c.monthlyDays.value[0] == Cadence.LastDay))
    ensures PeriodFor(c, day).None?
  {
  }

  /** By the month, whatever day is listed first: the last day up to this one that shows it. */
  lemma PeriodByMonth(c: Cadence.Cadence, n: nat, day: int, x: int)
    requires c.unit == Cadence.Months && c.monthlyDays.Some? && |c.monthlyDays.value| > 0
    requires c.monthlyDays.value[0] == Cadence.Day(n) && n >= 1
    ensures PeriodFor(c, day).Some? && PeriodFor(c, day).value <= day && Shows(PeriodFor(c, day).value, n)
    ensures PeriodFor(c, day).value < x <= day ==> !Shows(x, n)
  {
    var p, month := PeriodFor(c, day).value, Calendar.MonthOf(day);
    ShowsIs(p, n);
    ShowsIs(x, n);
    if Calendar.MonthOf(p) < month {
      Calendar.EarlierMonthEarlierDay(p, day);
    }
    if p < x <= day {
      Calendar.MonthOfMonotone(p, x);
      Calendar.MonthOfMonotone(x, day);
    }
  }

  /** By the year: the last day up to this one of that month and that number; there is one
      for any number up to the 28th. */
  lemma PeriodByYear(c: Cadence.Cadence, m: nat, n: nat, day: int, x: int)
    requires c.unit == Cadence.Years && c.yearly == Some((m, n)) && 1 <= m <= 12
    ensures 1 <= n <= 28 ==> PeriodFor(c, day).Some?
    ensures
      var found := PeriodFor(c, day);
      found.Some? ==>
        && found.value <= day && OfTheYear(found.value, m, n)
        && (found.value < x <= day ==> !OfTheYear(x, m, n))
  {
    var year := Calendar.YearOfDay(day);
    var found := PeriodFor(c, day);
    if found.Some? {
      var p := found.value;
      if Calendar.MonthOf(p) < Calendar.MonthOf(day) {
        Calendar.EarlierMonthEarlierDay(p, day);
      }
      if p < x <= day && OfTheYear(x, m, n) {
        Calendar.MonthOfMonotone(p, x);
        Calendar.MonthOfMonotone(x, day);
        YearsApart(Calendar.MonthOf(p), Calendar.MonthOf(x), Calendar.MonthOf(day));
      }
    }
  }

  lemma YearsApart(p: int, x: int, day: int)
    requires p <= x <= day && p % 12 == x % 12 && p / 12 + 1 >= day / 12
    ensures x == p || (x == p + 12 && x / 12 == day / 12)
  {
  }

  ghost predicate OfTheYear(d: int, m: nat, n: nat) {
    Calendar.MonthOf(d) % 12 == m - 1 && Calendar.DayOf(d) == n
  }

  // ---------------------------------------------------------- the two lists

  datatype Action = CameThrough | CameThroughAmount(amount: int) | Defer | Skip

  ghost predicate DistinctIds(entries: seq<Entry>) {
    forall i, j :: 0 <= i < j < |entries| ==> entries[i].id != entries[j].id
  }

  /** No forecast sits before its period: deferring only ever puts one off. */
  ghost predicate PutOff(entries: seq<Entry>) {
    forall k :: 0 <= k < |entries| && entries[k].isBucket ==> Period(entries[k]) <= entries[k].date
  }

  /** A temporary id no record has: one below the lowest, and below nothing. */
  function NextRecordId(records: seq<Record>, n: nat): (id: int)
    requires n <= |records|
    ensures id < 0 && forall i :: 0 <= i < n ==> id < records[i].id
    ensures id == -1 || exists i :: 0 <= i < n && id == records[i].id - 1
  {
    if n == 0 then -1
    else
      var before := NextRecordId(records, n - 1);
      if records[n - 1].id <= before then records[n - 1].id - 1 else before
  }

  /** What spending with no forecast in reach takes from its period's record; a
      bill already settled is left alone. */
  function DirectlyTaken(records: seq<Record>, category: int, period: Option<int>, amount: int,
                         wageBill: bool): seq<Record> {
    if period.None? then records
    else
      match FindRecord(records, 0, category, period.value)
      case None => records
      case Some(j) =>
        if wageBill && records[j].amount <= 0 then records
        else TakenFromRecord(records, j, if wageBill then records[j].amount else amount)
  }

  function PeriodGiven(cadence: Option<Cadence.Cadence>, day: int): Option<int> {
    if cadence.Some? then PeriodFor(cadence.value, day) else None
  }

  /** What spending with no forecast to draw on does: takes itself, or for a bill all that is
      left, from the first record of its period; nothing with no cadence to tell the period
      by, no record of it, or a bill with nothing left. */
  ghost predicate TakesFromItsPeriod(before: seq<Record>, category: int, cadence: Option<Cadence.Cadence>, day: int,
                                     amount: int, wageBill: bool, after: seq<Record>)
  {
    after == before
    || (cadence.Some? && PeriodFor(cadence.value, day).Some?
        && exists j :: TakesAt(before, j, category, PeriodFor(cadence.value, day).value, amount, wageBill, after))
  }

  ghost predicate TakesAt(before: seq<Record>, j: int, category: int, period: int, amount: int, wageBill: bool,
                          after: seq<Record>)
  {
    && 0 <= j < |before| && before[j].category == category && before[j].date == period
    && (forall i :: 0 <= i < j ==> before[i].category != category || before[i].date != period)
    && (wageBill ==> before[j].amount > 0)
    && after == before[j := before[j].(amount := if wageBill then 0 else before[j].amount - amount)]
  }

  /** It takes nothing only when it has nothing to take from. */
  ghost predicate NothingToTake(before: seq<Record>, category: int, cadence: Option<Cadence.Cadence>, day: int,
                                wageBill: bool)
  {
    cadence.Some? && PeriodFor(cadence.value, day).Some? ==>
      forall j :: 0 <= j < |before| && before[j].category == category
                  && before[j].date == PeriodFor(cadence.value, day).value
                  && (forall i :: 0 <= i < j ==> before[i].category != category || before[i].date != before[j].date)
        ==> wageBill && before[j].amount <= 0
  }

  lemma DirectTells(records: seq<Record>, category: int, cadence: Option<Cadence.Cadence>, day: int, amount: int,
                    wageBill: bool)
    requires amount > 0
    ensures
      var after := DirectlyTaken(records, category, PeriodGiven(cadence, day), amount, wageBill);
      && TakesFromItsPeriod(records, category, cadence, day, amount, wageBill, after)
      && (after == records ==> NothingToTake(records, category, cadence, day, wageBill))
  {
    var after := DirectlyTaken(records, category, PeriodGiven(cadence, day), amount, wageBill);
    if cadence.Some? && PeriodFor(cadence.value, day).Some? {
      var period := PeriodFor(cadence.value, day).value;
      var j := FindRecord(records, 0, category, period);
      if j.Some? && !(wageBill && records[j.value].amount <= 0) {
        assert TakesAt(records, j.value, category, period, amount, wageBill, after);
        assert after[j.value].amount != records[j.value].amount;
      }
    }
  }

  /** What one answer makes of the two lists. */
  function Resolved(entries: seq<Entry>, records: seq<Record>, id: int, action: Action, until: int)
    : (seq<Entry>, seq<Record>)
  {
    match FindForecast(entries, 0, id)
    case None => (entries, records)
    case Some(k) =>
      var e := entries[k];
      match action
      case CameThrough => (entries[k := Confirmed(e, e.amount)], Settled(records, e))
      case CameThroughAmount(amount) =>
        if amount <= 0 then (entries, records) else (entries[k := Confirmed(e, amount)], Settled(records, e))
      case Defer => (entries[k := Deferred(e, until)], records)
      case Skip => (Without(entries, k), Settled(records, e))
  }

  /** What an answer makes of a forecast, in the row's own fields. */
  ghost predicate TellsOf(was: Entry, action: Action, until: int, now: Entry) {
    && now.id == was.id && now.category == was.category && now.recurring == was.recurring
    && match action
       case CameThrough =>
         !now.isBucket && now.processed && now.original.None? && now.date == was.date && now.anchor == was.anchor
         && now.amount == was.amount
       case CameThroughAmount(amount) =>
         !now.isBucket && now.processed && now.original.None? && now.date == was.date && now.anchor == was.anchor
         && now.amount == amount
       case Defer =>
         now.isBucket && now.processed == was.processed && now.original == was.original && now.amount == was.amount
         && now.date == until && now.anchor == Some(if was.anchor.Some? then was.anchor.value else was.date)
       case Skip => false
  }

  /** The first record of a forecast's category dated where it started or where it sits. */
  ghost predicate FirstRecordOf(records: seq<Record>, was: Entry, j: nat) {
    && j < |records| && records[j].category == was.category
    && (records[j].date == was.date || was.anchor == Some(records[j].date))
    && forall i :: 0 <= i < j && records[i].category == was.category ==>
                     records[i].date != was.date && was.anchor != Some(records[i].date)
  }

  /** One answer in plain terms: the row it was given to, the rows beside it, the record. */
  ghost predicate ToldBy(entries: seq<Entry>, records: seq<Record>, action: Action, until: int, k: nat,
                         after: seq<Entry>, left: seq<Record>)
    requires k < |entries|
  {
    && (action.Skip? ==> after == entries[..k] + entries[k + 1..])
    && (!action.Skip? ==>
          && |after| == |entries| && TellsOf(entries[k], action, until, after[k])
          && forall i :: 0 <= i < |entries| && i != k ==> after[i] == entries[i])
    && (action.Defer? ==> left == records)
    && (!action.Defer? ==>
          && (forall j: nat :: FirstRecordOf(records, entries[k], j) ==> left == records[..j] + records[j + 1..])
          && ((forall j: nat :: !FirstRecordOf(records, entries[k], j)) ==> left == records))
  }

  lemma ResolvedTells(entries: seq<Entry>, records: seq<Record>, id: int, action: Action, until: int, k: nat)
    requires DistinctIds(entries) && k < |entries| && entries[k].id == id && entries[k].isBucket
    requires action.CameThroughAmount? ==> action.amount > 0
    ensures
      var (after, left) := Resolved(entries, records, id, action, until);
      ToldBy(entries, records, action, until, k, after, left)
  {
    assert FindForecast(entries, 0, id) == Some(k);
    var e, j := entries[k], Settles(records, entries[k]);
    forall i: nat | FirstRecordOf(records, e, i) ensures j == Some(i) {
    }
    if j.Some? {
      assert FirstRecordOf(records, e, j.value);
    }
  }

  /** Whether spending falls straight on the record of a period still forecast. */
  predicate HitsAForecastPeriod(records: seq<Record>, category: int, period: Option<int>) {
    period.Some? && FindRecord(records, 0, category, period.value).Some?
    && records[FindRecord(records, 0, category, period.value).value].amount > 0
  }

  lemma DirectAgrees(entries: seq<Entry>, records: seq<Record>, category: int, period: Option<int>, amount: int,
                     wageBill: bool)
    requires Agree(entries, records) && amount > 0
    ensures Agree(entries, DirectlyTaken(records, category, period, amount, wageBill))
       <==> !HitsAForecastPeriod(records, category, period)
  {
    if period.Some? {
      var j := FindRecord(records, 0, category, period.value);
      if j.Some? && !(wageBill && records[j.value].amount <= 0) {
        TakingFromTheRecordAlone(entries, records, j.value, if wageBill then records[j.value].amount else amount);
      }
    }
  }

  // Every quarter on the 1st, 300 each.
  const QUARTERLY := Cadence.Cadence(3, Cadence.Months, [], Some([Cadence.Day(1)]), None)

  function TwoQuarters(one: int, next: int): seq<Entry> {
    [Entry(1, 7, one, 300, true, Some(300), None, Some(5), false),
     Entry(2, 7, next, 300, true, Some(300), None, Some(5), false)]
  }

  function TwoRecords(one: int, next: int): seq<Record> {
    [Record(-1, 7, one, 300, 300), Record(-2, 7, next, 300, 300)]
  }

  /** Stores that agree, two days with no forecast in reach, 20 spent on each: on the
      first the stores part, and the second leaves no trace. */
  ghost predicate Astray(entries: seq<Entry>, records: seq<Record>, day: int, period: Option<int>, later: int,
                         laterPeriod: Option<int>) {
    && Agree(entries, records) && DistinctIds(entries) && InOrder(records) && PutOff(entries)
    && IsNext(entries, 7, false, day, None) && IsNext(entries, 7, false, later, None)
    && !Agree(entries, DirectlyTaken(records, 7, period, 20, false))
    && DirectlyTaken(records, 7, laterPeriod, 20, false) == records
  }

  lemma QuarterlyPeriod(day: int, month: int)
    requires Calendar.InMonth(day, month)
    ensures PeriodFor(QUARTERLY, day) == Some(Calendar.MonthStart(month))
  {
    ByTheMonth(QUARTERLY, day, Cadence.Day(1));
    FirstOfMonth(day, month);
  }

  lemma ByTheMonth(c: Cadence.Cadence, day: int, first: Cadence.MonthDay)
    requires c.unit == Cadence.Months && c.monthlyDays == Some([first])
    ensures PeriodFor(c, day) == MonthlyPeriod(first, day)
  {
  }

  /** An allowance for a quarter, with the next one planned. Spending in the first
      month, past the 1st and more than 45 days from the next quarter, finds no
      forecast in reach and takes from the record, whose forecast still stands. In
      the second month it looks for a record of that month, which a quarter has not
      got, and is taken from nothing. */
  lemma QuarterlyAllowance(month: int, day: int, later: int)
    requires Calendar.InMonth(day, month) && Calendar.InMonth(later, month + 1)
    requires Calendar.MonthStart(month) < day < later < Calendar.MonthStart(month + 3) - FORWARD_WINDOW
    ensures Astray(TwoQuarters(Calendar.MonthStart(month), Calendar.MonthStart(month + 3)),
                   TwoRecords(Calendar.MonthStart(month), Calendar.MonthStart(month + 3)),
                   day, PeriodFor(QUARTERLY, day), later, PeriodFor(QUARTERLY, later))
  {
    QuarterlyPeriod(day, month);
    QuarterlyPeriod(later, month + 1);
    Calendar.NextMonthStart(month);
    Quarters(Calendar.MonthStart(month), Calendar.MonthStart(month + 3), Calendar.MonthStart(month + 1), day, later);
  }

  lemma Quarters(one: int, next: int, other: int, day: int, later: int)
    requires one < day < later < next - FORWARD_WINDOW && one != other && next != other
    ensures Astray(TwoQuarters(one, next), TwoRecords(one, next), day, Some(one), later, Some(other))
  {
    var entries, records := TwoQuarters(one, next), TwoRecords(one, next);
    QuartersAgree(one, next);
    NothingInReach(entries, 7, day);
    NothingInReach(entries, 7, later);
    TakenApart(entries, records, 7, one, other);
  }

  lemma NothingInReach(entries: seq<Entry>, category: int, today: int)
    requires NoneAdmitted(entries, Reaching(category, today))
    ensures IsNext(entries, category, false, today, None)
  {
  }

  /** One day the first record's, the other nobody's. */
  lemma {:induction false} TakenApart(entries: seq<Entry>, records: seq<Record>, category: int, day: int, other: int)
    requires Agree(entries, records) && |records| > 0 && records[0].category == category && records[0].date == day
    requires records[0].amount > 0 && forall j :: 0 <= j < |records| ==> records[j].date != other
    ensures !Agree(entries, DirectlyTaken(records, category, Some(day), 20, false))
    ensures DirectlyTaken(records, category, Some(other), 20, false) == records
  {
    DirectAgrees(entries, records, category, Some(day), 20, false);
  }

  lemma QuartersAgree(one: int, next: int)
    requires one < next
    ensures Agree(TwoQuarters(one, next), TwoRecords(one, next))
  {
    BooksOfTwo(TwoQuarters(one, next), EntryPart);
    BooksOfTwo(TwoRecords(one, next), RecordPart);
    assert Forecasts(TwoQuarters(one, next)) == map[(7, one) := 300, (7, next) := 300];
    assert Positive(Periods(TwoRecords(one, next))) == map[(7, one) := 300, (7, next) := 300];
  }

  lemma FirstDay(month: int)
    ensures ClampedDay(month, 1) == Calendar.MonthStart(month)
  {
  }

  lemma FirstOfMonth(day: int, month: int)
    requires Calendar.InMonth(day, month)
    ensures MonthlyPeriod(Cadence.Day(1), day) == Some(Calendar.MonthStart(month))
  {
    Calendar.MonthOfUnique(day, month);
    FirstDay(month);
  }

  lemma WithoutKeeps(entries: seq<Entry>, k: nat)
    requires k < |entries| && DistinctIds(entries) && PutOff(entries)
    ensures DistinctIds(Without(entries, k)) && PutOff(Without(entries, k))
  {
    var after := Without(entries, k);
    forall i | 0 <= i < |after| ensures after[i] == entries[if i < k then i else i + 1] {
    }
  }

  lemma SettledStaysInOrder(records: seq<Record>, e: Entry)
    requires InOrder(records)
    ensures InOrder(Settled(records, e))
  {
    var j := Settles(records, e);
    if j.Some? {
      var after := Without(records, j.value);
      forall i | 0 <= i < |after| ensures after[i] == records[if i < j.value then i else i + 1] {
      }
    }
  }

  /** The first forecast of the cell given the amount, or a new one. */
  function PlannedEntries(entries: seq<Entry>, category: int, date: int, amount: int, recurring: Option<int>,
                          newId: int): seq<Entry>
  {
    match FindInCell(entries, 0, category, date)
    case Some(k) => entries[k := entries[k].(amount := amount, processed := false)]
    case None => entries + [Entry(newId, category, date, amount, true, Some(amount), None, recurring, false)]
  }

  /** A period already on record keeps the record it has. */
  function PlannedRecords(records: seq<Record>, category: int, date: int, amount: int, id: int): seq<Record> {
    if FindRecord(records, 0, category, date).Some? then records
    else records + [Record(id, category, date, amount, amount)]
  }

  /** Neither the cell nor the period is taken, or both are, by a forecast of that
      amount already. */
  predicate PlansTogether(entries: seq<Entry>, records: seq<Record>, category: int, date: int, amount: int) {
    match FindInCell(entries, 0, category, date)
    case Some(k) => FindRecord(records, 0, category, date).Some? && entries[k].amount == amount
    case None => FindRecord(records, 0, category, date).None?
  }

  predicate LatestOfItsOwn(records: seq<Record>, category: int, date: int) {
    forall i :: 0 <= i < |records| && records[i].category == category ==> records[i].date < date
  }

  lemma NotOnRecord(records: seq<Record>, category: int, date: int)
    ensures (category, date) in Periods(records) <==> FindRecord(records, 0, category, date).Some?
  {
    BookHas(records, |records|, RecordPart, (category, date));
    forall i | 0 <= i < |records|
      ensures RecordPart(records[i]).value.0 == (category, date)
              <==> records[i].category == category && records[i].date == date
    {
    }
  }

  /** A forecast given another amount agrees with a record left as it was only if it is
      the amount it had. */
  lemma RestatedAgrees(entries: seq<Entry>, records: seq<Record>, k: nat, e: Entry)
    requires Agree(entries, records) && k < |entries| && entries[k].isBucket
    requires e == entries[k].(amount := e.amount, processed := e.processed)
    ensures Agree(entries[k := e], records) <==> e.amount == entries[k].amount
  {
    var key := (e.category, Period(e));
    Refigured(entries, EntryPart, k, e, |entries|);
    RefiguredDistinct(entries, EntryPart, k, e);
    BookAt(entries, |entries|, EntryPart, k);
    assert Forecasts(entries[k := e]) == Forecasts(entries)[key := e.amount];
    assert Forecasts(entries)[key] == entries[k].amount;
  }

  /** A record written for a period some other period's forecast sits on has none of its own. */
  lemma {:induction false} RecordAlone(entries: seq<Entry>, after: seq<Entry>, records: seq<Record>, record: Record)
    requires Agree(entries, records) && record.amount > 0
    requires FindRecord(records, 0, record.category, record.date).None?
    requires forall key :: key in Forecasts(after) ==> key in Forecasts(entries)
    ensures !Agree(after, records + [record])
  {
    var key := (record.category, record.date);
    NotOnRecord(records, record.category, record.date);
    Appended(records, RecordPart, record);
    PositivePut(Periods(records), key, record.amount);
    assert key in Positive(Periods(records + [record])) && key !in Forecasts(after);
  }

  /** A forecast written for a period that is on record is one too many. */
  lemma ForecastBeside(entries: seq<Entry>, records: seq<Record>, e: Entry)
    requires Agree(entries, records) && e.isBucket && FindRecord(records, 0, e.category, Period(e)).Some?
    ensures !Agree(entries + [e], records)
  {
    var key, after := (e.category, Period(e)), entries + [e];
    assert after[|entries|] == e;
    if key in Forecasts(entries) {
      BookHas(entries, |entries|, EntryPart, key);
      var i :| 0 <= i < |entries| && EntryPart(entries[i]).Some? && EntryPart(entries[i]).value.0 == key;
      assert SameKey(after[i], after[|entries|], EntryPart);
    } else if Distinct(after, EntryPart) {
      BookAt(after, |after|, EntryPart, |entries|);
      assert key in Forecasts(after) && key !in Positive(Periods(records));
    }
  }

  lemma BothWritten(entries: seq<Entry>, records: seq<Record>, e: Entry, record: Record)
    requires Agree(entries, records) && FindRecord(records, 0, record.category, record.date).None?
    requires EntryPart(e) == RecordPart(record) && record.amount > 0
    ensures Agree(entries + [e], records + [record])
  {
    var key := (record.category, record.date);
    NotOnRecord(records, record.category, record.date);
    assert key !in Forecasts(entries);
    Appended(records, RecordPart, record);
    Appended(entries, EntryPart, e);
    PositivePut(Periods(records), key, record.amount);
  }

  lemma {:induction false} SameKeys(entries: seq<Entry>, k: nat, e: Entry)
    requires Distinct(entries, EntryPart) && k < |entries| && entries[k].isBucket
    requires e == entries[k].(amount := e.amount, processed := e.processed)
    ensures forall key :: key in Forecasts(entries[k := e]) <==> key in Forecasts(entries)
  {
    Refigured(entries, EntryPart, k, e, |entries|);
    BookAt(entries, |entries|, EntryPart, k);
  }

  /** Planning a period leaves the stores agreeing exactly when cell and period are both
      free, or both taken and the forecast there is of that amount already. */
  lemma PlanAgrees(entries: seq<Entry>, records: seq<Record>, category: int, date: int, amount: int,
                   recurring: Option<int>, newId: int, id: int)
    requires Agree(entries, records) && amount > 0
    ensures Agree(PlannedEntries(entries, category, date, amount, recurring, newId),
                  PlannedRecords(records, category, date, amount, id))
            <==> PlansTogether(entries, records, category, date, amount)
  {
    var k, j := FindInCell(entries, 0, category, date), FindRecord(records, 0, category, date);
    var record := Record(id, category, date, amount, amount);
    var added := Entry(newId, category, date, amount, true, Some(amount), None, recurring, false);
    if k.Some? {
      var e := entries[k.value].(amount := amount, processed := false);
      if j.Some? {
        RestatedAgrees(entries, records, k.value, e);
      } else {
        SameKeys(entries, k.value, e);
        RecordAlone(entries, entries[k.value := e], records, record);
      }
    } else if j.Some? {
      ForecastBeside(entries, records, added);
    } else {
      BothWritten(entries, records, added, record);
    }
  }

  lemma {:induction false} OrderExtends(records: seq<Record>, record: Record)
    requires InOrder(records)
    ensures InOrder(records + [record]) <==>
      forall i :: 0 <= i < |records| && records[i].category == record.category ==> records[i].date < record.date
  {
    var after := records + [record];
    assert after[|records|] == record;
    if InOrder(after) {
      forall i | 0 <= i < |records| && records[i].category == record.category ensures records[i].date < record.date {
        assert after[i] == records[i];
      }
    }
  }

  lemma PutOffAt(entries: seq<Entry>, k: nat, until: int)
    requires PutOff(entries) && k < |entries| && entries[k].isBucket
    ensures PutOff(entries[k := Deferred(entries[k], until)]) <==> Period(entries[k]) <= until
  {
    var after := entries[k := Deferred(entries[k], until)];
    assert Period(after[k]) == Period(entries[k]) && after[k].date == until;
  }

  class Store {
    var entries: seq<Entry>
    var records: seq<Record>

    ghost predicate Valid()
      reads this
    {
      Agree(entries, records) && DistinctIds(entries) && InOrder(records) && PutOff(entries)
    }

    constructor ()
      ensures Valid() && entries == [] && records == []
    {
      entries, records := [], [];
    }

    /** create_bucket_record: a period already on record keeps the record it has. */
    method CreateRecord(category: int, date: int, amount: int) returns (id: int)
      modifies this`records
      ensures
        match FindRecord(old(records), 0, category, date)
        case Some(j) => id == old(records)[j].id && records == old(records)
        case None =>
          && records == old(records) + [Record(id, category, date, amount, amount)]
          && forall i :: 0 <= i < |old(records)| ==> id < old(records)[i].id
    {
      var j := FindRecord(records, 0, category, date);
      if j.Some? {
        return records[j.value].id;
      }
      id := NextRecordId(records, |records|);
      records := records + [Record(id, category, date, amount, amount)];
    }

    /** _create_bucket_entry_and_record: the forecast in the cell is given the amount, or
        one is added; and then the record, unless the period is on record already. */
    method Plan(category: int, date: int, amount: int, recurring: Option<int>, newId: int)
      requires Valid() && amount > 0 && forall i :: 0 <= i < |entries| ==> entries[i].id != newId
      modifies this
      ensures DistinctIds(entries) && PutOff(entries)
      ensures entries == PlannedEntries(old(entries), category, date, amount, recurring, newId)
      ensures exists id :: records == PlannedRecords(old(records), category, date, amount, id)
                           && forall i :: 0 <= i < |old(records)| ==> id < old(records)[i].id
      ensures Agree(entries, records) <==> PlansTogether(old(entries), old(records), category, date, amount)
      ensures Valid() <==>
        && PlansTogether(old(entries), old(records), category, date, amount)
        && (FindRecord(old(records), 0, category, date).None? ==> LatestOfItsOwn(old(records), category, date))
    {
      var k := FindInCell(entries, 0, category, date);
      if k.Some? {
        entries := entries[k.value := entries[k.value].(amount := amount, processed := false)];
      } else {
        entries := entries + [Entry(newId, category, date, amount, true, Some(amount), None, recurring, false)];
      }
      ghost var id := NextRecordId(records, |records|);
      var j := CreateRecord(category, date, amount);
      if FindRecord(old(records), 0, category, date).None? {
        id := j;
        OrderExtends(old(records), Record(id, category, date, amount, amount));
      }
      assert records == PlannedRecords(old(records), category, date, amount, id);
      PlanAgrees(old(entries), old(records), category, date, amount, recurring, newId, id);
    }

    /** subtract_from_bucket: true when nothing is left and the row is deleted. */
    method SubtractFromEntry(id: int, amount: int) returns (gone: bool)
      modifies this`entries
      ensures
        match FindForecast(old(entries), 0, id)
        case None => !gone && entries == old(entries)
        case Some(k) => entries == TakenFromEntry(old(entries), k, amount)
                        && gone == (old(entries)[k].amount - amount <= 0)
    {
      var k := FindForecast(entries, 0, id);
      if k.None? {
        return false;
      }
      gone := entries[k.value].amount - amount <= 0;
      if gone {
        entries := entries[..k.value] + entries[k.value + 1..];
      } else {
        entries := entries[k.value := entries[k.value].(amount := entries[k.value].amount - amount)];
      }
    }

    /** subtract_from_bucket_record_by_category_date: below nothing is allowed. */
    method SubtractFromRecord(category: int, date: int, amount: int) returns (depleted: bool)
      modifies this`records
      ensures
        match FindRecord(old(records), 0, category, date)
        case None => !depleted && records == old(records)
        case Some(j) =>
          records == TakenFromRecord(old(records), j, amount) && depleted == (old(records)[j].amount - amount <= 0)
    {
      var j := FindRecord(records, 0, category, date);
      if j.None? {
        return false;
      }
      records := records[j.value := records[j.value].(amount := records[j.value].amount - amount)];
      depleted := records[j.value].amount <= 0;
    }

    /** The forced deletion: every forecast row with the id. */
    method ForceDelete(id: int)
      modifies this`entries
      ensures FindForecast(old(entries), 0, id).None? ==> entries == old(entries)
    {
      var kept := [];
      for k := 0 to |entries|
        invariant FindForecast(entries, 0, id).None? ==> kept == entries[..k]
      {
        if !(entries[k].id == id && entries[k].isBucket) {
          kept := kept + [entries[k]];
        }
      }
      entries := kept;
    }

    /** process_manual_entry_with_bucket: which forecast was drawn on, if any. The
        period of spending that finds none is looked up when a cadence is given. */
    method Deplete(category: int, entryDate: int, amount: int, today: int, asOf: Option<int>, wageBill: bool,
                   cadence: Option<Cadence.Cadence>)
      returns (k: Option<nat>)
      requires Valid() && amount > 0
      modifies this
      ensures entryDate > today ==> k.None? && entries == old(entries) && records == old(records)
      ensures entryDate <= today ==>
        IsNext(old(entries), category, wageBill, if asOf.Some? then asOf.value else today, k)
      ensures entryDate <= today ==>
        Draws(old(entries), category, wageBill, if asOf.Some? then asOf.value else today, k)
      ensures k.Some? ==> k.value < |old(entries)| && IsCandidate(old(entries)[k.value], category)
      ensures k.Some? ==>
        var e := old(entries)[k.value];
        var taken := if wageBill then e.amount else amount;
        && entries == TakenFromEntry(old(entries), k.value, taken)
        && FindRecord(old(records), 0, category, Period(e)).Some?
        && records == TakenFromRecord(old(records), FindRecord(old(records), 0, category, Period(e)).value, taken)
      ensures k.None? && entryDate <= today ==>
        && entries == old(entries)
        && records == DirectlyTaken(old(records), category, PeriodGiven(cadence, entryDate), amount, wageBill)
        && TakesFromItsPeriod(old(records), category, cadence, entryDate, amount, wageBill, records)
        && (records == old(records) ==> NothingToTake(old(records), category, cadence, entryDate, wageBill))
      ensures Valid() <==>
        k.Some? || entryDate > today || !HitsAForecastPeriod(old(records), category, PeriodGiven(cadence, entryDate))
    {
      if entryDate > today {
        return None;
      }
      k := FindNext(entries, category, wageBill, if asOf.Some? then asOf.value else today);
      if k.Some? {
        DrawOn(k.value, category, amount, wageBill);
      } else {
        var period := PeriodGiven(cadence, entryDate);
        DirectTells(records, category, cadence, entryDate, amount, wageBill);
        DirectAgrees(entries, records, category, period, amount, wageBill);
        TakeDirectly(category, period, amount, wageBill);
      }
    }

    method DrawOn(k: nat, category: int, amount: int, wageBill: bool)
      requires Valid() && amount > 0 && k < |entries| && IsCandidate(entries[k], category)
      modifies this
      ensures Valid()
      ensures
        var e := old(entries)[k];
        var taken := if wageBill then e.amount else amount;
        && entries == TakenFromEntry(old(entries), k, taken)
        && FindRecord(old(records), 0, category, Period(e)).Some?
        && records == TakenFromRecord(old(records), FindRecord(old(records), 0, category, Period(e)).value, taken)
    {
      var e := entries[k];
      assert FindForecast(entries, 0, e.id) == Some(k);
      var own := FindRecord(records, 0, category, Period(e));
      var gone := SubtractFromEntry(e.id, if wageBill then e.amount else amount);
      if own.Some? {
        var depleted := SubtractFromRecord(category, Period(e), if wageBill then records[own.value].amount else amount);
        if !gone && depleted {
          ForceDelete(e.id);
        }
      }
      EntryHasItsRecord(old(entries), old(records), k);
      TakingBothAgrees(old(entries), old(records), k, own.value, if wageBill then e.amount else amount);
      TakingKeepsTheRest(old(entries), old(records), k, own.value, if wageBill then e.amount else amount);
    }

    method TakeDirectly(category: int, period: Option<int>, amount: int, wageBill: bool)
      requires InOrder(records)
      modifies this`records
      ensures records == DirectlyTaken(old(records), category, period, amount, wageBill) && InOrder(records)
    {
      if period.Some? {
        var j := FindRecord(records, 0, category, period.value);
        if j.Some? && !(wageBill && records[j.value].amount <= 0) {
          var depleted := SubtractFromRecord(category, period.value,
                                             if wageBill then records[j.value].amount else amount);
        }
      }
    }

    /** resolve: one of the four answers to one forecast; false when the forecast
        is already gone or the amount is not one. */
    method Resolve(id: int, action: Action, until: int) returns (changed: bool)
      requires Valid()
      modifies this
      ensures Agree(entries, records) && DistinctIds(entries) && InOrder(records)
      ensures Valid() <==> !action.Defer? || FindForecast(old(entries), 0, id).None?
                           || Period(old(entries)[FindForecast(old(entries), 0, id).value]) <= until
      ensures (entries, records) == Resolved(old(entries), old(records), id, action, until)
      ensures changed <==> FindForecast(old(entries), 0, id).Some? && !(action.CameThroughAmount? && action.amount <= 0)
      ensures !changed ==> entries == old(entries) && records == old(records)
      ensures forall k :: changed && 0 <= k < |old(entries)| && old(entries)[k].id == id && old(entries)[k].isBucket ==>
                ToldBy(old(entries), old(records), action, until, k, entries, records)
    {
      var k := FindForecast(entries, 0, id);
      if k.None? || (action.CameThroughAmount? && action.amount <= 0) {
        return false;
      }
      changed := true;
      match action {
        case CameThrough => Confirm(k.value, entries[k.value].amount);
        case CameThroughAmount(amount) => Confirm(k.value, amount);
        case Defer => PutOffUntil(k.value, until);
        case Skip => Remove(k.value);
      }
      ResolvedTells(old(entries), old(records), id, action, until, k.value);
    }

    /** _apply_to_record with the record dropped. */
    method SettleRecord(category: int, period: int, date: int) returns (touched: bool)
      modifies this`records
      ensures
        var j := FindEither(old(records), 0, category, period, date);
        touched == j.Some? && records == if j.Some? then Without(old(records), j.value) else old(records)
    {
      var kept := [];
      touched := false;
      ghost var j := FindEither(records, 0, category, period, date);
      for i := 0 to |records|
        invariant touched <==> j.Some? && j.value < i
        invariant kept == if touched then records[..j.value] + records[j.value + 1..i] else records[..i]
      {
        if !touched && records[i].category == category && records[i].date in {period, date} {
          touched := true;
        } else {
          kept := kept + [records[i]];
        }
      }
      if touched {
        records := kept;
      }
    }

    method Confirm(k: nat, amount: int)
      requires Valid() && k < |entries| && entries[k].isBucket
      modifies this
      ensures Valid()
      ensures entries == old(entries)[k := Confirmed(old(entries)[k], amount)]
      ensures records == Settled(old(records), old(entries)[k])
    {
      var e := entries[k];
      OwnRecordFirst(entries, records, k);
      AnswerAgrees(entries, records, k, entries[k := Confirmed(e, amount)]);
      SettledStaysInOrder(records, e);
      entries := entries[k := Confirmed(e, amount)];
      var touched := SettleRecord(e.category, Period(e), e.date);
    }

    method Remove(k: nat)
      requires Valid() && k < |entries| && entries[k].isBucket
      modifies this
      ensures Valid()
      ensures entries == Without(old(entries), k) && records == Settled(old(records), old(entries)[k])
    {
      var e := entries[k];
      OwnRecordFirst(entries, records, k);
      AnswerAgrees(entries, records, k, Without(entries, k));
      SettledStaysInOrder(records, e);
      WithoutKeeps(entries, k);
      entries := entries[..k] + entries[k + 1..];
      var touched := SettleRecord(e.category, Period(e), e.date);
    }

    method PutOffUntil(k: nat, until: int)
      requires Valid() && k < |entries| && entries[k].isBucket
      modifies this
      ensures Agree(entries, records) && DistinctIds(entries) && InOrder(records)
      ensures Valid() <==> Period(old(entries)[k]) <= until
      ensures entries == old(entries)[k := Deferred(old(entries)[k], until)] && records == old(records)
    {
      DeferralAgrees(entries, records, k, until);
      PutOffAt(entries, k, until);
      var e := entries[k];
      if e.anchor.None? {
        e := e.(anchor := Some(Period(e)));
      }
      entries := entries[k := e.(date := until)];
    }
  }

  lemma TakingKeepsTheRest(entries: seq<Entry>, records: seq<Record>, k: nat, j: nat, amount: int)
    requires k < |entries| && j < |records| && DistinctIds(entries) && PutOff(entries) && InOrder(records)
    ensures DistinctIds(TakenFromEntry(entries, k, amount)) && PutOff(TakenFromEntry(entries, k, amount))
    ensures InOrder(TakenFromRecord(records, j, amount))
  {
    if entries[k].amount - amount <= 0 {
      WithoutKeeps(entries, k);
    }
  }

  // ------------------------------------------------------------ restoring

  function Capped(amount: int, cap: int): int {
    if amount <= cap then amount else cap
  }

  /** add_to_bucket_record_by_category_date, on the record it found: never past
      the plan, and a forecast again once it is above nothing. */
  function ToppedUp(entries: seq<Entry>, records: seq<Record>, j: nat, amount: int, newId: int, recurring: Option<int>)
    : (seq<Entry>, seq<Record>)
    requires j < |records|
  {
    var r := records[j];
    var left := Capped(r.amount + amount, r.original);
    (if r.amount <= 0 < left
     then entries + [Entry(newId, r.category, r.date, left, true, Some(r.original), None, recurring, false)]
     else entries,
     records[j := r.(amount := left)])
  }

  /** The first forecast of a category sitting on a day. */
  function FindOnDay(entries: seq<Entry>, n: nat, category: int, date: int): (k: Option<nat>)
    requires n <= |entries|
    ensures k.Some? ==> n <= k.value < |entries| && entries[k.value].isBucket
                        && entries[k.value].category == category && entries[k.value].date == date
    ensures forall i :: n <= i < (if k.Some? then k.value else |entries|) ==>
                          !(entries[i].isBucket && entries[i].category == category && entries[i].date == date)
    decreases |entries| - n
  {
    if n == |entries| then None
    else if entries[n].isBucket && entries[n].category == category && entries[n].date == date then Some(n)
    else FindOnDay(entries, n + 1, category, date)
  }

  /** What is added to a forecast found on the record's day: what was given back,
      or for a bill whatever it is short of. */
  function AddedBack(e: Entry, amount: int, wageBill: bool): Entry {
    var plan := if e.original.Some? then e.original.value else 0;
    var more := if wageBill then plan - e.amount else amount;
    if wageBill && more <= 0 then e else e.(amount := Capped(e.amount + more, plan))
  }

  /** restore_bucket_for_deleted_entry_v2, once it has found a depleted record. */
  function Restored(entries: seq<Entry>, records: seq<Record>, j: nat, amount: int, wageBill: bool, newId: int,
                    recurring: Option<int>): (seq<Entry>, seq<Record>)
    requires j < |records|
  {
    var r := records[j];
    var more := if wageBill then r.original - r.amount else amount;
    var (rows, kept) := if more > 0 then ToppedUp(entries, records, j, more, newId, recurring) else (entries, records);
    match FindOnDay(rows, 0, r.category, r.date)
    case Some(k) => (rows[k := AddedBack(rows[k], amount, wageBill)], kept)
    case None =>
      if kept[j].amount > 0
      then (rows + [Entry(newId, r.category, r.date, kept[j].amount, true, Some(r.original), None, None, false)], kept)
      else (rows, kept)
  }

  /** What a forecast found on the day is left with: for a bill the whole plan, or more when it
      holds more; else the amount added, as far as the plan goes. A plan nobody set is none. */
  ghost predicate GivenBack(e: Entry, amount: int, wageBill: bool, after: Entry) {
    var plan := if e.original.Some? then e.original.value else 0;
    && after == e.(amount := after.amount)
    && (wageBill ==> after.amount == if e.amount < plan then plan else e.amount)
    && (!wageBill && e.amount + amount <= plan ==> after.amount == e.amount + amount)
    && (!wageBill && e.amount + amount > plan ==> after.amount == plan)
  }

  /** The first forecast of a category on a day. */
  ghost predicate FirstOn(entries: seq<Entry>, category: int, date: int, k: int) {
    && 0 <= k < |entries| && entries[k].isBucket && entries[k].category == category && entries[k].date == date
    && forall i :: 0 <= i < k ==> !(entries[i].isBucket && entries[i].category == category && entries[i].date == date)
  }

  /** What giving an amount back makes of both lists, figure by figure. The record gains it, as
      far as its plan goes, or all of its plan for a bill. A record that comes above nothing
      again has a forecast written for what it then holds; and then the first forecast on its
      day, which may be that one, is given the amount too, or one is written for what the
      record holds when there is none. */
  lemma {:induction false} RestoredTells(entries: seq<Entry>, records: seq<Record>, j: nat, amount: int,
                                         wageBill: bool, newId: int, recurring: Option<int>)
    returns (left: int, written: seq<Entry>)
    requires j < |records| && records[j].amount < records[j].original && amount > 0
    ensures left == (if wageBill || records[j].amount + amount > records[j].original then records[j].original
                     else records[j].amount + amount)
    ensures Restored(entries, records, j, amount, wageBill, newId, recurring).1
         == records[j := Record(records[j].id, records[j].category, records[j].date, left, records[j].original)]
    ensures
      var r := records[j];
      var again := Entry(newId, r.category, r.date, left, true, Some(r.original), None, recurring, false);
      written == entries + if r.amount <= 0 && left > 0 then [again] else []
    ensures
      var r, rows := records[j], Restored(entries, records, j, amount, wageBill, newId, recurring).0;
      var plain := Entry(newId, r.category, r.date, left, true, Some(r.original), None, None, false);
      && (forall k :: FirstOn(written, r.category, r.date, k) ==>
            |rows| == |written| && GivenBack(written[k], amount, wageBill, rows[k]) && rows == written[k := rows[k]])
      && ((forall k :: !FirstOn(written, r.category, r.date, k)) ==>
            rows == written + if left > 0 then [plain] else [])
  {
    var r := records[j];
    left := if wageBill || r.amount + amount > r.original then r.original else r.amount + amount;
    var again := Entry(newId, r.category, r.date, left, true, Some(r.original), None, recurring, false);
    written := entries + if r.amount <= 0 && left > 0 then [again] else [];
    var found := FindOnDay(written, 0, r.category, r.date);
    assert found.Some? ==> FirstOn(written, r.category, r.date, found.value);
    assert entries + [] == entries && written + [] == written;
  }

  /** What the record comes to with the amount given back: a bill's whole plan. */
  function LeftAfter(r: Record, amount: int, wageBill: bool): int {
    Capped(if wageBill then r.original else r.amount + amount, r.original)
  }

  /** When giving an amount back leaves the stores agreeing, by what sits on the
      record's day before it. A period still forecast has to have its own forecast
      there, brought to the same figure. A spent one must disturb no other forecast
      that sits there, and comes back once: with nothing, or with its whole plan. */
  predicate RestoresInStep(entries: seq<Entry>, r: Record, amount: int, wageBill: bool) {
    var k := FindOnDay(entries, 0, r.category, r.date);
    var left := LeftAfter(r, amount, wageBill);
    if r.amount > 0 then
      k.Some? && Period(entries[k.value]) == r.date && AddedBack(entries[k.value], amount, wageBill).amount == left
    else if k.Some? then AddedBack(entries[k.value], amount, wageBill) == entries[k.value]
    else left <= 0 || left == r.original
  }

  /** Restoring keeps the stores agreeing exactly then. */
  lemma RestoringAgrees(entries: seq<Entry>, records: seq<Record>, j: nat, amount: int, wageBill: bool, newId: int,
                        recurring: Option<int>)
    requires Agree(entries, records) && j < |records| && records[j].amount < records[j].original && amount > 0
    ensures
      var (rows, kept) := Restored(entries, records, j, amount, wageBill, newId, recurring);
      Agree(rows, kept) <==> RestoresInStep(entries, records[j], amount, wageBill)
  {
    if records[j].amount > 0 {
      RestoringALivePeriod(entries, records, j, amount, wageBill, newId, recurring);
    } else if FindOnDay(entries, 0, records[j].category, records[j].date).Some? {
      RestoringBesideAnother(entries, records, j, amount, wageBill, newId, recurring);
    } else if LeftAfter(records[j], amount, wageBill) > 0 {
      RestoringASpentPeriod(entries, records, j, amount, wageBill, newId, recurring);
    } else {
      RecordRefigured(records, j, LeftAfter(records[j], amount, wageBill));
      SpentIsNotForecast(entries, records, j);
    }
  }

  lemma EntryRefigured(entries: seq<Entry>, k: nat, amount: int)
    requires Distinct(entries, EntryPart) && k < |entries| && entries[k].isBucket
    ensures Distinct(entries[k := entries[k].(amount := amount)], EntryPart)
    ensures Forecasts(entries[k := entries[k].(amount := amount)])
         == Forecasts(entries)[(entries[k].category, Period(entries[k])) := amount]
  {
    Refigured(entries, EntryPart, k, entries[k].(amount := amount), |entries|);
    RefiguredDistinct(entries, EntryPart, k, entries[k].(amount := amount));
  }

  lemma PutTellsApart(book: map<Key, int>, key: Key, one: int, two: int)
    ensures book[key := one] == book[key := two] <==> one == two
  {
    assert book[key := one][key] == one && book[key := two][key] == two;
  }

  /** The forecast written for a record that comes above nothing again. */
  function Recreated(r: Record, left: int, newId: int, recurring: Option<int>): Entry {
    Entry(newId, r.category, r.date, left, true, Some(r.original), None, recurring, false)
  }

  lemma RestoredBeside(entries: seq<Entry>, records: seq<Record>, j: nat, amount: int, wageBill: bool, newId: int,
                       recurring: Option<int>, k: nat)
    requires j < |records| && records[j].amount <= 0 && records[j].amount < records[j].original && amount > 0
    requires FindOnDay(entries, 0, records[j].category, records[j].date) == Some(k)
    ensures
      var r, left := records[j], LeftAfter(records[j], amount, wageBill);
      Restored(entries, records, j, amount, wageBill, newId, recurring)
      == (entries[k := AddedBack(entries[k], amount, wageBill)]
          + (if left > 0 then [Recreated(r, left, newId, recurring)] else []),
          records[j := r.(amount := left)])
  {
    var r, left := records[j], LeftAfter(records[j], amount, wageBill);
    var row, back := Recreated(r, left, newId, recurring), AddedBack(entries[k], amount, wageBill);
    if left > 0 {
      FoundBefore(entries, 0, row, r.category, r.date);
      assert (entries + [row])[k := back] == entries[k := back] + [row];
    } else {
      assert entries[k := back] + [] == entries[k := back];
    }
  }

  /** With another period's forecast on the day, that one is added to as well. */
  lemma RestoringBesideAnother(entries: seq<Entry>, records: seq<Record>, j: nat, amount: int, wageBill: bool,
                               newId: int, recurring: Option<int>)
    requires Agree(entries, records) && j < |records| && records[j].amount < records[j].original && amount > 0
    requires records[j].amount <= 0 && FindOnDay(entries, 0, records[j].category, records[j].date).Some?
    ensures
      var (rows, kept) := Restored(entries, records, j, amount, wageBill, newId, recurring);
      Agree(rows, kept) <==> RestoresInStep(entries, records[j], amount, wageBill)
  {
    var r, k := records[j], FindOnDay(entries, 0, records[j].category, records[j].date).value;
    RestoredBeside(entries, records, j, amount, wageBill, newId, recurring, k);
    SpentIsNotForecast(entries, records, j);
    BesideAgrees(entries, records, j, LeftAfter(r, amount, wageBill), k, AddedBack(entries[k], amount, wageBill).amount,
                 newId, recurring);
  }

  lemma PutsCommute(book: map<Key, int>, one: Key, x: int, two: Key, y: int)
    requires one != two
    ensures book[one := x][two := y] == book[two := y][one := x]
  {
  }

  lemma BesideAgrees(entries: seq<Entry>, records: seq<Record>, j: nat, left: int, k: nat, more: int, newId: int,
                     recurring: Option<int>)
    requires Agree(entries, records) && j < |records| && k < |entries| && entries[k].isBucket
    requires (records[j].category, records[j].date) !in Forecasts(entries)
    ensures
      var r := records[j];
      Agree(entries[k := entries[k].(amount := more)]
            + (if left > 0 then [Recreated(r, left, newId, recurring)] else []),
            records[j := r.(amount := left)])
      <==> more == entries[k].amount
  {
    var r, e := records[j], entries[k];
    var moved := entries[k := e.(amount := more)];
    RecordRefigured(records, j, left);
    EntryRefigured(entries, k, more);
    BookAt(entries, |entries|, EntryPart, k);
    if left > 0 {
      Appended(moved, EntryPart, Recreated(r, left, newId, recurring));
    } else {
      assert moved + [] == moved;
    }
    BesideBooks(Forecasts(entries), (r.category, r.date), left, (e.category, Period(e)), more);
  }

  lemma BesideBooks(book: map<Key, int>, key: Key, left: int, other: Key, more: int)
    requires key !in book && other in book
    ensures left > 0 ==> (book[other := more][key := left] == book[key := left] <==> more == book[other])
    ensures left <= 0 ==> (book[other := more] == book - {key} <==> more == book[other])
  {
    assert book == book[other := book[other]] == book - {key};
    PutTellsApart(book, other, more, book[other]);
    PutsCommute(book, other, more, key, left);
    assert book[key := left] == book[key := left][other := book[other]];
    PutTellsApart(book[key := left], other, more, book[other]);
  }

  lemma {:induction false} FoundBefore(entries: seq<Entry>, n: nat, row: Entry, category: int, date: int)
    requires n <= |entries| && FindOnDay(entries, n, category, date).Some?
    ensures FindOnDay(entries + [row], n, category, date) == FindOnDay(entries, n, category, date)
    decreases |entries| - n
  {
    if !(entries[n].isBucket && entries[n].category == category && entries[n].date == date) {
      FoundBefore(entries, n + 1, row, category, date);
    }
  }

  lemma RestoredLive(entries: seq<Entry>, records: seq<Record>, j: nat, amount: int, wageBill: bool, newId: int,
                     recurring: Option<int>)
    requires j < |records| && 0 < records[j].amount < records[j].original && amount > 0
    ensures
      var r, left := records[j], LeftAfter(records[j], amount, wageBill);
      var at := FindOnDay(entries, 0, r.category, r.date);
      && left > r.amount
      && Restored(entries, records, j, amount, wageBill, newId, recurring)
         == (if at.Some? then entries[at.value := AddedBack(entries[at.value], amount, wageBill)]
             else entries + [Recreated(r, left, newId, None)],
             records[j := r.(amount := left)])
  {
  }

  /** A period still forecast: looked for on its own day, and so missed once it has
      been put off; a second forecast is then written for it. */
  lemma RestoringALivePeriod(entries: seq<Entry>, records: seq<Record>, j: nat, amount: int, wageBill: bool,
                             newId: int, recurring: Option<int>)
    requires Agree(entries, records) && j < |records| && 0 < records[j].amount < records[j].original && amount > 0
    ensures
      var (rows, kept) := Restored(entries, records, j, amount, wageBill, newId, recurring);
      Agree(rows, kept) <==> RestoresInStep(entries, records[j], amount, wageBill)
  {
    var r, at := records[j], FindOnDay(entries, 0, records[j].category, records[j].date);
    RestoredLive(entries, records, j, amount, wageBill, newId, recurring);
    if at.Some? {
      LiveFound(entries, records, j, LeftAfter(r, amount, wageBill), at.value,
                AddedBack(entries[at.value], amount, wageBill).amount);
    } else {
      LiveIsForecast(entries, records, j);
      TwiceOver(entries, Recreated(r, LeftAfter(r, amount, wageBill), newId, None));
    }
  }

  lemma LiveIsForecast(entries: seq<Entry>, records: seq<Record>, j: nat)
    requires Agree(entries, records) && j < |records| && records[j].amount > 0
    ensures
      var key := (records[j].category, records[j].date);
      key in Forecasts(entries) && Forecasts(entries)[key] == records[j].amount
  {
    BookAt(records, |records|, RecordPart, j);
  }

  lemma LiveFound(entries: seq<Entry>, records: seq<Record>, j: nat, left: int, k: nat, more: int)
    requires Agree(entries, records) && j < |records| && 0 < records[j].amount < left
    requires k < |entries| && entries[k].isBucket && entries[k].category == records[j].category
    ensures Agree(entries[k := entries[k].(amount := more)], records[j := records[j].(amount := left)])
            <==> Period(entries[k]) == records[j].date && more == left
  {
    var key, own := (records[j].category, records[j].date), (entries[k].category, Period(entries[k]));
    LiveIsForecast(entries, records, j);
    RecordRefigured(records, j, left);
    EntryRefigured(entries, k, more);
    PutTellsApart(Forecasts(entries), key, more, left);
    assert own != key ==> Forecasts(entries)[own := more][key] != left;
    assert Forecasts(entries)[key := left][key] == left;
  }

  lemma TwiceOver(entries: seq<Entry>, row: Entry)
    requires EntryPart(row).Some? && EntryPart(row).value.0 in Forecasts(entries)
    ensures !Distinct(entries + [row], EntryPart)
  {
    BookHas(entries, |entries|, EntryPart, EntryPart(row).value.0);
    var i :| 0 <= i < |entries|
             && EntryPart(entries[i]).Some? && EntryPart(entries[i]).value.0 == EntryPart(row).value.0;
    assert (entries + [row])[i] == entries[i] && (entries + [row])[|entries|] == row;
    assert SameKey(entries[i], row, EntryPart);
  }

  /** Giving an allowance back so much that its spent record comes above nothing
      again adds the amount to the recreated forecast a second time: the stores
      go on agreeing exactly when that was the whole plan anyway. A bill's
      always do. */
  lemma RestoringASpentPeriod(entries: seq<Entry>, records: seq<Record>, j: nat, amount: int, wageBill: bool,
                              newId: int, recurring: Option<int>)
    requires Agree(entries, records) && j < |records| && records[j].amount <= 0 && amount > 0
    requires LeftAfter(records[j], amount, wageBill) > 0
    requires FindOnDay(entries, 0, records[j].category, records[j].date).None?
    ensures
      var (rows, kept) := Restored(entries, records, j, amount, wageBill, newId, recurring);
      Agree(rows, kept) <==> LeftAfter(records[j], amount, wageBill) == records[j].original
  {
    var r := records[j];
    var key, left := (r.category, r.date), LeftAfter(r, amount, wageBill);
    var row := Entry(newId, r.category, r.date, left, true, Some(r.original), None, recurring, false);
    var shown := AddedBack(row, amount, wageBill);
    FoundAtTheEnd(entries, 0, row);
    assert (entries + [row])[|entries| := shown] == entries + [shown];
    SpentIsNotForecast(entries, records, j);
    Appended(entries, EntryPart, shown);
    RecordRefigured(records, j, left);
    PutTellsApart(Forecasts(entries), key, shown.amount, left);
  }

  /** An allowance of 300 all spent, 20 of it given back: the record has 20, and its
      forecast comes back with 40. */
  lemma GivenBackTwice()
    ensures
      var records := [Record(-1, 7, 30, 0, 300)];
      var (rows, kept) := Restored([], records, 0, 20, false, 5, None);
      Agree([], records) && !Agree(rows, kept) && kept[0].amount == 20 && |rows| == 1 && rows[0].amount == 40
  {
    var records := [Record(-1, 7, 30, 0, 300)];
    assert Periods(records) == Book(records, 0, RecordPart)[(7, 30) := 0];
    RestoringAgrees([], records, 0, 20, false, 5, None);
  }

  /** A forecast of 300 with 100 of it left, put off from its day: 20 given back is
      written as a second forecast of the period, for 120 beside the 100. */
  lemma GivenBackBeside()
    ensures
      var e := Entry(1, 7, 35, 100, true, Some(300), Some(30), None, false);
      var records := [Record(-1, 7, 30, 100, 300)];
      var (rows, kept) := Restored([e], records, 0, 20, false, 5, None);
      && Agree([e], records) && !Agree(rows, kept) && kept[0].amount == 120
      && |rows| == 2 && rows[0] == e && rows[1].amount == 120 && Period(rows[1]) == Period(e)
  {
    var e := Entry(1, 7, 35, 100, true, Some(300), Some(30), None, false);
    var records := [Record(-1, 7, 30, 100, 300)];
    assert Forecasts([e]) == Book([e], 0, EntryPart)[(7, 30) := 100];
    assert Periods(records) == Book(records, 0, RecordPart)[(7, 30) := 100];
    RestoringAgrees([e], records, 0, 20, false, 5, None);
  }

  lemma {:induction false} FoundAtTheEnd(entries: seq<Entry>, n: nat, row: Entry)
    requires n <= |entries| && row.isBucket && FindOnDay(entries, n, row.category, row.date).None?
    ensures FindOnDay(entries + [row], n, row.category, row.date) == Some(|entries|)
    decreases |entries| - n
  {
    if n < |entries| {
      FoundAtTheEnd(entries, n + 1, row);
    }
  }

  lemma SpentIsNotForecast(entries: seq<Entry>, records: seq<Record>, j: nat)
    requires Agree(entries, records) && j < |records| && records[j].amount <= 0
    ensures (records[j].category, records[j].date) !in Forecasts(entries)
  {
    BookAt(records, |records|, RecordPart, j);
  }

  /** set_bucket_record_amount: the plan moves, and what was spent stays spent. */
  method RestateRecord(records: seq<Record>, category: int, date: int, original: int) returns (after: seq<Record>,
                       found: bool)
    ensures found <==> FindRecord(records, 0, category, date).Some?
    ensures |after| == |records| && forall i :: 0 <= i < |records| ==>
      after[i] == if FindRecord(records, 0, category, date) == Some(i)
                  then records[i].(original := original, amount := original - (records[i].original - records[i].amount))
                  else records[i]
  {
    after, found := records, false;
    for i := 0 to |records|
      invariant after == records && !found
      invariant forall k :: 0 <= k < i ==> !(records[k].category == category && records[k].date == date)
    {
      if records[i].category == category && records[i].date == date {
        var spent := records[i].original - records[i].amount;
        after := records[i := records[i].(original := original, amount := original - spent)];
        return after, true;
      }
    }
  }
}
