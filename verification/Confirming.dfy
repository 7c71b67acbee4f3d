/** auto_balance.py, confirm_pending_buckets over bucket_confirmation.py: answering
    yes to every forecast that is due, one at a time, the list read again after
    each answer. The three entry tables are three pairs of stores. */
module Confirming {
  import opened Wrappers
  import opened Sorting
  import opened Ledger
  import opened Buckets

  datatype Table = Income | Expense | Cards

  /** What the bank feed answers for on a table: nothing, all of it, or some of its
      categories. */
  datatype Feed = NotFed | AllFed | FedFor(categories: set<int>)

  /** One line of the prompt; `name` is the category's place in the alphabet. */
  datatype Item = Item(table: Table, id: int, date: int, name: int)

  // ---------------------------------------------------------- what is pending

  predicate Answers(feed: Feed, category: int) {
    match feed
    case NotFed => false
    case AllFed => true
    case FedFor(categories) => category in categories
  }

  predicate IsPending(feed: Feed, e: Entry, onDate: int) {
    e.isBucket && e.amount > 0 && e.date <= onDate && !Answers(feed, e.category)
  }

  function ItemOf(table: Table, e: Entry, names: int -> int): Item {
    Item(table, e.id, e.date, names(e.category))
  }

  /** The pending forecasts among the first n rows of a table. */
  function PendingIn(table: Table, feed: Feed, names: int -> int, rows: seq<Entry>, onDate: int, n: nat): seq<Item>
    requires n <= |rows|
  {
    if n == 0 then []
    else
      PendingIn(table, feed, names, rows, onDate, n - 1)
      + if IsPending(feed, rows[n - 1], onDate) then [ItemOf(table, rows[n - 1], names)] else []
  }

  /** Newest first, then by name backwards: one reversed sort. */
  predicate Before(a: Item, b: Item) {
    a.date > b.date || (a.date == b.date && a.name >= b.name)
  }

  lemma BeforeIsTotal()
    ensures TotalOrder(Before)
  {
  }

  /** The three entry lists as they stand. */
  datatype Rows = Rows(income: seq<Entry>, expense: seq<Entry>, cards: seq<Entry>)

  /** Which tables the feed answers for, and how categories are named. */
  datatype Setting = Setting(feeds: Table -> Feed, names: Table -> int -> int)

  function RowsOf(all: Rows, table: Table): seq<Entry> {
    match table
    case Income => all.income
    case Expense => all.expense
    case Cards => all.cards
  }

  function WithRows(all: Rows, table: Table, rows: seq<Entry>): Rows {
    match table
    case Income => all.(income := rows)
    case Expense => all.(expense := rows)
    case Cards => all.(cards := rows)
  }

  function PendingOn(s: Setting, all: Rows, table: Table, onDate: int): seq<Item> {
    PendingIn(table, s.feeds(table), s.names(table), RowsOf(all, table), onDate, |RowsOf(all, table)|)
  }

  function Gathered(s: Setting, all: Rows, onDate: int): seq<Item> {
    PendingOn(s, all, Income, onDate) + PendingOn(s, all, Expense, onDate) + PendingOn(s, all, Cards, onDate)
  }

  /** pending_buckets. */
  function Pending(s: Setting, all: Rows, onDate: int): seq<Item> {
    Sort(Gathered(s, all, onDate), Before)
  }

  // ----------------------------------------------- a list with an item gone

  function Minus(items: seq<Item>, x: Item): seq<Item> {
    if |items| == 0 then []
    else (if items[0] == x then [] else [items[0]]) + Minus(items[1..], x)
  }

  lemma {:induction false} MinusAbsent(items: seq<Item>, x: Item)
    requires x !in items
    ensures Minus(items, x) == items
  {
    if |items| > 0 {
      MinusAbsent(items[1..], x);
    }
  }

  lemma MinusPut(y: Item, items: seq<Item>, x: Item)
    ensures Minus([y] + items, x) == if y == x then Minus(items, x) else [y] + Minus(items, x)
  {
    assert ([y] + items)[1..] == items;
  }

  lemma {:induction false} MinusConcat(a: seq<Item>, b: seq<Item>, x: Item)
    ensures Minus(a + b, x) == Minus(a, x) + Minus(b, x)
  {
    if |a| == 0 {
      assert a + b == b;
    } else {
      MinusConcat(a[1..], b, x);
      assert a + b == [a[0]] + (a[1..] + b);
      MinusPut(a[0], a[1..] + b, x);
      if a[0] != x {
        ConcatAssociates([a[0]], Minus(a[1..], x), Minus(b, x));
      } else {
        assert [] + Minus(a[1..], x) == Minus(a[1..], x);
      }
    }
  }

  lemma {:induction false} MinusInsert(y: Item, items: seq<Item>, x: Item)
    requires Ordered(items, Before)
    ensures Minus(Insert(y, items, Before), x)
         == if y == x then Minus(items, x) else Insert(y, Minus(items, x), Before)
  {
    if |items| == 0 || Before(y, items[0]) {
      assert Insert(y, items, Before) == [y] + items;
      MinusPut(y, items, x);
      MinusBefore(y, items, x);
    } else {
      var rest := items[1..];
      MinusInsert(y, rest, x);
      MinusPut(items[0], Insert(y, rest, Before), x);
      InsertPast(y, items[0], Minus(rest, x));
      MinusPut(items[0], rest, x);
      assert items == [items[0]] + rest;
    }
  }

  lemma InsertPast(y: Item, first: Item, rest: seq<Item>)
    requires !Before(y, first)
    ensures Insert(y, [first] + rest, Before) == [first] + Insert(y, rest, Before)
  {
    assert ([first] + rest)[1..] == rest;
  }

  /** What goes before a whole ordered list goes before what is left of it. */
  lemma {:induction false} MinusBefore(y: Item, items: seq<Item>, x: Item)
    requires Ordered(items, Before) && (|items| == 0 || Before(y, items[0]))
    ensures Insert(y, Minus(items, x), Before) == [y] + Minus(items, x)
  {
    if |items| > 0 && items[0] == x {
      if |items| > 1 {
        assert Before(items[0], items[1]);
      }
      MinusBefore(y, items[1..], x);
      assert [] + Minus(items[1..], x) == Minus(items[1..], x);
    }
  }

  lemma SortPut(y: Item, items: seq<Item>)
    ensures Sort([y] + items, Before) == Insert(y, Sort(items, Before), Before)
  {
    assert ([y] + items)[1..] == items;
  }

  lemma {:induction false} MinusSort(items: seq<Item>, x: Item)
    ensures Sort(Minus(items, x), Before) == Minus(Sort(items, Before), x)
  {
    if |items| > 0 {
      MinusSort(items[1..], x);
      BeforeIsTotal();
      SortOrders(items[1..], Before);
      MinusInsert(items[0], Sort(items[1..], Before), x);
      if items[0] != x {
        SortPut(items[0], Minus(items[1..], x));
      } else {
        assert [] + Minus(items[1..], x) == Minus(items[1..], x);
      }
    }
  }

  ghost predicate NoRepeats(items: seq<Item>) {
    forall i, j :: 0 <= i < j < |items| ==> items[i] != items[j]
  }

  lemma {:induction false} OnceEach(items: seq<Item>, x: Item)
    requires NoRepeats(items)
    ensures multiset(items)[x] <= 1
  {
    if |items| > 0 {
      OnceEach(items[1..], x);
      assert items == [items[0]] + items[1..];
      assert items[0] !in items[1..];
    }
  }

  /** The head of the sorted list taken out leaves its tail. */
  lemma HeadGone(items: seq<Item>)
    requires NoRepeats(items) && |Sort(items, Before)| > 0
    ensures
      var sorted := Sort(items, Before);
      Sort(Minus(items, sorted[0]), Before) == sorted[1..]
  {
    var sorted := Sort(items, Before);
    MinusSort(items, sorted[0]);
    SortPermutes(items, Before);
    OnceEach(items, sorted[0]);
    OnlyAtTheHead(sorted);
  }

  lemma OnlyAtTheHead(sorted: seq<Item>)
    requires |sorted| > 0 && multiset(sorted)[sorted[0]] == 1
    ensures Minus(sorted, sorted[0]) == sorted[1..]
  {
    assert sorted == [sorted[0]] + sorted[1..];
    assert multiset(sorted) == multiset{sorted[0]} + multiset(sorted[1..]);
    MinusAbsent(sorted[1..], sorted[0]);
  }

  // --------------------------------------------------- one forecast answered

  lemma {:induction false} PendingHas(table: Table, feed: Feed, names: int -> int, rows: seq<Entry>, onDate: int,
                                      n: nat, x: Item)
    requires n <= |rows|
    ensures x in PendingIn(table, feed, names, rows, onDate, n)
       <==> exists i :: 0 <= i < n && IsPending(feed, rows[i], onDate) && ItemOf(table, rows[i], names) == x
  {
    if n > 0 {
      PendingHas(table, feed, names, rows, onDate, n - 1, x);
    }
  }

  lemma {:induction false} PendingOnce(table: Table, feed: Feed, names: int -> int, rows: seq<Entry>,
                                       onDate: int, n: nat)
    requires n <= |rows| && DistinctIds(rows)
    ensures NoRepeats(PendingIn(table, feed, names, rows, onDate, n))
  {
    if n > 0 {
      PendingOnce(table, feed, names, rows, onDate, n - 1);
      PendingHas(table, feed, names, rows, onDate, n - 1, ItemOf(table, rows[n - 1], names));
    }
  }

  lemma {:induction false} PendingSame(table: Table, feed: Feed, names: int -> int, one: seq<Entry>, two: seq<Entry>,
                                       onDate: int, n: nat)
    requires n <= |one| && n <= |two| && forall i :: 0 <= i < n ==> one[i] == two[i]
    ensures PendingIn(table, feed, names, one, onDate, n) == PendingIn(table, feed, names, two, onDate, n)
  {
    if n > 0 {
      PendingSame(table, feed, names, one, two, onDate, n - 1);
    }
  }

  /** A forecast that stops being one leaves the list, and nothing else does. */
  lemma PendingWithoutLast(table: Table, feed: Feed, names: int -> int, rows: seq<Entry>, onDate: int, k: nat,
                           row: Entry)
    requires k < |rows| && DistinctIds(rows) && !row.isBucket && IsPending(feed, rows[k], onDate)
    ensures PendingIn(table, feed, names, rows[k := row], onDate, k + 1)
         == Minus(PendingIn(table, feed, names, rows, onDate, k + 1), ItemOf(table, rows[k], names))
  {
    var x := ItemOf(table, rows[k], names);
    var front := PendingIn(table, feed, names, rows, onDate, k);
    PendingSame(table, feed, names, rows, rows[k := row], onDate, k);
    PendingHas(table, feed, names, rows, onDate, k, x);
    MinusAbsent(front, x);
    MinusConcat(front, [x], x);
    assert [x][1..] == [];
  }

  lemma {:induction false} PendingWithout(table: Table, feed: Feed, names: int -> int, rows: seq<Entry>, onDate: int,
                                          n: nat, k: nat, row: Entry)
    requires k < n <= |rows| && DistinctIds(rows) && !row.isBucket && IsPending(feed, rows[k], onDate)
    ensures PendingIn(table, feed, names, rows[k := row], onDate, n)
         == Minus(PendingIn(table, feed, names, rows, onDate, n), ItemOf(table, rows[k], names))
  {
    if k == n - 1 {
      PendingWithoutLast(table, feed, names, rows, onDate, k, row);
    } else {
      var x := ItemOf(table, rows[k], names);
      var front := PendingIn(table, feed, names, rows, onDate, n - 1);
      PendingWithout(table, feed, names, rows, onDate, n - 1, k, row);
      assert rows[k].id != rows[n - 1].id;
      var last := if IsPending(feed, rows[n - 1], onDate) then [ItemOf(table, rows[n - 1], names)] else [];
      assert PendingIn(table, feed, names, rows[k := row], onDate, n)
          == PendingIn(table, feed, names, rows[k := row], onDate, n - 1) + last;
      MinusInFront(front, last, x);
    }
  }

  lemma MinusInFront(front: seq<Item>, last: seq<Item>, x: Item)
    requires x !in last
    ensures Minus(front + last, x) == Minus(front, x) + last
  {
    MinusConcat(front, last, x);
    MinusAbsent(last, x);
  }

  ghost predicate AllDistinct(all: Rows) {
    DistinctIds(all.income) && DistinctIds(all.expense) && DistinctIds(all.cards)
  }

  lemma OnTheirTable(s: Setting, all: Rows, table: Table, onDate: int, x: Item)
    ensures x in PendingOn(s, all, table, onDate) ==> x.table == table
  {
    PendingHas(table, s.feeds(table), s.names(table), RowsOf(all, table), onDate, |RowsOf(all, table)|, x);
  }

  lemma GatheredOnce(s: Setting, all: Rows, onDate: int)
    requires AllDistinct(all)
    ensures NoRepeats(Gathered(s, all, onDate))
  {
    var one, two, three :=
      PendingOn(s, all, Income, onDate), PendingOn(s, all, Expense, onDate), PendingOn(s, all, Cards, onDate);
    PendingOnce(Income, s.feeds(Income), s.names(Income), all.income, onDate, |all.income|);
    PendingOnce(Expense, s.feeds(Expense), s.names(Expense), all.expense, onDate, |all.expense|);
    PendingOnce(Cards, s.feeds(Cards), s.names(Cards), all.cards, onDate, |all.cards|);
    forall x ensures x in one ==> x.table == Income {
      OnTheirTable(s, all, Income, onDate, x);
    }
    forall x ensures x in two ==> x.table == Expense {
      OnTheirTable(s, all, Expense, onDate, x);
    }
    forall x ensures x in three ==> x.table == Cards {
      OnTheirTable(s, all, Cards, onDate, x);
    }
    Apart(one, two);
    Apart(one + two, three);
  }

  lemma {:induction false} Apart(a: seq<Item>, b: seq<Item>)
    requires NoRepeats(a) && NoRepeats(b) && forall i, j :: 0 <= i < |a| && 0 <= j < |b| ==> a[i] != b[j]
    ensures NoRepeats(a + b)
  {
  }

  lemma MinusElsewhere(s: Setting, all: Rows, table: Table, onDate: int, x: Item)
    requires x.table != table
    ensures Minus(PendingOn(s, all, table, onDate), x) == PendingOn(s, all, table, onDate)
  {
    OnTheirTable(s, all, table, onDate, x);
    MinusAbsent(PendingOn(s, all, table, onDate), x);
  }

  lemma MinusGathered(s: Setting, all: Rows, onDate: int, x: Item)
    ensures Minus(Gathered(s, all, onDate), x)
         == Minus(PendingOn(s, all, Income, onDate), x) + Minus(PendingOn(s, all, Expense, onDate), x)
            + Minus(PendingOn(s, all, Cards, onDate), x)
  {
    MinusConcat(PendingOn(s, all, Income, onDate) + PendingOn(s, all, Expense, onDate),
                PendingOn(s, all, Cards, onDate), x);
    MinusConcat(PendingOn(s, all, Income, onDate), PendingOn(s, all, Expense, onDate), x);
  }

  /** Answering one pending forecast takes it out of what is gathered, wherever it was. */
  lemma AnsweredIsGone(s: Setting, all: Rows, onDate: int, table: Table, k: nat, row: Entry)
    requires AllDistinct(all) && k < |RowsOf(all, table)| && !row.isBucket
    requires IsPending(s.feeds(table), RowsOf(all, table)[k], onDate)
    ensures
      var after := WithRows(all, table, RowsOf(all, table)[k := row]);
      Gathered(s, after, onDate)
      == Minus(Gathered(s, all, onDate), ItemOf(table, RowsOf(all, table)[k], s.names(table)))
  {
    var rows := RowsOf(all, table);
    var x := ItemOf(table, rows[k], s.names(table));
    PendingWithout(table, s.feeds(table), s.names(table), rows, onDate, |rows|, k, row);
    MinusGathered(s, all, onDate, x);
    if table != Income {
      MinusElsewhere(s, all, Income, onDate, x);
    }
    if table != Expense {
      MinusElsewhere(s, all, Expense, onDate, x);
    }
    if table != Cards {
      MinusElsewhere(s, all, Cards, onDate, x);
    }
  }

  /** The row a prompt's line is about. */
  lemma LineIsARow(s: Setting, all: Rows, onDate: int, x: Item) returns (k: nat)
    requires x in Pending(s, all, onDate)
    ensures k < |RowsOf(all, x.table)| && IsPending(s.feeds(x.table), RowsOf(all, x.table)[k], onDate)
    ensures ItemOf(x.table, RowsOf(all, x.table)[k], s.names(x.table)) == x
  {
    SortHas(Gathered(s, all, onDate), Before, x);
    OnTheirTable(s, all, Income, onDate, x);
    OnTheirTable(s, all, Expense, onDate, x);
    OnTheirTable(s, all, Cards, onDate, x);
    var rows := RowsOf(all, x.table);
    PendingHas(x.table, s.feeds(x.table), s.names(x.table), rows, onDate, |rows|, x);
    k :| 0 <= k < |rows| && IsPending(s.feeds(x.table), rows[k], onDate)
         && ItemOf(x.table, rows[k], s.names(x.table)) == x;
  }

  /** Yes to one line of the prompt. */
  function Confirm(rows: seq<Entry>, id: int): seq<Entry> {
    match FindForecast(rows, 0, id)
    case None => rows
    case Some(k) => rows[k := Confirmed(rows[k], rows[k].amount)]
  }

  function ConfirmLine(all: Rows, x: Item): Rows {
    WithRows(all, x.table, Confirm(RowsOf(all, x.table), x.id))
  }

  lemma FoundById(rows: seq<Entry>, k: nat)
    requires DistinctIds(rows) && k < |rows| && rows[k].isBucket
    ensures FindForecast(rows, 0, rows[k].id) == Some(k)
  {
  }

  lemma ConfirmKeepsIds(rows: seq<Entry>, id: int)
    requires DistinctIds(rows)
    ensures DistinctIds(Confirm(rows, id))
  {
  }

  /** A line of the prompt is a row of its table: a forecast of something, due by the day, in a
      category the bank does not answer for. */
  ghost predicate AskedOf(s: Setting, all: Rows, onDate: int, x: Item, k: int) {
    var rows := match x.table case Income => all.income case Expense => all.expense case Cards => all.cards;
    && 0 <= k < |rows| && rows[k].isBucket && rows[k].amount > 0 && rows[k].date <= onDate
    && (match s.feeds(x.table)
        case NotFed => true
        case AllFed => false
        case FedFor(categories) => rows[k].category !in categories)
    && x.id == rows[k].id && x.date == rows[k].date && x.name == s.names(x.table)(rows[k].category)
  }

  /** What the prompt asks about is exactly those rows, whichever tables they are on. */
  lemma {:induction false} AskedAbout(s: Setting, all: Rows, onDate: int, x: Item)
    ensures x in Pending(s, all, onDate) <==> exists k :: AskedOf(s, all, onDate, x, k)
  {
    var rows := RowsOf(all, x.table);
    PendingHas(x.table, s.feeds(x.table), s.names(x.table), rows, onDate, |rows|, x);
    SortHas(Gathered(s, all, onDate), Before, x);
    OnTheirTable(s, all, Income, onDate, x);
    OnTheirTable(s, all, Expense, onDate, x);
    OnTheirTable(s, all, Cards, onDate, x);
    forall k | 0 <= k < |rows|
      ensures IsPending(s.feeds(x.table), rows[k], onDate) && ItemOf(x.table, rows[k], s.names(x.table)) == x
         <==> AskedOf(s, all, onDate, x, k)
    {
    }
  }

  /** The latest first, and of one day the names backwards. */
  lemma AskedInOrder(s: Setting, all: Rows, onDate: int, i: nat, j: nat)
    requires i < j < |Pending(s, all, onDate)|
    ensures
      var lines := Pending(s, all, onDate);
      lines[j].date < lines[i].date || (lines[j].date == lines[i].date && lines[j].name <= lines[i].name)
  {
    BeforeIsTotal();
    SortOrders(Gathered(s, all, onDate), Before);
  }

  /** Yes leaves the forecast's own figure as what happened, and every other row alone. */
  lemma YesTells(rows: seq<Entry>, k: nat)
    requires DistinctIds(rows) && k < |rows| && rows[k].isBucket
    ensures
      var e := rows[k];
      Confirm(rows, e.id)
      == rows[k := Entry(e.id, e.category, e.date, e.amount, false, None, e.anchor, e.recurring, true)]
  {
    FoundById(rows, k);
  }

  /** Answered, the first line of the prompt is gone and the rest is as it was. */
  lemma HeadAnswered(s: Setting, all: Rows, onDate: int)
    requires AllDistinct(all) && |Pending(s, all, onDate)| > 0
    ensures
      var lines := Pending(s, all, onDate);
      Pending(s, ConfirmLine(all, lines[0]), onDate) == lines[1..]
  {
    var lines := Pending(s, all, onDate);
    var x := lines[0];
    var k := LineIsARow(s, all, onDate, x);
    var row := RowsOf(all, x.table)[k];
    FoundById(RowsOf(all, x.table), k);
    GatheredOnce(s, all, onDate);
    AnsweredIsGone(s, all, onDate, x.table, k, Confirmed(row, row.amount));
    HeadGone(Gathered(s, all, onDate));
  }

  // ------------------------------------------------------------- the loop

  /** How many lines the loop answers: up to the first whose id the one before
      it has, since that looks like an answer that did not take. */
  function AnsweredLines(lines: seq<Item>, n: nat): (m: nat)
    requires n <= |lines|
    ensures n <= m <= |lines|
    ensures forall i :: n <= i < m ==> i == 0 || lines[i].id != lines[i - 1].id
    ensures m < |lines| ==> m > 0 && lines[m].id == lines[m - 1].id
    decreases |lines| - n
  {
    if n == |lines| || (n > 0 && lines[n].id == lines[n - 1].id) then n else AnsweredLines(lines, n + 1)
  }

  /** Every line is answered exactly when no two neighbours share an id, as lines of
      two tables may. */
  lemma {:induction false} AllAnswered(lines: seq<Item>)
    ensures AnsweredLines(lines, 0) == |lines| <==> forall i :: 0 < i < |lines| ==> lines[i].id != lines[i - 1].id
  {
  }

  /** The tables after the first n lines are answered. */
  function AfterLines(all: Rows, lines: seq<Item>, n: nat): Rows
    requires n <= |lines|
  {
    if n == 0 then all else ConfirmLine(AfterLines(all, lines, n - 1), lines[n - 1])
  }

  ghost predicate SameIds(one: seq<Entry>, two: seq<Entry>) {
    |one| == |two| && forall i :: 0 <= i < |one| ==> one[i].id == two[i].id
  }

  lemma {:induction false} LinesKeepIds(all: Rows, lines: seq<Item>, n: nat, table: Table)
    requires n <= |lines|
    ensures SameIds(RowsOf(AfterLines(all, lines, n), table), RowsOf(all, table))
  {
    if n > 0 {
      LinesKeepIds(all, lines, n - 1, table);
    }
  }

  /** A list worked through from the front, whatever its lines are. */
  function Worked<S, T>(answer: (S, T) -> S, start: S, lines: seq<T>, n: nat): S
    requires n <= |lines|
  {
    if n == 0 then start else answer(Worked(answer, start, lines, n - 1), lines[n - 1])
  }

  /** Answering the first line takes it off the list and nothing else, in any good state. */
  ghost predicate TakesTheFirst<S(!new), T>(answer: (S, T) -> S, ask: S -> seq<T>, good: S -> bool) {
    forall state :: good(state) && |ask(state)| > 0 ==>
                      var after := answer(state, ask(state)[0]); good(after) && ask(after) == ask(state)[1..]
  }

  lemma {:induction false} WorksThrough<S(!new), T>(answer: (S, T) -> S, ask: S -> seq<T>, good: S -> bool, start: S,
                                                    n: nat)
    requires TakesTheFirst(answer, ask, good) && good(start) && n <= |ask(start)|
    ensures good(Worked(answer, start, ask(start), n)) && ask(Worked(answer, start, ask(start), n)) == ask(start)[n..]
  {
    if n > 0 {
      WorksThrough(answer, ask, good, start, n - 1);
    }
  }

  ghost function Answering(): (Rows, Item) -> Rows {
    (rows, x) => ConfirmLine(rows, x)
  }

  ghost function Asking(s: Setting, onDate: int): Rows -> seq<Item> {
    rows => Pending(s, rows, onDate)
  }

  ghost function Distinctly(): Rows -> bool {
    rows => AllDistinct(rows)
  }

  lemma {:induction false} AfterLinesWorked(all: Rows, lines: seq<Item>, n: nat)
    requires n <= |lines|
    ensures AfterLines(all, lines, n) == Worked(Answering(), all, lines, n)
  {
    if n > 0 {
      AfterLinesWorked(all, lines, n - 1);
    }
  }

  lemma AnsweringTakesTheFirst(s: Setting, onDate: int)
    ensures TakesTheFirst(Answering(), Asking(s, onDate), Distinctly())
  {
    forall rows | Distinctly()(rows) && |Asking(s, onDate)(rows)| > 0
      ensures
        var after := Answering()(rows, Asking(s, onDate)(rows)[0]);
        Distinctly()(after) && Asking(s, onDate)(after) == Asking(s, onDate)(rows)[1..]
    {
      HeadAnswered(s, rows, onDate);
      LineKeepsDistinct(rows, Pending(s, rows, onDate)[0]);
    }
  }

  lemma LineKeepsDistinct(rows: Rows, x: Item)
    requires AllDistinct(rows)
    ensures AllDistinct(ConfirmLine(rows, x))
  {
    ConfirmKeepsIds(RowsOf(rows, x.table), x.id);
  }

  /** The first n lines answered, the rest are what is left to ask. */
  lemma LinesLeave(s: Setting, all: Rows, onDate: int, n: nat)
    requires AllDistinct(all) && n <= |Pending(s, all, onDate)|
    ensures
      var lines := Pending(s, all, onDate);
      Pending(s, AfterLines(all, lines, n), onDate) == lines[n..]
  {
    AnsweringTakesTheFirst(s, onDate);
    WorksThrough(Answering(), Asking(s, onDate), Distinctly(), all, n);
    AfterLinesWorked(all, Pending(s, all, onDate), n);
  }

  /** One forecast due on each of two tables, under one id: the first is answered,
      and the second is taken for it and left. */
  lemma SameIdStalls(s: Setting, income: Entry, expense: Entry, onDate: int)
    requires IsPending(s.feeds(Income), income, onDate) && IsPending(s.feeds(Expense), expense, onDate)
    requires income.id == expense.id
    ensures
      var lines := Pending(s, Rows([income], [expense], []), onDate);
      |lines| == 2 && AnsweredLines(lines, 0) == 1
  {
    var all := Rows([income], [expense], []);
    var one, two := ItemOf(Income, income, s.names(Income)), ItemOf(Expense, expense, s.names(Expense));
    OneLine(Income, s.feeds(Income), s.names(Income), income, onDate);
    OneLine(Expense, s.feeds(Expense), s.names(Expense), expense, onDate);
    assert Gathered(s, all, onDate) == [one, two];
    SortOfTwo(one, two);
  }

  lemma OneLine(table: Table, feed: Feed, names: int -> int, row: Entry, onDate: int)
    requires IsPending(feed, row, onDate)
    ensures PendingIn(table, feed, names, [row], onDate, 1) == [ItemOf(table, row, names)]
  {
    assert PendingIn(table, feed, names, [row], onDate, 0) == [];
  }

  lemma SortOfTwo(one: Item, two: Item)
    ensures Sort([one, two], Before) == [one, two] || Sort([one, two], Before) == [two, one]
  {
    var none: seq<Item> := [];
    assert [one] + [two] == [one, two] && [two] + none == [two];
    SortPut(two, none);
    assert Sort([two], Before) == [two];
    SortPut(one, [two]);
    assert [two][1..] == none;
    assert Insert(one, none, Before) == [one];
  }

  /** One pass of the loop, from the rows that the passes before it left. */
  lemma OneAnswered(s: Setting, all: Rows, lines: seq<Item>, onDate: int, n: nat, rows: Rows)
    requires AllDistinct(rows) && n < |lines| && rows == AfterLines(all, lines, n)
    requires Pending(s, rows, onDate) == lines[n..]
    ensures
      var after := ConfirmLine(rows, lines[n]);
      after == AfterLines(all, lines, n + 1) && Pending(s, after, onDate) == lines[n + 1..]
  {
    HeadAnswered(s, rows, onDate);
    assert lines[n..][0] == lines[n] && lines[n..][1..] == lines[n + 1..];
  }

  class Tables {
    const setting: Setting
    const income: Store
    const expense: Store
    const cards: Store

    constructor (setting: Setting, income: Store, expense: Store, cards: Store)
      requires income != expense && income != cards && expense != cards
      ensures this.setting == setting && this.income == income && this.expense == expense && this.cards == cards
      ensures Apart()
    {
      this.setting, this.income, this.expense, this.cards := setting, income, expense, cards;
    }

    predicate Apart() {
      income != expense && income != cards && expense != cards
    }

    ghost predicate Valid()
      reads income, expense, cards
    {
      Apart() && income.Valid() && expense.Valid() && cards.Valid()
    }

    function All(): Rows
      reads income, expense, cards
    {
      Rows(income.entries, expense.entries, cards.entries)
    }

    method ResolveLine(x: Item)
      requires Valid()
      modifies income, expense, cards
      ensures Valid() && All() == ConfirmLine(old(All()), x)
    {
      var changed;
      match x.table {
        case Income => changed := income.Resolve(x.id, CameThrough, 0);
        case Expense => changed := expense.Resolve(x.id, CameThrough, 0);
        case Cards => changed := cards.Resolve(x.id, CameThrough, 0);
      }
    }

    /** So many lines answered, and the list just read again. */
    ghost predicate Reached(start: Rows, lines: seq<Item>, items: seq<Item>, n: nat, onDate: int)
      reads income, expense, cards
    {
      && Valid() && n <= |lines| && All() == AfterLines(start, lines, n)
      && items == lines[n..] && items == Pending(setting, All(), onDate)
    }

    /** One pass: the line answered, and the list read again. */
    method AnswerAndReread(item: Item, onDate: int, ghost start: Rows, ghost lines: seq<Item>, ghost n: nat)
      returns (items: seq<Item>)
      requires n < |lines| && item == lines[n] && Reached(start, lines, lines[n..], n, onDate)
      modifies income, expense, cards
      ensures Reached(start, lines, items, n + 1, onDate)
    {
      OneAnswered(setting, start, lines, onDate, n, All());
      ResolveLine(item);
      items := Pending(setting, All(), onDate);
    }

    /** Its loop: every pass answers the first line of a list just read again. The
        bound on attempts is never what stops it. */
    method AnswerEach(read: seq<Item>, onDate: int) returns (confirmed: nat, ghost left: seq<Item>)
      requires Reached(All(), read, read, 0, onDate)
      modifies income, expense, cards
      ensures confirmed == AnsweredLines(read, 0) && Reached(old(All()), read, left, confirmed, onDate)
    {
      confirmed := 0;
      var items := read;
      var attempts := |items| + 1;
      var lastId: Option<int> := None;
      while items != [] && attempts > 0
        invariant Reached(old(All()), read, items, confirmed, onDate)
        invariant confirmed <= |read| && items == read[confirmed..] && attempts == |read| + 1 - confirmed
        invariant lastId == if confirmed == 0 then None else Some(read[confirmed - 1].id)
        invariant AnsweredLines(read, 0) == AnsweredLines(read, confirmed)
        decreases attempts
      {
        attempts := attempts - 1;
        var item := items[0];
        if lastId == Some(item.id) {
          break;
        }
        lastId := Some(item.id);
        items := AnswerAndReread(item, onDate, old(All()), read, confirmed);
        confirmed := confirmed + 1;
      }
      left := items;
    }

    /** confirm_pending_buckets. */
    method ConfirmPending(onDate: int) returns (confirmed: nat)
      requires Valid()
      modifies income, expense, cards
      ensures Valid()
      ensures
        var lines := Pending(setting, old(All()), onDate);
        && confirmed == AnsweredLines(lines, 0)
        && All() == AfterLines(old(All()), lines, confirmed)
        && Pending(setting, All(), onDate) == lines[confirmed..]
    {
      var items := Pending(setting, All(), onDate);
      ghost var left;
      confirmed, left := AnswerEach(items, onDate);
    }
  }
}
