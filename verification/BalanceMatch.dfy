/** auto_balance.py, matching the app's balance to a real one: the day's
    correction, netted across an income and an expense cell, and the match that
    writes it. Money is whole cents, so the tolerance of a cent is zero. */
module BalanceMatch {
  import opened Wrappers
  import opened Sorting
  import opened Ledger
  import opened Buckets
  import opened Confirming

  predicate InCell(row: Entry, category: int, date: int) {
    row.category == category && row.date == date
  }

  predicate IsReal(row: Entry, category: int, date: int) {
    InCell(row, category, date) && !row.isBucket
  }

  /** A row of something that has happened, paid. */
  function RealRow(id: int, category: int, date: int, amount: int): Entry {
    Entry(id, category, date, amount, false, None, None, None, true)
  }

  // ----------------------------------------------------------------- totals

  /** What the first n rows come to up to the end of a day, forecasts in or out. */
  function Total(rows: seq<Entry>, n: nat, until: int, forecasts: bool): int
    requires n <= |rows|
  {
    if n == 0 then 0
    else
      Total(rows, n - 1, until, forecasts)
      + if rows[n - 1].date <= until && (forecasts || !rows[n - 1].isBucket) then rows[n - 1].amount else 0
  }

  /** What a cell holds: its real rows, of the first n. */
  function Cell(rows: seq<Entry>, n: nat, category: int, date: int): int
    requires n <= |rows|
  {
    if n == 0 then 0
    else Cell(rows, n - 1, category, date) + if IsReal(rows[n - 1], category, date) then rows[n - 1].amount else 0
  }

  function RealCount(rows: seq<Entry>, n: nat, category: int, date: int): nat
    requires n <= |rows|
  {
    if n == 0 then 0
    else RealCount(rows, n - 1, category, date) + if IsReal(rows[n - 1], category, date) then 1 else 0
  }

  function CellAmount(rows: seq<Entry>, category: int, date: int): int {
    Cell(rows, |rows|, category, date)
  }

  function Real(rows: seq<Entry>, until: int): int {
    Total(rows, |rows|, until, false)
  }

  function RealRows(rows: seq<Entry>, category: int, date: int): nat {
    RealCount(rows, |rows|, category, date)
  }

  lemma {:induction false} SameTotals(one: seq<Entry>, two: seq<Entry>, n: nat, category: int, date: int, until: int)
    requires n <= |one| && n <= |two| && forall i :: 0 <= i < n ==> one[i] == two[i]
    ensures Total(one, n, until, false) == Total(two, n, until, false)
    ensures Total(one, n, until, true) == Total(two, n, until, true)
    ensures Cell(one, n, category, date) == Cell(two, n, category, date)
    ensures RealCount(one, n, category, date) == RealCount(two, n, category, date)
  {
    if n > 0 {
      SameTotals(one, two, n - 1, category, date, until);
    }
  }

  // -------------------------------------------------------------- the cells

  /** _delete_entry_in_redis over one day: every row of the cell goes. */
  function Cleared(rows: seq<Entry>, n: nat, category: int, date: int): seq<Entry>
    requires n <= |rows|
  {
    if n == 0 then []
    else Cleared(rows, n - 1, category, date) + if InCell(rows[n - 1], category, date) then [] else [rows[n - 1]]
  }

  function FirstReal(rows: seq<Entry>, n: nat, category: int, date: int): (k: Option<nat>)
    requires n <= |rows|
    ensures k.Some? ==> n <= k.value < |rows| && IsReal(rows[k.value], category, date)
    ensures forall i :: n <= i < (if k.Some? then k.value else |rows|) ==> !IsReal(rows[i], category, date)
    decreases |rows| - n
  {
    if n == |rows| then None
    else if IsReal(rows[n], category, date) then Some(n) else FirstReal(rows, n + 1, category, date)
  }

  /** _update_entry_in_redis: the first real row of the cell rewritten, or one added. */
  function Updated(rows: seq<Entry>, newId: int, category: int, date: int, amount: int): seq<Entry> {
    match FirstReal(rows, 0, category, date)
    case Some(k) => rows[k := rows[k].(amount := amount, processed := true)]
    case None => rows + [RealRow(newId, category, date, amount)]
  }

  /** _set_cell. */
  function CellSet(rows: seq<Entry>, newId: int, category: int, date: int, amount: int): seq<Entry> {
    if amount == 0 then
      if RealRows(rows, category, date) > 0 then Cleared(rows, |rows|, category, date) else rows
    else if RealRows(rows, category, date) != 1 then
      Updated(Cleared(rows, |rows|, category, date), newId, category, date, amount)
    else Updated(rows, newId, category, date, amount)
  }

  /** What clearing takes out is the real rows of the cell, whatever the day asked about. */
  lemma {:induction false} ClearedTotals(rows: seq<Entry>, n: nat, category: int, date: int, until: int)
    requires n <= |rows|
    ensures
      var left := Cleared(rows, n, category, date);
      && Total(left, |left|, until, false)
         == Total(rows, n, until, false) - (if date <= until then Cell(rows, n, category, date) else 0)
      && RealCount(left, |left|, category, date) == 0 && Cell(left, |left|, category, date) == 0
  {
    if n > 0 {
      var before := Cleared(rows, n - 1, category, date);
      ClearedTotals(rows, n - 1, category, date, until);
      if !InCell(rows[n - 1], category, date) {
        SameTotals(before, before + [rows[n - 1]], |before|, category, date, until);
      } else {
        assert before + [] == before;
      }
    }
  }

  lemma {:induction false} RewrittenTotals(rows: seq<Entry>, n: nat, k: nat, amount: int, category: int, date: int,
                                           until: int)
    requires k < n <= |rows| && IsReal(rows[k], category, date)
    ensures
      var after := rows[k := rows[k].(amount := amount, processed := true)];
      && Total(after, n, until, false)
         == Total(rows, n, until, false) + (if date <= until then amount - rows[k].amount else 0)
      && Cell(after, n, category, date) == Cell(rows, n, category, date) + amount - rows[k].amount
      && RealCount(after, n, category, date) == RealCount(rows, n, category, date)
  {
    if k == n - 1 {
      SameTotals(rows, rows[k := rows[k].(amount := amount, processed := true)], k, category, date, until);
    } else {
      RewrittenTotals(rows, n - 1, k, amount, category, date, until);
    }
  }

  lemma AddedTotals(rows: seq<Entry>, newId: int, amount: int, category: int, date: int, until: int)
    ensures
      var after := rows + [RealRow(newId, category, date, amount)];
      && Total(after, |after|, until, false)
         == Total(rows, |rows|, until, false) + (if date <= until then amount else 0)
      && Cell(after, |after|, category, date) == Cell(rows, |rows|, category, date) + amount
      && RealCount(after, |after|, category, date) == RealCount(rows, |rows|, category, date) + 1
  {
    var after := rows + [RealRow(newId, category, date, amount)];
    SameTotals(rows, after, |rows|, category, date, until);
  }

  lemma {:induction false} CountFrom(rows: seq<Entry>, n: nat, category: int, date: int)
    requires n <= |rows|
    ensures RealCount(rows, n, category, date) == 0 <==> forall i :: 0 <= i < n ==> !IsReal(rows[i], category, date)
    ensures RealCount(rows, n, category, date) == 0 ==> Cell(rows, n, category, date) == 0
  {
    if n > 0 {
      CountFrom(rows, n - 1, category, date);
    }
  }

  /** The only real row of a cell is all the cell holds. */
  lemma {:induction false} OnlyReal(rows: seq<Entry>, n: nat, k: nat, category: int, date: int)
    requires k < n <= |rows| && IsReal(rows[k], category, date) && RealCount(rows, n, category, date) == 1
    ensures Cell(rows, n, category, date) == rows[k].amount
  {
    if k == n - 1 {
      CountFrom(rows, n - 1, category, date);
    } else {
      CountFrom(rows, n - 1, category, date);
      OnlyReal(rows, n - 1, k, category, date);
    }
  }

  lemma UpdatedTotals(rows: seq<Entry>, newId: int, category: int, date: int, amount: int, until: int)
    requires RealRows(rows, category, date) <= 1
    ensures
      var after := Updated(rows, newId, category, date, amount);
      && CellAmount(after, category, date) == amount && RealRows(after, category, date) == 1
      && Real(after, until)
         == Real(rows, until) + (if date <= until then amount - CellAmount(rows, category, date) else 0)
  {
    CountFrom(rows, |rows|, category, date);
    match FirstReal(rows, 0, category, date) {
      case Some(k) =>
        OnlyReal(rows, |rows|, k, category, date);
        RewrittenTotals(rows, |rows|, k, amount, category, date, until);
      case None => AddedTotals(rows, newId, amount, category, date, until);
    }
  }

  /** Setting a cell leaves exactly one real row in it, holding the amount, or
      none for nothing; and moves what is measured by exactly the difference. */
  lemma CellSetTotals(rows: seq<Entry>, newId: int, category: int, date: int, amount: int, until: int)
    ensures
      var after := CellSet(rows, newId, category, date, amount);
      && CellAmount(after, category, date) == amount
      && RealRows(after, category, date) == (if amount == 0 then 0 else 1)
      && Real(after, until)
         == Real(rows, until) + (if date <= until then amount - CellAmount(rows, category, date) else 0)
  {
    ClearedTotals(rows, |rows|, category, date, until);
    CountFrom(rows, |rows|, category, date);
    if amount != 0 {
      UpdatedTotals(if RealRows(rows, category, date) != 1 then Cleared(rows, |rows|, category, date) else rows,
                    newId, category, date, amount, until);
    }
  }

  // --------------------------------------------- what a cell leaves alone

  /** No forecast sits in the cell. */
  ghost predicate CellFree(rows: seq<Entry>, n: nat, category: int, date: int)
    requires n <= |rows|
  {
    forall i :: 0 <= i < n && rows[i].isBucket ==> !InCell(rows[i], category, date)
  }

  function Forecast(rows: seq<Entry>, n: nat): seq<Entry>
    requires n <= |rows|
  {
    Speaking(rows, n, EntryPart)
  }

  lemma {:induction false} SameForecast(one: seq<Entry>, two: seq<Entry>, n: nat)
    requires n <= |one| && n <= |two| && forall i :: 0 <= i < n ==> one[i] == two[i]
    ensures Forecast(one, n) == Forecast(two, n)
  {
    if n > 0 {
      SameForecast(one, two, n - 1);
    }
  }

  lemma {:induction false} ClearedForecast(rows: seq<Entry>, n: nat, category: int, date: int)
    requires n <= |rows| && CellFree(rows, n, category, date)
    ensures
      var left := Cleared(rows, n, category, date);
      Forecast(left, |left|) == Forecast(rows, n)
  {
    if n > 0 {
      var before := Cleared(rows, n - 1, category, date);
      ClearedForecast(rows, n - 1, category, date);
      if InCell(rows[n - 1], category, date) {
        assert before + [] == before;
      } else {
        SameForecast(before, before + [rows[n - 1]], |before|);
      }
    }
  }

  lemma {:induction false} RewrittenForecast(rows: seq<Entry>, n: nat, k: nat, row: Entry)
    requires k < n <= |rows| && !rows[k].isBucket && !row.isBucket
    ensures Forecast(rows[k := row], n) == Forecast(rows, n)
  {
    if k == n - 1 {
      SameForecast(rows, rows[k := row], k);
    } else {
      RewrittenForecast(rows, n - 1, k, row);
    }
  }

  lemma UpdatedForecast(rows: seq<Entry>, newId: int, category: int, date: int, amount: int)
    ensures
      var after := Updated(rows, newId, category, date, amount);
      Forecast(after, |after|) == Forecast(rows, |rows|)
  {
    match FirstReal(rows, 0, category, date) {
      case Some(k) => RewrittenForecast(rows, |rows|, k, rows[k].(amount := amount, processed := true));
      case None =>
        var after := rows + [RealRow(newId, category, date, amount)];
        SameForecast(rows, after, |rows|);
        assert Forecast(rows, |rows|) + [] == Forecast(rows, |rows|);
    }
  }

  /** Setting a cell with no forecast in it leaves every forecast as it was. */
  lemma CellSetForecast(rows: seq<Entry>, newId: int, category: int, date: int, amount: int)
    requires CellFree(rows, |rows|, category, date)
    ensures
      var after := CellSet(rows, newId, category, date, amount);
      Forecast(after, |after|) == Forecast(rows, |rows|)
  {
    var left := Cleared(rows, |rows|, category, date);
    ClearedForecast(rows, |rows|, category, date);
    UpdatedForecast(left, newId, category, date, amount);
    UpdatedForecast(rows, newId, category, date, amount);
  }

  ghost predicate NewId(rows: seq<Entry>, id: int) {
    forall i :: 0 <= i < |rows| ==> rows[i].id != id
  }

  /** What is left of a list after clearing: some of its rows, ids still distinct. */
  lemma {:induction false} ClearedRows(rows: seq<Entry>, n: nat, category: int, date: int, k: nat) returns (i: nat)
    requires n <= |rows| && k < |Cleared(rows, n, category, date)|
    ensures i < n && Cleared(rows, n, category, date)[k] == rows[i]
  {
    if k < |Cleared(rows, n - 1, category, date)| {
      i := ClearedRows(rows, n - 1, category, date, k);
    } else {
      i := n - 1;
    }
  }

  lemma {:induction false} ClearedIds(rows: seq<Entry>, n: nat, category: int, date: int)
    requires n <= |rows| && DistinctIds(rows)
    ensures DistinctIds(Cleared(rows, n, category, date))
  {
    if n > 0 {
      var before := Cleared(rows, n - 1, category, date);
      ClearedIds(rows, n - 1, category, date);
      forall k | 0 <= k < |before| ensures before[k].id != rows[n - 1].id {
        var i := ClearedRows(rows, n - 1, category, date, k);
      }
    }
  }

  lemma UpdatedIds(rows: seq<Entry>, newId: int, category: int, date: int, amount: int)
    requires DistinctIds(rows) && NewId(rows, newId)
    ensures DistinctIds(Updated(rows, newId, category, date, amount))
  {
  }

  lemma CellSetIds(rows: seq<Entry>, newId: int, category: int, date: int, amount: int)
    requires DistinctIds(rows) && NewId(rows, newId)
    ensures DistinctIds(CellSet(rows, newId, category, date, amount))
  {
    var left := Cleared(rows, |rows|, category, date);
    ClearedIds(rows, |rows|, category, date);
    forall k | 0 <= k < |left| ensures left[k].id != newId {
      var i := ClearedRows(rows, |rows|, category, date, k);
    }
    UpdatedIds(left, newId, category, date, amount);
    UpdatedIds(rows, newId, category, date, amount);
  }

  /** Lists with the same forecasts agree with the same records, and put them off alike. */
  lemma SameForecastsAgree(one: seq<Entry>, two: seq<Entry>, records: seq<Record>)
    requires Forecast(one, |one|) == Forecast(two, |two|) && Agree(one, records) && PutOff(one)
    ensures Agree(two, records) && PutOff(two)
  {
    SameSpeaking(one, two, EntryPart);
    forall k | 0 <= k < |two| && two[k].isBucket ensures Buckets.Period(two[k]) <= two[k].date {
      var j := Heard(two, |two|, k);
      var i := HeardFrom(one, |one|, j);
    }
  }

  lemma {:induction false} Heard(rows: seq<Entry>, n: nat, k: nat) returns (j: nat)
    requires k < n <= |rows| && rows[k].isBucket
    ensures j < |Forecast(rows, n)| && Forecast(rows, n)[j] == rows[k]
  {
    if k == n - 1 {
      j := |Forecast(rows, n - 1)|;
    } else {
      j := Heard(rows, n - 1, k);
    }
  }

  lemma {:induction false} HeardFrom(rows: seq<Entry>, n: nat, j: nat) returns (i: nat)
    requires n <= |rows| && j < |Forecast(rows, n)|
    ensures i < n && rows[i].isBucket && Forecast(rows, n)[j] == rows[i]
  {
    if j < |Forecast(rows, n - 1)| {
      i := HeardFrom(rows, n - 1, j);
    } else {
      i := n - 1;
    }
  }

  // ------------------------------------------- what one side is measured at

  /** What the open forecasts up to a day come to. */
  function Open(rows: seq<Entry>, n: nat, until: int): int
    requires n <= |rows|
  {
    if n == 0 then 0
    else
      Open(rows, n - 1, until)
      + if rows[n - 1].isBucket && rows[n - 1].amount > 0 && rows[n - 1].date <= until then rows[n - 1].amount else 0
  }

  /** One side of the balance as it is compared: the stored total, with the open
      forecasts taken back out when they are to be left out. */
  function Side(rows: seq<Entry>, until: int, leaveOut: bool): int {
    Total(rows, |rows|, until, true) - if leaveOut then Open(rows, |rows|, until) else 0
  }

  /** Money in less money out, each side as it is compared. */
  function Net(income: seq<Entry>, incomeOut: bool, expense: seq<Entry>, expenseOut: bool, until: int): int {
    Side(income, until, incomeOut) - Side(expense, until, expenseOut)
  }

  /** Every forecast is for something; stores that agree see to it. */
  ghost predicate ForecastsSomething(rows: seq<Entry>) {
    forall i :: 0 <= i < |rows| && rows[i].isBucket ==> rows[i].amount > 0
  }

  lemma AgreedForecasts(rows: seq<Entry>, records: seq<Record>)
    requires Agree(rows, records)
    ensures ForecastsSomething(rows)
  {
    forall i | 0 <= i < |rows| && rows[i].isBucket ensures rows[i].amount > 0 {
      EntryHasItsRecord(rows, records, i);
    }
  }

  lemma {:induction false} RealAndOpen(rows: seq<Entry>, n: nat, until: int)
    requires n <= |rows| && ForecastsSomething(rows)
    ensures Total(rows, n, until, true) == Total(rows, n, until, false) + Open(rows, n, until)
  {
    if n > 0 {
      RealAndOpen(rows, n - 1, until);
    }
  }

  /** The forecasts alone say what is open. */
  lemma {:induction false} OpenOfForecast(rows: seq<Entry>, n: nat, until: int)
    requires n <= |rows|
    ensures
      var heard := Forecast(rows, n);
      Open(heard, |heard|, until) == Open(rows, n, until)
  {
    if n > 0 {
      var before := Forecast(rows, n - 1);
      OpenOfForecast(rows, n - 1, until);
      if rows[n - 1].isBucket {
        SameOpen(before, before + [rows[n - 1]], |before|, until);
      } else {
        assert before + [] == before;
      }
    }
  }

  lemma {:induction false} SameOpen(one: seq<Entry>, two: seq<Entry>, n: nat, until: int)
    requires n <= |one| && n <= |two| && forall i :: 0 <= i < n ==> one[i] == two[i]
    ensures Open(one, n, until) == Open(two, n, until)
  {
    if n > 0 {
      SameOpen(one, two, n - 1, until);
    }
  }

  /** A side moves by what its real rows do, its forecasts staying as they are. */
  lemma SideMoves(one: seq<Entry>, two: seq<Entry>, until: int, leaveOut: bool)
    requires ForecastsSomething(one) && ForecastsSomething(two) && Forecast(one, |one|) == Forecast(two, |two|)
    ensures Side(two, until, leaveOut) - Side(one, until, leaveOut) == Real(two, until) - Real(one, until)
  {
    RealAndOpen(one, |one|, until);
    RealAndOpen(two, |two|, until);
    OpenOfForecast(one, |one|, until);
    OpenOfForecast(two, |two|, until);
  }

  // --------------------------------------------------------- the correction

  datatype Categories = Categories(inc: Option<int>, exp: Option<int>)

  function HeldIn(rows: seq<Entry>, category: Option<int>, date: int): int {
    if category.Some? then CellAmount(rows, category.value, date) else 0
  }

  function SetIn(rows: seq<Entry>, newId: int, category: Option<int>, date: int, amount: int): seq<Entry> {
    if category.Some? then CellSet(rows, newId, category.value, date, amount) else rows
  }

  ghost predicate NoForecastIn(rows: seq<Entry>, category: Option<int>, date: int) {
    category.Some? ==> CellFree(rows, |rows|, category.value, date)
  }

  function Above(x: int): int {
    if x > 0 then x else 0
  }

  /** What the day's correction comes to with a difference added to it. */
  function Target(income: seq<Entry>, expense: seq<Entry>, c: Categories, date: int, difference: int): int {
    HeldIn(income, c.inc, date) - HeldIn(expense, c.exp, date) + difference
  }

  /** Both sides with the day's correction written in. */
  function Corrected(income: seq<Entry>, incomeId: int, expense: seq<Entry>, expenseId: int, c: Categories, date: int,
                     difference: int): (seq<Entry>, seq<Entry>)
  {
    var target := Target(income, expense, c, date, difference);
    (SetIn(income, incomeId, c.inc, date, Above(target)), SetIn(expense, expenseId, c.exp, date, Above(-target)))
  }

  /** The correction has a category on the side it falls on. */
  predicate HasASide(c: Categories, target: int) {
    (target > 0 ==> c.inc.Some?) && (target < 0 ==> c.exp.Some?)
  }

  /** Entries and records as `Store.Valid` has them. */
  ghost predicate Sound(rows: seq<Entry>, records: seq<Record>) {
    Agree(rows, records) && DistinctIds(rows) && PutOff(rows)
  }

  /** Writing to one side of the correction: the stores go on agreeing, the cell holds
      the amount, and the side moves by the difference, forecasts counted or not. */
  lemma SetInMoves(rows: seq<Entry>, records: seq<Record>, newId: int, category: Option<int>, date: int, amount: int,
                   until: int, leaveOut: bool)
    requires Sound(rows, records) && NewId(rows, newId) && NoForecastIn(rows, category, date) && date <= until
    ensures
      var after := SetIn(rows, newId, category, date, amount);
      && Sound(after, records) && Forecast(after, |after|) == Forecast(rows, |rows|)
      && Side(after, until, leaveOut) - Side(rows, until, leaveOut)
         == (if category.Some? then amount else 0) - HeldIn(rows, category, date)
      && HeldIn(after, category, date) == if category.Some? then amount else 0
  {
    if category.Some? {
      var after := SetIn(rows, newId, category, date, amount);
      CellSetForecast(rows, newId, category.value, date, amount);
      CellSetIds(rows, newId, category.value, date, amount);
      SameForecastsAgree(rows, after, records);
      AgreedForecasts(rows, records);
      AgreedForecasts(after, records);
      SideMoves(rows, after, until, leaveOut);
      CellSetTotals(rows, newId, category.value, date, amount, until);
    }
  }

  /** Writing a correction moves the balance by exactly the difference if and only
      if what the day's corrections now come to has a category on its side. */
  lemma CorrectionMoves(income: seq<Entry>, incomeRecords: seq<Record>, incomeId: int, incomeOut: bool,
                        expense: seq<Entry>, expenseRecords: seq<Record>, expenseId: int, expenseOut: bool,
                        c: Categories, date: int, difference: int, until: int)
    requires Sound(income, incomeRecords) && NewId(income, incomeId) && NoForecastIn(income, c.inc, date)
    requires Sound(expense, expenseRecords) && NewId(expense, expenseId) && NoForecastIn(expense, c.exp, date)
    requires date <= until
    ensures
      var target := Target(income, expense, c, date, difference);
      var (income', expense') := Corrected(income, incomeId, expense, expenseId, c, date, difference);
      && (Net(income', incomeOut, expense', expenseOut, until)
            == Net(income, incomeOut, expense, expenseOut, until) + difference
          <==> HasASide(c, target))
      && (HeldIn(income', c.inc, date) == 0 || HeldIn(expense', c.exp, date) == 0)
      && HeldIn(income', c.inc, date) == (if c.inc.Some? then Above(target) else 0)
      && HeldIn(expense', c.exp, date) == (if c.exp.Some? then Above(-target) else 0)
  {
    var target := Target(income, expense, c, date, difference);
    SetInMoves(income, incomeRecords, incomeId, c.inc, date, Above(target), until, incomeOut);
    SetInMoves(expense, expenseRecords, expenseId, c.exp, date, Above(-target), until, expenseOut);
  }

  /** With an expense category alone, holding a refund of 50, 20 more of spending
      still comes out on the income side: nothing is written there and the
      refund is cleared, so the balance moves by 50 and not by 20. */
  lemma ShortOfASide(newId: int)
    ensures
      var expense, c := [RealRow(1, 1, 5, -50)], Categories(None, Some(1));
      var target := Target([], expense, c, 5, -20);
      && target == 30 && !HasASide(c, target)
      && Real(SetIn(expense, newId, c.exp, 5, Above(-target)), 5) == Real(expense, 5) + 50
  {
    var expense := [RealRow(1, 1, 5, -50)];
    assert Cell(expense, 1, 1, 5) == Cell(expense, 0, 1, 5) - 50;
    CellSetTotals(expense, newId, 1, 5, 0, 5);
  }

  // -------------------------------------------------------------- depletion

  /** The rows that have happened. */
  function Happened(rows: seq<Entry>, n: nat): seq<Entry>
    requires n <= |rows|
  {
    if n == 0 then [] else Happened(rows, n - 1) + if rows[n - 1].isBucket then [] else [rows[n - 1]]
  }

  /** What a list says has happened, its forecasts set aside. */
  function History(rows: seq<Entry>): seq<Entry> {
    Happened(rows, |rows|)
  }

  function OpenPart(row: Entry, until: int): int {
    if row.isBucket && row.amount > 0 && row.date <= until then row.amount else 0
  }

  lemma {:induction false} HappenedSame(one: seq<Entry>, two: seq<Entry>, n: nat)
    requires n <= |one| && n <= |two| && forall i :: 0 <= i < n ==> one[i] == two[i]
    ensures Happened(one, n) == Happened(two, n)
  {
    if n > 0 {
      HappenedSame(one, two, n - 1);
    }
  }

  /** A forecast taken out of the list: nothing that happened goes with it. */
  lemma {:induction false} ForecastDropped(rows: seq<Entry>, k: nat, n: nat, until: int)
    requires k < n <= |rows| && rows[k].isBucket
    ensures
      var after := Without(rows, k);
      && Happened(after, n - 1) == Happened(rows, n)
      && Total(after, n - 1, until, false) == Total(rows, n, until, false)
      && Open(after, n - 1, until) == Open(rows, n, until) - OpenPart(rows[k], until)
  {
    var after := Without(rows, k);
    if k == n - 1 {
      HappenedSame(rows, after, k);
      SameTotals(rows, after, k, 0, 0, until);
      SameOpen(rows, after, k, until);
      assert Happened(rows, k) + [] == Happened(rows, k);
    } else {
      ForecastDropped(rows, k, n - 1, until);
      assert after[n - 2] == rows[n - 1];
    }
  }

  lemma {:induction false} ForecastRewritten(rows: seq<Entry>, k: nat, row: Entry, n: nat, until: int)
    requires k < n <= |rows| && rows[k].isBucket && row.isBucket
    ensures
      var after := rows[k := row];
      && Happened(after, n) == Happened(rows, n)
      && Total(after, n, until, false) == Total(rows, n, until, false)
      && Open(after, n, until) == Open(rows, n, until) - OpenPart(rows[k], until) + OpenPart(row, until)
  {
    var after := rows[k := row];
    if k == n - 1 {
      HappenedSame(rows, after, k);
      SameTotals(rows, after, k, 0, 0, until);
      SameOpen(rows, after, k, until);
    } else {
      ForecastRewritten(rows, k, row, n - 1, until);
    }
  }

  lemma DrawnFrom(rows: seq<Entry>, k: nat, taken: int, until: int)
    requires k < |rows| && rows[k].isBucket && rows[k].amount > 0 && taken > 0
    ensures
      var after := TakenFromEntry(rows, k, taken);
      && History(after) == History(rows) && Real(after, until) == Real(rows, until)
      && (Open(after, |after|, until) == Open(rows, |rows|, until) <==> rows[k].date > until)
  {
    if rows[k].amount - taken <= 0 {
      ForecastDropped(rows, k, |rows|, until);
    } else {
      ForecastRewritten(rows, k, rows[k].(amount := rows[k].amount - taken), |rows|, until);
    }
  }

  /** Drawing on a forecast touches nothing that happened, and moves a side exactly
      when the forecast was due by the day and counted. */
  lemma DrawingMoves(rows: seq<Entry>, after: seq<Entry>, records: seq<Record>, left: seq<Record>, k: nat, taken: int,
                     until: int, leaveOut: bool)
    requires Agree(rows, records) && k < |rows| && rows[k].isBucket && taken > 0
    requires after == TakenFromEntry(rows, k, taken) && Agree(after, left)
    ensures History(after) == History(rows) && Real(after, until) == Real(rows, until)
    ensures Side(after, until, leaveOut) == Side(rows, until, leaveOut) <==> leaveOut || rows[k].date > until
  {
    AgreedForecasts(rows, records);
    AgreedForecasts(after, left);
    RealAndOpen(rows, |rows|, until);
    RealAndOpen(after, |after|, until);
    DrawnFrom(rows, k, taken, until);
  }

  /** No forecast is left on or before a day. */
  ghost predicate NoneDue(rows: seq<Entry>, onDate: int) {
    forall i :: 0 <= i < |rows| && rows[i].isBucket ==> rows[i].date > onDate
  }

  /** A side nothing later can disturb: its forecasts left out, or none of them due. */
  ghost predicate Quiet(rows: seq<Entry>, onDate: int, leaveOut: bool) {
    leaveOut || NoneDue(rows, onDate)
  }

  lemma QuietBySameForecasts(one: seq<Entry>, two: seq<Entry>, onDate: int, leaveOut: bool)
    requires Forecast(one, |one|) == Forecast(two, |two|) && Quiet(one, onDate, leaveOut)
    ensures Quiet(two, onDate, leaveOut)
  {
    if !leaveOut {
      forall k | 0 <= k < |two| && two[k].isBucket ensures two[k].date > onDate {
        var j := Heard(two, |two|, k);
        var i := HeardFrom(one, |one|, j);
      }
    }
  }

  // --------------------------------------------- the figures, row by row

  /** A row counts from its day on, unless it is an open forecast and they are left out. */
  lemma SideOneMore(rows: seq<Entry>, e: Entry, until: int, leaveOut: bool)
    ensures Side([], until, leaveOut) == 0
    ensures Side(rows + [e], until, leaveOut)
         == Side(rows, until, leaveOut)
            + if e.date <= until && !(leaveOut && e.isBucket && e.amount > 0) then e.amount else 0
  {
    SameStored(rows, rows + [e], |rows|, until);
    SameOpen(rows, rows + [e], |rows|, until);
  }

  /** What income brings in is added, and what is spent taken away. */
  lemma NetOneMore(income: seq<Entry>, incomeOut: bool, expense: seq<Entry>, expenseOut: bool, e: Entry, until: int)
    requires !e.isBucket && e.date <= until
    ensures Net([], incomeOut, [], expenseOut, until) == 0
    ensures Net(income + [e], incomeOut, expense, expenseOut, until)
         == Net(income, incomeOut, expense, expenseOut, until) + e.amount
    ensures Net(income, incomeOut, expense + [e], expenseOut, until)
         == Net(income, incomeOut, expense, expenseOut, until) - e.amount
  {
    SideOneMore(income, e, until, incomeOut);
    SideOneMore(expense, e, until, expenseOut);
  }

  /** A cell holds the rows of its category and day that have happened. */
  lemma CellOneMore(rows: seq<Entry>, e: Entry, category: int, date: int)
    ensures
      var here := e.category == category && e.date == date && !e.isBucket;
      && CellAmount([], category, date) == 0 && RealRows([], category, date) == 0
      && CellAmount(rows + [e], category, date) == CellAmount(rows, category, date) + (if here then e.amount else 0)
      && RealRows(rows + [e], category, date) == RealRows(rows, category, date) + if here then 1 else 0
  {
    SameTotals(rows, rows + [e], |rows|, category, date, 0);
  }

  lemma {:induction false} ClearedElsewhere(rows: seq<Entry>, n: nat, category: int, date: int, other: int, day: int)
    requires n <= |rows| && (other != category || day != date)
    ensures
      var left := Cleared(rows, n, category, date);
      Cell(left, |left|, other, day) == Cell(rows, n, other, day)
  {
    if n > 0 {
      var before := Cleared(rows, n - 1, category, date);
      ClearedElsewhere(rows, n - 1, category, date, other, day);
      if InCell(rows[n - 1], category, date) {
        assert before + [] == before;
      } else {
        SameTotals(before, before + [rows[n - 1]], |before|, other, day, 0);
      }
    }
  }

  lemma {:induction false} RewrittenElsewhere(rows: seq<Entry>, n: nat, k: nat, row: Entry, other: int, day: int)
    requires k < |rows| && n <= |rows|
    requires row.category == rows[k].category && row.date == rows[k].date
    requires other != row.category || day != row.date
    ensures Cell(rows[k := row], n, other, day) == Cell(rows, n, other, day)
  {
    if n > 0 {
      RewrittenElsewhere(rows, n - 1, k, row, other, day);
    }
  }

  lemma UpdatedElsewhere(rows: seq<Entry>, newId: int, category: int, date: int, amount: int, other: int, day: int)
    requires other != category || day != date
    ensures CellAmount(Updated(rows, newId, category, date, amount), other, day) == CellAmount(rows, other, day)
  {
    match FirstReal(rows, 0, category, date) {
      case Some(k) => RewrittenElsewhere(rows, |rows|, k, rows[k].(amount := amount, processed := true), other, day);
      case None => CellOneMore(rows, RealRow(newId, category, date, amount), other, day);
    }
  }

  lemma CellSetElsewhere(rows: seq<Entry>, newId: int, category: int, date: int, amount: int, other: int, day: int)
    requires other != category || day != date
    ensures CellAmount(CellSet(rows, newId, category, date, amount), other, day) == CellAmount(rows, other, day)
  {
    var left := Cleared(rows, |rows|, category, date);
    ClearedElsewhere(rows, |rows|, category, date, other, day);
    UpdatedElsewhere(left, newId, category, date, amount, other, day);
    UpdatedElsewhere(rows, newId, category, date, amount, other, day);
  }

  /** The one row a cell is set to has happened, and is paid. */
  lemma RowOfTheCell(rows: seq<Entry>, newId: int, category: int, date: int, amount: int) returns (k: nat)
    requires amount != 0
    ensures
      var after := CellSet(rows, newId, category, date, amount);
      && k < |after| && after[k].category == category && after[k].date == date && after[k].amount == amount
      && !after[k].isBucket && after[k].processed
  {
    var from := if RealRows(rows, category, date) != 1 then Cleared(rows, |rows|, category, date) else rows;
    var first := FirstReal(from, 0, category, date);
    k := if first.Some? then first.value else |from|;
  }

  lemma {:induction false} CellOfHistory(rows: seq<Entry>, n: nat, category: int, date: int)
    requires n <= |rows|
    ensures
      var past := Happened(rows, n);
      && Cell(past, |past|, category, date) == Cell(rows, n, category, date)
      && RealCount(past, |past|, category, date) == RealCount(rows, n, category, date)
  {
    if n > 0 {
      var before := Happened(rows, n - 1);
      CellOfHistory(rows, n - 1, category, date);
      if rows[n - 1].isBucket {
        assert before + [] == before;
      } else {
        SameTotals(before, before + [rows[n - 1]], |before|, category, date, 0);
      }
    }
  }

  /** The cell of a correction holds the amount, in one row or in none for nothing, and every
      other cell of its list holds what it did. */
  ghost predicate Holds(after: seq<Entry>, before: seq<Entry>, category: Option<int>, date: int, amount: int) {
    && (category.Some? ==>
          && CellAmount(after, category.value, date) == amount
          && RealRows(after, category.value, date) == if amount == 0 then 0 else 1)
    && forall other, day :: (category == Some(other) && day == date)
         || CellAmount(after, other, day) == CellAmount(before, other, day)
  }

  lemma SetInHolds(rows: seq<Entry>, newId: int, category: Option<int>, date: int, amount: int)
    ensures Holds(SetIn(rows, newId, category, date, amount), rows, category, date, amount)
  {
    if category.Some? {
      CellSetTotals(rows, newId, category.value, date, amount, date);
      forall other, day | other != category.value || day != date
        ensures CellAmount(SetIn(rows, newId, category, date, amount), other, day) == CellAmount(rows, other, day)
      {
        CellSetElsewhere(rows, newId, category.value, date, amount, other, day);
      }
    }
  }

  lemma HoldsByHistory(after: seq<Entry>, written: seq<Entry>, before: seq<Entry>, category: Option<int>, date: int,
                       amount: int)
    requires History(after) == History(written) && Holds(written, before, category, date, amount)
    ensures Holds(after, before, category, date, amount)
  {
    forall other, day
      ensures CellAmount(after, other, day) == CellAmount(written, other, day)
      ensures RealRows(after, other, day) == RealRows(written, other, day)
    {
      CellOfHistory(after, |after|, other, day);
      CellOfHistory(written, |written|, other, day);
    }
  }

  // -------------------------------------------------------------- confirming

  lemma {:induction false} ConfirmedTotals(rows: seq<Entry>, k: nat, n: nat, until: int)
    requires k < |rows| && n <= |rows|
    ensures Total(rows[k := Confirmed(rows[k], rows[k].amount)], n, until, true) == Total(rows, n, until, true)
  {
    if n > 0 {
      ConfirmedTotals(rows, k, n - 1, until);
    }
  }

  function StoredTotal(rows: seq<Entry>, until: int): int {
    Total(rows, |rows|, until, true)
  }

  lemma ConfirmTotals(rows: seq<Entry>, id: int, until: int)
    ensures StoredTotal(Confirm(rows, id), until) == StoredTotal(rows, until)
  {
    var k := FindForecast(rows, 0, id);
    if k.Some? {
      ConfirmedTotals(rows, k.value, |rows|, until);
    }
  }

  /** Another amount moves the stored total by the difference, once its day is counted. */
  lemma {:induction false} AmountMoves(rows: seq<Entry>, k: nat, now: Entry, n: nat, until: int)
    requires k < n <= |rows| && now.date == rows[k].date
    ensures Total(rows[k := now], n, until, true)
         == Total(rows, n, until, true) + if rows[k].date <= until then now.amount - rows[k].amount else 0
  {
    if k == n - 1 {
      SameStored(rows, rows[k := now], k, until);
    } else {
      AmountMoves(rows, k, now, n - 1, until);
    }
  }

  lemma {:induction false} SameStored(one: seq<Entry>, two: seq<Entry>, n: nat, until: int)
    requires n <= |one| && n <= |two| && forall i :: 0 <= i < n ==> one[i] == two[i]
    ensures Total(one, n, until, true) == Total(two, n, until, true)
  {
    if n > 0 {
      SameStored(one, two, n - 1, until);
    }
  }

  /** Answered with an amount, a forecast moves the stored total by that less its own figure;
      answered as it stood, by nothing. */
  lemma AnsweringMoves(rows: seq<Entry>, records: seq<Record>, id: int, amount: int, day: int, until: int, k: nat)
    requires Buckets.DistinctIds(rows) && k < |rows| && rows[k].id == id && rows[k].isBucket && amount > 0
    ensures
      var after := Buckets.Resolved(rows, records, id, Buckets.CameThroughAmount(amount), day).0;
      StoredTotal(after, until)
      == StoredTotal(rows, until) + if rows[k].date <= until then amount - rows[k].amount else 0
    ensures
      StoredTotal(Buckets.Resolved(rows, records, id, Buckets.CameThrough, day).0, until) == StoredTotal(rows, until)
  {
    Buckets.ResolvedTells(rows, records, id, Buckets.CameThroughAmount(amount), day, k);
    Buckets.ResolvedTells(rows, records, id, Buckets.CameThrough, day, k);
    var said := Buckets.Resolved(rows, records, id, Buckets.CameThroughAmount(amount), day).0;
    var stood := Buckets.Resolved(rows, records, id, Buckets.CameThrough, day).0;
    assert said == rows[k := said[k]] && stood == rows[k := stood[k]];
    AmountMoves(rows, k, said[k], |rows|, until);
    AmountMoves(rows, k, stood[k], |rows|, until);
  }

  /** Saying yes, line after line, moves no side of the stored balance. */
  lemma {:induction false} ConfirmingMovesNothing(all: Rows, lines: seq<Item>, n: nat, table: Table, until: int)
    requires n <= |lines|
    ensures StoredTotal(RowsOf(AfterLines(all, lines, n), table), until) == StoredTotal(RowsOf(all, table), until)
  {
    if n > 0 {
      var x := lines[n - 1];
      ConfirmingMovesNothing(all, lines, n - 1, table, until);
      ConfirmTotals(RowsOf(AfterLines(all, lines, n - 1), x.table), x.id, until);
    }
  }

  /** With nothing pending, no forecast is due on a table the feed leaves alone. */
  lemma NothingPendingNothingDue(s: Setting, all: Rows, table: Table, onDate: int)
    requires Pending(s, all, onDate) == [] && s.feeds(table) == NotFed && ForecastsSomething(RowsOf(all, table))
    ensures NoneDue(RowsOf(all, table), onDate)
  {
    var rows := RowsOf(all, table);
    forall i | 0 <= i < |rows| && rows[i].isBucket ensures rows[i].date > onDate {
      if rows[i].date <= onDate {
        var x := ItemOf(table, rows[i], s.names(table));
        PendingHas(table, s.feeds(table), s.names(table), rows, onDate, |rows|, x);
        SortHas(Gathered(s, all, onDate), Before, x);
      }
    }
  }

  lemma {:induction false} LinesKeepSomething(all: Rows, lines: seq<Item>, n: nat, table: Table)
    requires n <= |lines| && ForecastsSomething(RowsOf(all, table))
    ensures ForecastsSomething(RowsOf(AfterLines(all, lines, n), table))
  {
    if n > 0 {
      var x, rows := lines[n - 1], AfterLines(all, lines, n - 1);
      LinesKeepSomething(all, lines, n - 1, table);
      ConfirmKeepsSomething(RowsOf(rows, table), x.id);
    }
  }

  lemma ConfirmKeepsSomething(rows: seq<Entry>, id: int)
    requires ForecastsSomething(rows)
    ensures ForecastsSomething(Confirm(rows, id))
  {
  }

  /** Every line answered, no forecast is due on a table the feed leaves alone. */
  lemma AnsweredIsQuiet(s: Setting, all: Rows, onDate: int, table: Table)
    requires AllDistinct(all) && ForecastsSomething(RowsOf(all, table)) && s.feeds(table) == NotFed
    ensures
      var lines := Pending(s, all, onDate);
      NoneDue(RowsOf(AfterLines(all, lines, |lines|), table), onDate)
  {
    var lines := Pending(s, all, onDate);
    LinesLeave(s, all, onDate, |lines|);
    LinesKeepSomething(all, lines, |lines|, table);
    NothingPendingNothingDue(s, AfterLines(all, lines, |lines|), table, onDate);
  }

  // ------------------------------------------- nothing new to answer for

  /** Whatever forecasts a list has, another had on the same day of the same category. */
  ghost predicate FromForecasts(after: seq<Entry>, before: seq<Entry>) {
    forall k :: 0 <= k < |after| && after[k].isBucket ==> HadBefore(before, after[k])
  }

  ghost predicate HadBefore(before: seq<Entry>, e: Entry) {
    exists i :: 0 <= i < |before| && before[i].isBucket && before[i].date == e.date && before[i].category == e.category
  }

  lemma HadBeforeThat(one: seq<Entry>, two: seq<Entry>, e: Entry)
    requires HadBefore(two, e) && FromForecasts(two, one)
    ensures HadBefore(one, e)
  {
    var i :| 0 <= i < |two| && two[i].isBucket && two[i].date == e.date && two[i].category == e.category;
    assert HadBefore(one, two[i]);
  }

  lemma FromForecastsAgain(one: seq<Entry>, two: seq<Entry>, three: seq<Entry>)
    requires FromForecasts(two, one) && FromForecasts(three, two)
    ensures FromForecasts(three, one)
  {
    forall k | 0 <= k < |three| && three[k].isBucket ensures HadBefore(one, three[k]) {
      HadBeforeThat(one, two, three[k]);
    }
  }

  lemma SetInForecasts(rows: seq<Entry>, newId: int, category: Option<int>, date: int, amount: int)
    requires NoForecastIn(rows, category, date)
    ensures FromForecasts(SetIn(rows, newId, category, date, amount), rows)
  {
    var after := SetIn(rows, newId, category, date, amount);
    if category.Some? {
      CellSetForecast(rows, newId, category.value, date, amount);
    }
    forall k | 0 <= k < |after| && after[k].isBucket ensures HadBefore(rows, after[k]) {
      var j := Heard(after, |after|, k);
      var i := HeardFrom(rows, |rows|, j);
    }
  }

  lemma CorrectedForecasts(income: seq<Entry>, incomeId: int, expense: seq<Entry>, expenseId: int, c: Categories,
                           date: int, difference: int)
    requires NoForecastIn(income, c.inc, date) && NoForecastIn(expense, c.exp, date)
    ensures
      var (income', expense') := Corrected(income, incomeId, expense, expenseId, c, date, difference);
      FromForecasts(income', income) && FromForecasts(expense', expense)
  {
    var target := Target(income, expense, c, date, difference);
    SetInForecasts(income, incomeId, c.inc, date, Above(target));
    SetInForecasts(expense, expenseId, c.exp, date, Above(-target));
  }

  lemma DrawnForecasts(rows: seq<Entry>, k: nat, taken: int)
    requires k < |rows|
    ensures FromForecasts(TakenFromEntry(rows, k, taken), rows)
  {
    var after := TakenFromEntry(rows, k, taken);
    forall j | 0 <= j < |after| && after[j].isBucket ensures HadBefore(rows, after[j]) {
      if rows[k].amount - taken <= 0 {
        assert after[j] == rows[if j < k then j else j + 1];
      } else {
        assert after[j].date == rows[j].date && after[j].category == rows[j].category;
      }
    }
  }

  lemma NoForecastStays(rows: seq<Entry>, after: seq<Entry>, category: Option<int>, date: int)
    requires FromForecasts(after, rows) && NoForecastIn(rows, category, date)
    ensures NoForecastIn(after, category, date)
  {
    if category.Some? {
      forall k | 0 <= k < |after| && after[k].isBucket ensures !InCell(after[k], category.value, date) {
        assert HadBefore(rows, after[k]);
      }
    }
  }

  /** Nothing pending: no row of any table is. */
  lemma {:induction false} NothingPending(s: Setting, all: Rows, onDate: int)
    ensures Pending(s, all, onDate) == []
            <==> forall table, i :: 0 <= i < |RowsOf(all, table)| ==>
                   !IsPending(s.feeds(table), RowsOf(all, table)[i], onDate)
  {
    SortPermutes(Gathered(s, all, onDate), Before);
    if Pending(s, all, onDate) == [] {
      forall table, i | 0 <= i < |RowsOf(all, table)|
        ensures !IsPending(s.feeds(table), RowsOf(all, table)[i], onDate)
      {
        NoneOfThem(s, all, onDate, table, i);
      }
    } else {
      var k := LineIsARow(s, all, onDate, Pending(s, all, onDate)[0]);
    }
  }

  lemma NoneOfThem(s: Setting, all: Rows, onDate: int, table: Table, i: nat)
    requires Pending(s, all, onDate) == [] && i < |RowsOf(all, table)|
    ensures !IsPending(s.feeds(table), RowsOf(all, table)[i], onDate)
  {
    var rows := RowsOf(all, table);
    if IsPending(s.feeds(table), rows[i], onDate) {
      var x := ItemOf(table, rows[i], s.names(table));
      PendingHas(table, s.feeds(table), s.names(table), rows, onDate, |rows|, x);
      SortHas(Gathered(s, all, onDate), Before, x);
    }
  }

  ghost predicate AllForSomething(all: Rows) {
    ForecastsSomething(all.income) && ForecastsSomething(all.expense) && ForecastsSomething(all.cards)
  }

  /** No table has a forecast in a cell where it had none. */
  ghost predicate NoneMoreForecast(after: Rows, before: Rows) {
    && FromForecasts(after.income, before.income) && FromForecasts(after.expense, before.expense)
    && FromForecasts(after.cards, before.cards)
  }

  lemma TableKeepsToForecasts(after: Rows, before: Rows, table: Table)
    requires NoneMoreForecast(after, before)
    ensures FromForecasts(RowsOf(after, table), RowsOf(before, table))
  {
  }

  lemma {:induction false} StaysUnasked(feed: Feed, before: seq<Entry>, e: Entry, onDate: int)
    requires ForecastsSomething(before) && HadBefore(before, e)
    requires forall i :: 0 <= i < |before| ==> !IsPending(feed, before[i], onDate)
    ensures !IsPending(feed, e, onDate)
  {
    var i :| 0 <= i < |before| && before[i].isBucket && before[i].date == e.date && before[i].category == e.category;
  }

  /** Nothing was pending, and no forecast is there that was not: nothing is. */
  lemma StillNothingPending(s: Setting, before: Rows, after: Rows, onDate: int)
    requires NoneMoreForecast(after, before)
    ensures Pending(s, before, onDate) == [] && AllForSomething(before) ==> Pending(s, after, onDate) == []
  {
    NothingPending(s, before, onDate);
    NothingPending(s, after, onDate);
    if Pending(s, before, onDate) == [] && AllForSomething(before) {
      forall table, k | 0 <= k < |RowsOf(after, table)|
        ensures !IsPending(s.feeds(table), RowsOf(after, table)[k], onDate)
      {
        var e, rows := RowsOf(after, table)[k], RowsOf(before, table);
        TableKeepsToForecasts(after, before, table);
        if e.isBucket {
          StaysUnasked(s.feeds(table), rows, e, onDate);
        }
      }
    }
  }

  // --------------------------------------------------------------- the match

  datatype Outcome = Agreed | NoCategory | Written(difference: int)

  /** An id no row of a list has. */
  function Beyond(rows: seq<Entry>): (id: int)
    ensures forall i :: 0 <= i < |rows| ==> rows[i].id < id
  {
    if rows == [] then 0
    else
      var n := |rows| - 1;
      assert rows == rows[..n] + [rows[n]];
      var before := Beyond(rows[..n]);
      if rows[n].id < before then before else rows[n].id + 1
  }

  class Accounts {
    const tables: Tables
    const categories: Categories
    const isBill: (Table, int) -> bool

    constructor (tables: Tables, categories: Categories, isBill: (Table, int) -> bool)
      ensures this.tables == tables && this.categories == categories && this.isBill == isBill
    {
      this.tables, this.categories, this.isBill := tables, categories, isBill;
    }

    /** Whether a table's open forecasts are taken back out of the comparison: only
        those of a table the feed answers for. */
    predicate LeavesOut(table: Table, ignore: bool) {
      ignore && tables.setting.feeds(table) != NotFed
    }

    /** app_balance, with open_forecast_offsets when the figure is a bank's. */
    function Measured(onDate: int, ignore: bool): int
      reads tables.income, tables.expense
    {
      Net(tables.income.entries, LeavesOut(Income, ignore), tables.expense.entries, LeavesOut(Expense, ignore), onDate)
    }

    ghost predicate Ready(onDate: int, incomeId: int, expenseId: int)
      reads tables.income, tables.expense, tables.cards
    {
      && tables.Valid()
      && NewId(tables.income.entries, incomeId) && NoForecastIn(tables.income.entries, categories.inc, onDate)
      && NewId(tables.expense.entries, expenseId) && NoForecastIn(tables.expense.entries, categories.exp, onDate)
    }

    /** Neither side has a forecast in it that anything later could turn. */
    ghost predicate Calm(onDate: int, ignore: bool)
      reads tables.income, tables.expense
    {
      && Quiet(tables.income.entries, onDate, LeavesOut(Income, ignore))
      && Quiet(tables.expense.entries, onDate, LeavesOut(Expense, ignore))
    }

    function CorrectedBy(date: int, difference: int, incomeId: int, expenseId: int): (seq<Entry>, seq<Entry>)
      reads tables.income, tables.expense
    {
      Corrected(tables.income.entries, incomeId, tables.expense.entries, expenseId, categories, date, difference)
    }

    /** _write_correction: _set_cell on the income side, then on the expense side. */
    method WriteCorrection(date: int, difference: int, incomeId: int, expenseId: int, ghost ignore: bool)
      requires Ready(date, incomeId, expenseId)
      modifies tables.income, tables.expense
      ensures tables.Valid()
      ensures (tables.income.entries, tables.expense.entries) == old(CorrectedBy(date, difference, incomeId, expenseId))
      ensures old(Calm(date, ignore)) ==> Calm(date, ignore)
    {
      var have := 0;
      if categories.inc.Some? {
        have := have + CellAmount(tables.income.entries, categories.inc.value, date);
      }
      if categories.exp.Some? {
        have := have - CellAmount(tables.expense.entries, categories.exp.value, date);
      }
      var target := have + difference;
      ghost var after := CorrectedBy(date, difference, incomeId, expenseId);
      SetSide(tables.income, incomeId, categories.inc, date, Above(target), LeavesOut(Income, ignore));
      assert tables.income.entries == after.0;
      SetSide(tables.expense, expenseId, categories.exp, date, Above(-target), LeavesOut(Expense, ignore));
    }

    /** _set_cell on one side, when it has a category. */
    method SetSide(store: Store, newId: int, category: Option<int>, date: int, amount: int, ghost leaveOut: bool)
      requires store.Valid() && NewId(store.entries, newId) && NoForecastIn(store.entries, category, date)
      modifies store
      ensures store.Valid() && store.records == old(store.records)
      ensures store.entries == SetIn(old(store.entries), newId, category, date, amount)
      ensures Quiet(old(store.entries), date, leaveOut) ==> Quiet(store.entries, date, leaveOut)
    {
      SetInMoves(store.entries, store.records, newId, category, date, amount, date, leaveOut);
      SideStaysQuiet(store.entries, store.records, newId, category, date, amount, leaveOut);
      if category.Some? {
        store.entries := CellSet(store.entries, newId, category.value, date, amount);
      }
    }

    /** The forecast the correction was part of, drawn on as by the same entry typed. */
    method DrawDown(table: Table, store: Store, category: int, onDate: int, amount: int, today: int, until: int,
                    ghost leaveOut: bool)
      requires store.Valid() && amount > 0
      modifies store
      ensures store.Valid()
      ensures History(store.entries) == History(old(store.entries))
      ensures Quiet(old(store.entries), until, leaveOut) ==>
        Side(store.entries, until, leaveOut) == Side(old(store.entries), until, leaveOut)
      ensures FromForecasts(store.entries, old(store.entries))
    {
      ghost var entries, records := store.entries, store.records;
      var bill := isBill(table, category);
      var k := store.Deplete(category, onDate, amount, today, None, bill, None);
      if k.Some? {
        ghost var taken := if bill then entries[k.value].amount else amount;
        DrawingMoves(entries, store.entries, records, store.records, k.value, taken, until, leaveOut);
        DrawnForecasts(entries, k.value, taken);
      }
    }

    /** What the correction draws on is on the side the difference falls. */
    method DrawOn(difference: int, onDate: int, today: int, ghost ignore: bool)
      requires tables.Valid() && difference != 0
      requires (if difference > 0 then categories.inc else categories.exp).Some?
      modifies tables.income, tables.expense
      ensures tables.Valid()
      ensures History(tables.income.entries) == History(old(tables.income.entries))
      ensures History(tables.expense.entries) == History(old(tables.expense.entries))
      ensures old(Calm(onDate, ignore)) ==> Measured(onDate, ignore) == old(Measured(onDate, ignore))
      ensures FromForecasts(tables.income.entries, old(tables.income.entries))
      ensures FromForecasts(tables.expense.entries, old(tables.expense.entries))
    {
      if difference > 0 {
        DrawDown(Income, tables.income, categories.inc.value, onDate, difference, today, onDate,
                 LeavesOut(Income, ignore));
      } else {
        DrawDown(Expense, tables.expense, categories.exp.value, onDate, -difference, today, onDate,
                 LeavesOut(Expense, ignore));
      }
    }

    method WriteAndDraw(difference: int, onDate: int, today: int, incomeId: int, expenseId: int, ghost ignore: bool)
      requires Ready(onDate, incomeId, expenseId) && difference != 0
      requires (if difference > 0 then categories.inc else categories.exp).Some?
      modifies tables.income, tables.expense
      ensures tables.Valid()
      ensures
        var (income, expense) := old(CorrectedBy(onDate, difference, incomeId, expenseId));
        && History(tables.income.entries) == History(income) && History(tables.expense.entries) == History(expense)
        && (old(Calm(onDate, ignore)) ==>
              Measured(onDate, ignore)
              == Net(income, LeavesOut(Income, ignore), expense, LeavesOut(Expense, ignore), onDate))
      ensures FromForecasts(tables.income.entries, old(tables.income.entries))
      ensures FromForecasts(tables.expense.entries, old(tables.expense.entries))
    {
      CorrectedForecasts(tables.income.entries, incomeId, tables.expense.entries, expenseId, categories, onDate,
                         difference);
      WriteCorrection(onDate, difference, incomeId, expenseId, ignore);
      ghost var income, expense := tables.income.entries, tables.expense.entries;
      DrawOn(difference, onDate, today, ignore);
      FromForecastsAgain(old(tables.income.entries), income, tables.income.entries);
      FromForecastsAgain(old(tables.expense.entries), expense, tables.expense.entries);
    }

    /** Which side each forecast stays on: a table is left out only when told to be, and fed. */
    lemma MeasuredIs(onDate: int, ignore: bool)
      ensures
        var fed := (table: Table) => tables.setting.feeds(table) != NotFed;
        Measured(onDate, ignore)
        == Side(tables.income.entries, onDate, ignore && fed(Income))
           - Side(tables.expense.entries, onDate, ignore && fed(Expense))
    {
    }

    /** Both sides of a correction, cell by cell: the difference added to what the day's two
        cells hold between them, and left as income, or as an expense when it is below nothing. */
    ghost predicate BothHold(after: Rows, before: Rows, date: int, difference: int) {
      var inc := if categories.inc.Some? then CellAmount(before.income, categories.inc.value, date) else 0;
      var exp := if categories.exp.Some? then CellAmount(before.expense, categories.exp.value, date) else 0;
      var target := inc - exp + difference;
      && Holds(after.income, before.income, categories.inc, date, if target > 0 then target else 0)
      && Holds(after.expense, before.expense, categories.exp, date, if target < 0 then -target else 0)
    }

    lemma WrittenHolds(after: Rows, before: Rows, date: int, difference: int, incomeId: int, expenseId: int)
      requires
        var (income, expense) :=
          Corrected(before.income, incomeId, before.expense, expenseId, categories, date, difference);
        History(after.income) == History(income) && History(after.expense) == History(expense)
      ensures BothHold(after, before, date, difference)
    {
      var target := Target(before.income, before.expense, categories, date, difference);
      var (income, expense) :=
        Corrected(before.income, incomeId, before.expense, expenseId, categories, date, difference);
      SetInHolds(before.income, incomeId, categories.inc, date, Above(target));
      SetInHolds(before.expense, expenseId, categories.exp, date, Above(-target));
      HoldsByHistory(after.income, income, before.income, categories.inc, date, Above(target));
      HoldsByHistory(after.expense, expense, before.expense, categories.exp, date, Above(-target));
    }

    ghost predicate Lands(onDate: int, ignore: bool, difference: int, incomeId: int, expenseId: int)
      reads tables.income, tables.expense
    {
      var (income, expense) := CorrectedBy(onDate, difference, incomeId, expenseId);
      Net(income, LeavesOut(Income, ignore), expense, LeavesOut(Expense, ignore), onDate)
      == Measured(onDate, ignore) + difference
    }

    lemma LandsExactly(onDate: int, ignore: bool, difference: int, incomeId: int, expenseId: int)
      requires Ready(onDate, incomeId, expenseId)
      ensures Lands(onDate, ignore, difference, incomeId, expenseId)
              <==> HasASide(categories,
                            Target(tables.income.entries, tables.expense.entries, categories, onDate, difference))
    {
      CorrectionMoves(tables.income.entries, tables.income.records, incomeId, LeavesOut(Income, ignore),
                      tables.expense.entries, tables.expense.records, expenseId, LeavesOut(Expense, ignore),
                      categories, onDate, difference, onDate);
    }

    /** apply, from measuring on: what is written when the figures differ, and what is
        then drawn on. */
    method Correct(actual: int, onDate: int, ignore: bool, today: int, incomeId: int, expenseId: int)
      returns (outcome: Outcome)
      requires Ready(onDate, incomeId, expenseId)
      modifies tables.income, tables.expense
      ensures tables.Valid()
      ensures
        var income, expense := old(tables.income.entries), old(tables.expense.entries);
        var difference := actual - old(Measured(onDate, ignore));
        var target := Target(income, expense, categories, onDate, difference);
        var written := Corrected(income, incomeId, expense, expenseId, categories, onDate, difference);
        && (outcome == Agreed <==> difference == 0)
        && (outcome == NoCategory <==>
             (difference > 0 && categories.inc.None?) || (difference < 0 && categories.exp.None?))
        && (!outcome.Written? ==> tables.income.entries == income && tables.expense.entries == expense)
        && (outcome.Written? ==>
             && outcome.difference == difference
             && History(tables.income.entries) == History(written.0)
             && History(tables.expense.entries) == History(written.1)
             && (old(Calm(onDate, ignore)) ==> (Measured(onDate, ignore) == actual <==> HasASide(categories, target))))
      ensures outcome.Written? ==> BothHold(tables.All(), old(tables.All()), onDate, outcome.difference)
      ensures NoneMoreForecast(tables.All(), old(tables.All()))
    {
      ghost var before := tables.All();
      var difference := actual - Measured(onDate, ignore);
      if difference == 0 {
        return Agreed;
      }
      if (if difference > 0 then categories.inc else categories.exp) == None {
        return NoCategory;
      }
      LandsExactly(onDate, ignore, difference, incomeId, expenseId);
      WriteAndDraw(difference, onDate, today, incomeId, expenseId, ignore);
      WrittenHolds(tables.All(), before, onDate, difference, incomeId, expenseId);
      outcome := Written(difference);
    }

    /** The three lists as they are once what is pending is answered, or as they are. */
    function Settled(onDate: int, confirm: bool): Rows
      reads tables.income, tables.expense, tables.cards
    {
      var lines := Pending(tables.setting, tables.All(), onDate);
      if confirm then AfterLines(tables.All(), lines, AnsweredLines(lines, 0)) else tables.All()
    }

    /** No two lines of the prompt that follow one another share an id. */
    predicate EveryLine(onDate: int)
      reads tables.income, tables.expense, tables.cards
    {
      var lines := Pending(tables.setting, tables.All(), onDate);
      forall i :: 0 < i < |lines| ==> lines[i].id != lines[i - 1].id
    }

    lemma SettledIsQuiet(onDate: int, table: Table)
      requires tables.Valid() && tables.setting.feeds(table) == NotFed && EveryLine(onDate)
      ensures NoneDue(RowsOf(Settled(onDate, true), table), onDate)
    {
      AgreedForecasts(tables.income.entries, tables.income.records);
      AgreedForecasts(tables.expense.entries, tables.expense.records);
      AgreedForecasts(tables.cards.entries, tables.cards.records);
      AllAnswered(Pending(tables.setting, tables.All(), onDate));
      AnsweredIsQuiet(tables.setting, tables.All(), onDate, table);
    }

    /** Every line answered, none is left to ask, and what forecasts remain are for something. */
    lemma SettledLeavesNothing(onDate: int)
      requires tables.Valid() && EveryLine(onDate)
      ensures Pending(tables.setting, Settled(onDate, true), onDate) == []
      ensures AllForSomething(Settled(onDate, true))
    {
      var all := tables.All();
      var lines := Pending(tables.setting, all, onDate);
      AllAnswered(lines);
      LinesLeave(tables.setting, all, onDate, |lines|);
      AgreedForecasts(tables.income.entries, tables.income.records);
      AgreedForecasts(tables.expense.entries, tables.expense.records);
      AgreedForecasts(tables.cards.entries, tables.cards.records);
      LinesKeepSomething(all, lines, |lines|, Income);
      LinesKeepSomething(all, lines, |lines|, Expense);
      LinesKeepSomething(all, lines, |lines|, Cards);
    }

    /** Nothing is pending, and no forecast is for nothing. */
    ghost predicate Nothing(onDate: int)
      reads tables.income, tables.expense, tables.cards
    {
      Pending(tables.setting, tables.All(), onDate) == [] && AllForSomething(tables.All())
    }

    /** apply's first step: what is pending is answered, when it is to be. */
    method AnswerFirst(onDate: int, confirm: bool, incomeId: int, expenseId: int) returns (confirmed: nat)
      requires tables.Valid() && NewId(tables.income.entries, incomeId) && NewId(tables.expense.entries, expenseId)
      modifies tables.income, tables.expense, tables.cards
      ensures tables.Valid() && NewId(tables.income.entries, incomeId) && NewId(tables.expense.entries, expenseId)
      ensures confirmed == if confirm then AnsweredLines(Pending(tables.setting, old(tables.All()), onDate), 0) else 0
      ensures tables.All() == old(Settled(onDate, confirm))
      ensures StoredTotal(tables.income.entries, onDate) == old(StoredTotal(tables.income.entries, onDate))
      ensures StoredTotal(tables.expense.entries, onDate) == old(StoredTotal(tables.expense.entries, onDate))
      ensures forall table | confirm && tables.setting.feeds(table) == NotFed && old(EveryLine(onDate)) ::
        NoneDue(RowsOf(tables.All(), table), onDate)
      ensures confirm && old(EveryLine(onDate)) ==> Nothing(onDate)
    {
      ghost var lines := Pending(tables.setting, tables.All(), onDate);
      ghost var all, answered := tables.All(), AnsweredLines(lines, 0);
      ConfirmingMovesNothing(all, lines, answered, Income, onDate);
      ConfirmingMovesNothing(all, lines, answered, Expense, onDate);
      LinesKeepIds(all, lines, answered, Income);
      LinesKeepIds(all, lines, answered, Expense);
      if confirm && EveryLine(onDate) {
        SettledLeavesNothing(onDate);
      }
      forall table | confirm && tables.setting.feeds(table) == NotFed && EveryLine(onDate)
        ensures NoneDue(RowsOf(Settled(onDate, confirm), table), onDate)
      {
        SettledIsQuiet(onDate, table);
      }
      confirmed := 0;
      if confirm {
        confirmed := tables.ConfirmPending(onDate);
      }
    }

    /** apply, the cash part: what is pending is answered first, when it is to be, and
        the figure is matched against what is then left in. */
    method Apply(actual: int, onDate: int, confirm: bool, ignore: bool, today: int, incomeId: int, expenseId: int)
      returns (confirmed: nat, outcome: Outcome)
      requires tables.Valid() && NewId(tables.income.entries, incomeId) && NewId(tables.expense.entries, expenseId)
      requires NoForecastIn(Settled(onDate, confirm).income, categories.inc, onDate)
      requires NoForecastIn(Settled(onDate, confirm).expense, categories.exp, onDate)
      modifies tables.income, tables.expense, tables.cards
      ensures tables.Valid()
      ensures confirmed == if confirm then AnsweredLines(Pending(tables.setting, old(tables.All()), onDate), 0) else 0
      ensures
        var settled := old(Settled(onDate, confirm));
        StoredTotal(settled.income, onDate) == StoredTotal(old(tables.income.entries), onDate)
        && StoredTotal(settled.expense, onDate) == StoredTotal(old(tables.expense.entries), onDate)
      ensures
        var settled := old(Settled(onDate, confirm));
        var outs := (LeavesOut(Income, ignore), LeavesOut(Expense, ignore));
        var difference := actual - Net(settled.income, outs.0, settled.expense, outs.1, onDate);
        var target := Target(settled.income, settled.expense, categories, onDate, difference);
        && (outcome == Agreed <==> difference == 0)
        && (!outcome.Written? ==> tables.All() == settled)
        && (outcome.Written? ==> outcome.difference == difference)
        && (outcome.Written? && Quiet(settled.income, onDate, outs.0) && Quiet(settled.expense, onDate, outs.1)
            ==> (Measured(onDate, ignore) == actual <==> HasASide(categories, target)))
      ensures forall table | table == Income || table == Expense ::
        LeavesOut(table, ignore) || (confirm && tables.setting.feeds(table) == NotFed && old(EveryLine(onDate)))
        ==> Quiet(RowsOf(old(Settled(onDate, confirm)), table), onDate, LeavesOut(table, ignore))
      ensures outcome.Written? ==> BothHold(tables.All(), old(Settled(onDate, confirm)), onDate, outcome.difference)
      ensures outcome == NoCategory <==>
        outcome != Agreed && var settled := old(Settled(onDate, confirm));
        var short := actual < Net(settled.income, LeavesOut(Income, ignore), settled.expense,
                                  LeavesOut(Expense, ignore), onDate);
        (if short then categories.exp else categories.inc).None?
      ensures NoneMoreForecast(tables.All(), old(Settled(onDate, confirm)))
      ensures confirm && old(EveryLine(onDate)) ==> Pending(tables.setting, tables.All(), onDate) == []
    {
      confirmed := AnswerFirst(onDate, confirm, incomeId, expenseId);
      ghost var settled := tables.All();
      outcome := Correct(actual, onDate, ignore, today, incomeId, expenseId);
      StillNothingPending(tables.setting, settled, tables.All(), onDate);
    }

    /** Every forecast that could weigh on a side is answered first or left out. */
    predicate Accounted(onDate: int, confirm: bool, ignore: bool)
      reads tables.income, tables.expense, tables.cards
    {
      && (confirm ==> EveryLine(onDate))
      && forall table | table == Income || table == Expense ::
           LeavesOut(table, ignore) || (confirm && tables.setting.feeds(table) == NotFed)
    }

    /** The correction that a match is to write has a category on its side. */
    predicate Sided(actual: int, onDate: int, confirm: bool, ignore: bool)
      reads tables.income, tables.expense, tables.cards
    {
      var settled := Settled(onDate, confirm);
      HasASide(categories,
               Target(settled.income, settled.expense, categories, onDate,
                      actual - Net(settled.income, LeavesOut(Income, ignore),
                                   settled.expense, LeavesOut(Expense, ignore), onDate)))
    }

    /** What a match needs of the lists: ids that are new, and no forecast in the cells it writes. */
    ghost predicate Open(onDate: int, confirm: bool, incomeId: int, expenseId: int)
      reads tables.income, tables.expense, tables.cards
    {
      && tables.Valid() && NewId(tables.income.entries, incomeId) && NewId(tables.expense.entries, expenseId)
      && NoForecastIn(Settled(onDate, confirm).income, categories.inc, onDate)
      && NoForecastIn(Settled(onDate, confirm).expense, categories.exp, onDate)
    }

    /** Nothing the match is to answer is left. */
    ghost predicate Answered(onDate: int, confirm: bool)
      reads tables.income, tables.expense, tables.cards
    {
      confirm ==> Pending(tables.setting, tables.All(), onDate) == []
    }

    lemma AnsweredIsSettled(onDate: int, confirm: bool)
      requires Answered(onDate, confirm)
      ensures Settled(onDate, confirm) == tables.All()
      ensures confirm ==> AnsweredLines(Pending(tables.setting, tables.All(), onDate), 0) == 0
    {
    }

    /** A match with every forecast accounted for: the app measures the stated balance
        afterwards exactly when it did, or the correction had a side to go to. */
    method ApplyAccounted(actual: int, onDate: int, confirm: bool, ignore: bool, today: int, incomeId: int,
                          expenseId: int)
      returns (outcome: Outcome)
      requires Open(onDate, confirm, incomeId, expenseId) && Accounted(onDate, confirm, ignore)
      modifies tables.income, tables.expense, tables.cards
      ensures Answered(onDate, confirm) && tables.Valid()
      ensures NoForecastIn(tables.income.entries, categories.inc, onDate)
      ensures NoForecastIn(tables.expense.entries, categories.exp, onDate)
      ensures Measured(onDate, ignore) == actual
              <==> outcome == Agreed || (outcome.Written? && old(Sided(actual, onDate, confirm, ignore)))
      ensures !outcome.Written? ==> tables.All() == old(Settled(onDate, confirm))
    {
      ghost var settled := Settled(onDate, confirm);
      var confirmed;
      confirmed, outcome := Apply(actual, onDate, confirm, ignore, today, incomeId, expenseId);
      NoForecastStays(settled.income, tables.income.entries, categories.inc, onDate);
      NoForecastStays(settled.expense, tables.expense.entries, categories.exp, onDate);
    }

    /** A match with nothing to answer: it answers nothing, and it agrees exactly when
        the app measures the stated balance. */
    method ApplyAnswered(actual: int, onDate: int, confirm: bool, ignore: bool, today: int, incomeId: int,
                         expenseId: int)
      returns (confirmed: nat, outcome: Outcome)
      requires Answered(onDate, confirm) && Open(onDate, confirm, incomeId, expenseId)
      modifies tables.income, tables.expense, tables.cards
      ensures tables.Valid() && confirmed == 0
      ensures outcome == Agreed <==> old(Measured(onDate, ignore)) == actual
      ensures !outcome.Written? ==> tables.All() == old(tables.All())
    {
      AnsweredIsSettled(onDate, confirm);
      confirmed, outcome := Apply(actual, onDate, confirm, ignore, today, incomeId, expenseId);
    }

    /** The match made, and made again: the second time nothing is left to answer, and the
        figures agree and no list changes, exactly when they agreed to begin with or the
        correction had a side to go to. */
    method ApplyTwice(actual: int, onDate: int, confirm: bool, ignore: bool, today: int, incomeId: int, expenseId: int)
      returns (first: Outcome, again: nat, second: Outcome, ghost between: Rows)
      requires Open(onDate, confirm, incomeId, expenseId) && Accounted(onDate, confirm, ignore)
      modifies tables.income, tables.expense, tables.cards
      ensures tables.Valid() && again == 0
      ensures second == Agreed
              <==> first == Agreed || (first.Written? && old(Sided(actual, onDate, confirm, ignore)))
      ensures !first.Written? ==> between == old(Settled(onDate, confirm))
      ensures confirm ==> Pending(tables.setting, between, onDate) == []
      ensures !second.Written? ==> tables.All() == between
    {
      first := ApplyAccounted(actual, onDate, confirm, ignore, today, incomeId, expenseId);
      between := tables.All();
      AnsweredIsSettled(onDate, confirm);
      again, second := ApplyAnswered(actual, onDate, confirm, ignore, today, Beyond(tables.income.entries),
                                     Beyond(tables.expense.entries));
    }
  }

  /** Matching again writes nothing: after a correction that has a side the app
      measures the stated balance, and no forecast has come due that was not. */
  lemma MatchingAgainAgrees(income: seq<Entry>, incomeRecords: seq<Record>, incomeId: int, incomeOut: bool,
                            expense: seq<Entry>, expenseRecords: seq<Record>, expenseId: int, expenseOut: bool,
                            c: Categories, onDate: int, actual: int)
    requires Sound(income, incomeRecords) && NewId(income, incomeId) && NoForecastIn(income, c.inc, onDate)
    requires Sound(expense, expenseRecords) && NewId(expense, expenseId) && NoForecastIn(expense, c.exp, onDate)
    requires HasASide(c,
               Target(income, expense, c, onDate, actual - Net(income, incomeOut, expense, expenseOut, onDate)))
    ensures
      var difference := actual - Net(income, incomeOut, expense, expenseOut, onDate);
      var (income', expense') := Corrected(income, incomeId, expense, expenseId, c, onDate, difference);
      && Net(income', incomeOut, expense', expenseOut, onDate) == actual
      && (Quiet(income, onDate, incomeOut) ==> Quiet(income', onDate, incomeOut))
      && (Quiet(expense, onDate, expenseOut) ==> Quiet(expense', onDate, expenseOut))
  {
    var difference := actual - Net(income, incomeOut, expense, expenseOut, onDate);
    var target := Target(income, expense, c, onDate, difference);
    CorrectionMoves(income, incomeRecords, incomeId, incomeOut, expense, expenseRecords, expenseId, expenseOut,
                    c, onDate, difference, onDate);
    SideStaysQuiet(income, incomeRecords, incomeId, c.inc, onDate, Above(target), incomeOut);
    SideStaysQuiet(expense, expenseRecords, expenseId, c.exp, onDate, Above(-target), expenseOut);
  }

  lemma SideStaysQuiet(rows: seq<Entry>, records: seq<Record>, newId: int, category: Option<int>, date: int,
                       amount: int,
                       leaveOut: bool)
    requires Sound(rows, records) && NewId(rows, newId) && NoForecastIn(rows, category, date)
    ensures Quiet(rows, date, leaveOut) ==> Quiet(SetIn(rows, newId, category, date, amount), date, leaveOut)
  {
    SetInMoves(rows, records, newId, category, date, amount, date, leaveOut);
    StaysQuiet(rows, SetIn(rows, newId, category, date, amount), date, leaveOut);
  }

  lemma StaysQuiet(one: seq<Entry>, two: seq<Entry>, onDate: int, leaveOut: bool)
    requires Forecast(one, |one|) == Forecast(two, |two|)
    ensures Quiet(one, onDate, leaveOut) ==> Quiet(two, onDate, leaveOut)
  {
    if Quiet(one, onDate, leaveOut) {
      QuietBySameForecasts(one, two, onDate, leaveOut);
    }
  }
}
