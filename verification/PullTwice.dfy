/** What a pull guarantees as a whole: every row is accounted for, nothing
    reported is deleted, and pulling the same thing again changes nothing. */
module PullTwice {
  import opened Wrappers
  import opened PendingPosted
  import opened LinkedStore

  // ------------------------------------------------- one pull, row by row

  ghost predicate Distinct(ids: seq<string>) {
    forall i, j :: 0 <= i < j < |ids| ==> ids[i] != ids[j]
  }

  ghost predicate FromPool(ids: seq<string>, pool: seq<Txn>) {
    forall id :: id in ids ==> exists p :: p in pool && p.id == id
  }

  /** Every fetched row is counted once; each pending row is consumed at most once. */
  lemma {:induction false} DecideAccounts(stored: seq<Row>, pool: seq<Txn>, fetched: seq<Txn>)
    ensures
      var d := Decide(stored, pool, fetched);
      && d.added + d.updated + d.same == |fetched|
      && |d.upserts| == d.added + d.updated
      && |d.deletes| == d.matched <= d.added
      && d.removed == 0
      && Distinct(d.deletes) && FromPool(d.deletes, pool)
  {
    if fetched != [] {
      DecideAccounts(stored, pool, fetched[..|fetched| - 1]);
    }
  }

  /** One fetched row is written exactly when the store is not in step with it. */
  lemma StepWrites(stored: seq<Row>, pool: seq<Txn>, d: Decision, f: Txn)
    ensures
      var after := Step(stored, pool, d, f).upserts;
      if InStep(stored, f) then after == d.upserts
      else |after| == |d.upserts| + 1 && after[..|d.upserts|] == d.upserts && after[|d.upserts|].txn == f
  {
  }

  lemma {:induction false} DecideSplits(stored: seq<Row>, pool: seq<Txn>, fetched: seq<Txn>)
    requires fetched != []
    ensures
      var n := |fetched| - 1;
      && Decide(stored, pool, fetched) == Step(stored, pool, Decide(stored, pool, fetched[..n]), fetched[n])
      && (forall f :: f in fetched <==> f in fetched[..n] || f == fetched[n])
  {
    var n := |fetched| - 1;
    assert fetched == fetched[..n] + [fetched[n]];
  }

  /** Each fetched row is either in step with the store already or is written to it. */
  lemma {:induction false} DecideCovers(stored: seq<Row>, pool: seq<Txn>, fetched: seq<Txn>)
    ensures
      var d := Decide(stored, pool, fetched);
      && (forall u :: u in d.upserts ==> u.txn in fetched)
      && (forall f :: f in fetched ==> InStep(stored, f) || exists u :: u in d.upserts && u.txn == f)
  {
    if fetched != [] {
      var n := |fetched| - 1;
      var before, after := Decide(stored, pool, fetched[..n]), Decide(stored, pool, fetched).upserts;
      DecideCovers(stored, pool, fetched[..n]);
      DecideSplits(stored, pool, fetched);
      StepWrites(stored, pool, before, fetched[n]);
      var k := |before.upserts|;
      assert after == before.upserts + after[k..];
      assert !InStep(stored, fetched[n]) ==> after[k..] == [after[k]];
    }
  }

  ghost predicate InStep(stored: seq<Row>, f: Txn) {
    var current := Current(stored, f.id);
    current.Some? && !Changed(current.value, f)
  }

  lemma {:induction false} NothingToUpsert(stored: seq<Row>, pool: seq<Txn>, fetched: seq<Txn>)
    ensures Decide(stored, pool, fetched).upserts == [] <==> forall f :: f in fetched ==> InStep(stored, f)
  {
    if fetched != [] {
      var n := |fetched| - 1;
      NothingToUpsert(stored, pool, fetched[..n]);
      DecideSplits(stored, pool, fetched);
      StepWrites(stored, pool, Decide(stored, pool, fetched[..n]), fetched[n]);
    }
  }

  lemma {:induction false} NothingToMatch(stored: seq<Row>, pool: seq<Txn>, fetched: seq<Txn>)
    requires forall f :: f in fetched ==> Current(stored, f.id).Some?
    ensures Decide(stored, pool, fetched).deletes == []
  {
    if fetched != [] {
      var n := |fetched| - 1;
      assert fetched == fetched[..n] + [fetched[n]];
      NothingToMatch(stored, pool, fetched[..n]);
    }
  }

  /** Deletes only ever name stored pending rows the bank did not report. */
  lemma {:induction false} DeletesSpareTheReported(stored: seq<Row>, fetched: seq<Txn>, windowStart: Option<int>,
                                                   today: int, id: string)
    requires id in Reconciled(stored, fetched, windowStart, today).deletes
    ensures !Reports(fetched, id)
    ensures exists i :: 0 <= i < |stored| && stored[i].txn.id == id && stored[i].txn.pending
  {
    var pool := Pool(stored, fetched);
    DecideAccounts(stored, pool, fetched);
    var p :| p in pool && p.id == id;
  }

  /** The counts of a whole pull. */
  lemma PullAccounts(stored: seq<Row>, fetched: seq<Txn>, windowStart: Option<int>, today: int)
    ensures
      var d := Reconciled(stored, fetched, windowStart, today);
      && d.added + d.updated + d.same == |fetched|
      && |d.upserts| == d.added + d.updated
      && |d.deletes| == d.matched + d.removed
      && d.matched <= d.added
      && Distinct(d.deletes[..d.matched])
  {
    DecideAccounts(stored, Pool(stored, fetched), fetched);
    var d := Decide(stored, Pool(stored, fetched), fetched);
    assert Reconciled(stored, fetched, windowStart, today).deletes[..d.matched] == d.deletes;
  }

  // ------------------------------------------------------ the store after it

  function LastUpsert(upserts: seq<Upsert>, id: string): Option<Txn> {
    if upserts == [] then None
    else if upserts[|upserts| - 1].txn.id == id then Some(upserts[|upserts| - 1].txn)
    else LastUpsert(upserts[..|upserts| - 1], id)
  }

  lemma {:induction false} LastUpsertIs(upserts: seq<Upsert>, id: string)
    ensures
      var last := LastUpsert(upserts, id);
      && (last.Some? ==> exists u :: u in upserts && u.txn == last.value && u.txn.id == id)
      && (last.None? ==> forall u :: u in upserts ==> u.txn.id != id)
  {
    if upserts != [] {
      var n := |upserts| - 1;
      assert upserts == upserts[..n] + [upserts[n]];
      LastUpsertIs(upserts[..n], id);
    }
  }

  lemma {:induction false} CurrentAfterUpserts(rows: seq<Row>, upserts: seq<Upsert>, id: string)
    requires id != ""
    ensures Current(Upserted(rows, upserts), id)
         == if LastUpsert(upserts, id).Some? then LastUpsert(upserts, id) else Current(rows, id)
  {
    if upserts != [] {
      var n := |upserts| - 1;
      CurrentAfterUpserts(rows, upserts[..n], id);
      if upserts[n].txn.id != "" {
        UpsertIndexes(Upserted(rows, upserts[..n]), upserts[n]);
      }
    }
  }

  lemma {:induction false} CurrentAfterDeletes(rows: seq<Row>, ids: seq<string>, id: string)
    requires id !in ids
    ensures Current(Without(rows, ids), id) == Current(rows, id)
  {
    if rows != [] {
      var n := |rows| - 1;
      var kept := Without(rows[..n], ids);
      CurrentAfterDeletes(rows[..n], ids, id);
      CurrentPrefix(rows, n, id);
      if rows[n].txn.id !in ids {
        assert Without(rows, ids) == kept + [rows[n]];
        assert (kept + [rows[n]])[..|kept|] == kept;
        CurrentPrefix(kept + [rows[n]], |kept|, id);
      } else {
        assert Without(rows, ids) == kept;
      }
    }
  }

  lemma CurrentPrefix(rows: seq<Row>, n: nat, id: string)
    requires n + 1 == |rows|
    ensures Current(rows, id) == if rows[n].txn.id == id then Some(rows[n].txn) else Current(rows[..n], id)
  {
  }

  lemma {:induction false} Survivors(rows: seq<Row>, upserts: seq<Upsert>, r: Row)
    requires r in Upserted(rows, upserts)
    requires forall u :: u in upserts ==> u.txn.id != r.txn.id
    ensures r in rows
  {
    if upserts != [] {
      var n := |upserts| - 1;
      var before := Upserted(rows, upserts[..n]);
      var i :| 0 <= i < |Upserted(rows, upserts)| && Upserted(rows, upserts)[i] == r;
      assert upserts[n].txn.id != r.txn.id;
      assert i < |before| && before[i] == r;
      Survivors(rows, upserts[..n], r);
    }
  }

  ghost predicate Named(fetched: seq<Txn>) {
    forall f :: f in fetched ==> f.id != ""
  }

  /** Rows fetched under one id say the same thing. */
  ghost predicate Agrees(fetched: seq<Txn>) {
    forall f, g :: f in fetched && g in fetched && f.id == g.id ==> !Changed(f, g)
  }

  lemma {:induction false} FetchedIsStored(rows: seq<Row>, fetched: seq<Txn>, windowStart: Option<int>, today: int,
                                           f: Txn)
    requires Named(fetched) && f in fetched
    ensures
      var after := Stored(rows, Reconciled(rows, fetched, windowStart, today));
      && Current(after, f.id).Some?
      && (InStep(after, f)
          || exists g :: g in fetched && g.id == f.id && Current(after, f.id) == Some(g))
  {
    var d := Reconciled(rows, fetched, windowStart, today);
    if f.id in d.deletes {
      DeletesSpareTheReported(rows, fetched, windowStart, today, f.id);
    }
    DecideCovers(rows, Pool(rows, fetched), fetched);
    LastUpsertIs(d.upserts, f.id);
    CurrentAfterUpserts(Without(rows, d.deletes), d.upserts, f.id);
    CurrentAfterDeletes(rows, d.deletes, f.id);
  }

  lemma NotWithdrawnTwice(rows: seq<Row>, fetched: seq<Txn>, windowStart: int, today: int, id: string)
    ensures
      var after := Stored(rows, Reconciled(rows, fetched, Some(windowStart), today));
      id !in Withdrawn(Pool(after, fetched), [], windowStart, today - GRACE_DAYS)
  {
    var d := Reconciled(rows, fetched, Some(windowStart), today);
    var after := Stored(rows, d);
    if id in Withdrawn(Pool(after, fetched), [], windowStart, today - GRACE_DAYS) {
      DecideCovers(rows, Pool(rows, fetched), fetched);
      var p :| p in Pool(after, fetched) && p.id == id && windowStart <= p.date <= today - GRACE_DAYS;
      var i :| 0 <= i < |after| && after[i].txn == p;
      Survivors(Without(rows, d.deletes), d.upserts, after[i]);
      assert false;
    }
  }

  lemma NothingLeftToWithdraw(rows: seq<Row>, fetched: seq<Txn>, windowStart: int, today: int)
    ensures
      var after := Stored(rows, Reconciled(rows, fetched, Some(windowStart), today));
      Withdrawn(Pool(after, fetched), [], windowStart, today - GRACE_DAYS) == []
  {
    var after := Stored(rows, Reconciled(rows, fetched, Some(windowStart), today));
    var gone := Withdrawn(Pool(after, fetched), [], windowStart, today - GRACE_DAYS);
    if gone != [] {
      NotWithdrawnTwice(rows, fetched, windowStart, today, gone[0]);
    }
  }

  /** Every fetched row is as stored exactly when no two under one id differ. */
  lemma {:induction false} InStepExactly(rows: seq<Row>, fetched: seq<Txn>, windowStart: Option<int>, today: int)
    requires Named(fetched)
    ensures
      var after := Stored(rows, Reconciled(rows, fetched, windowStart, today));
      && (forall f :: f in fetched ==> Current(after, f.id).Some?)
      && ((forall f :: f in fetched ==> InStep(after, f)) <==> Agrees(fetched))
  {
    var after := Stored(rows, Reconciled(rows, fetched, windowStart, today));
    forall f | f in fetched
      ensures Current(after, f.id).Some? && (Agrees(fetched) ==> InStep(after, f))
    {
      FetchedIsStored(rows, fetched, windowStart, today, f);
    }
    if forall f :: f in fetched ==> InStep(after, f) {
      InStepAgrees(after, fetched);
    }
  }

  lemma {:induction false} InStepAgrees(stored: seq<Row>, fetched: seq<Txn>)
    requires forall f :: f in fetched ==> InStep(stored, f)
    ensures Agrees(fetched)
  {
  }

  /** A pull whose rows are all stored under their own ids deletes only what it withdraws. */
  lemma {:induction false} PullOfTheStored(stored: seq<Row>, fetched: seq<Txn>, windowStart: Option<int>, today: int)
    requires forall f :: f in fetched ==> Current(stored, f.id).Some?
    requires windowStart.Some? ==>
      Withdrawn(Pool(stored, fetched), [], windowStart.value, today - GRACE_DAYS) == []
    ensures
      var d := Reconciled(stored, fetched, windowStart, today);
      && d.deletes == []
      && (d.upserts == [] <==> forall f :: f in fetched ==> InStep(stored, f))
  {
    NothingToMatch(stored, Pool(stored, fetched), fetched);
    NothingToUpsert(stored, Pool(stored, fetched), fetched);
  }

  /** Pulling the same thing twice. Nothing is ever deleted the second time;
      nothing is written exactly when the bank did not contradict itself. */
  lemma SecondPull(rows: seq<Row>, fetched: seq<Txn>, windowStart: Option<int>, today: int)
    requires Named(fetched)
    ensures
      var after := Stored(rows, Reconciled(rows, fetched, windowStart, today));
      var again := Reconciled(after, fetched, windowStart, today);
      && again.deletes == []
      && (again.upserts == [] <==> Agrees(fetched))
  {
    var after := Stored(rows, Reconciled(rows, fetched, windowStart, today));
    InStepExactly(rows, fetched, windowStart, today);
    if windowStart.Some? {
      NothingLeftToWithdraw(rows, fetched, windowStart.value, today);
    }
    PullOfTheStored(after, fetched, windowStart, today);
  }

  /** The second pull leaves the stored list exactly as it was. */
  lemma SecondPullChangesNothing(rows: seq<Row>, fetched: seq<Txn>, windowStart: Option<int>, today: int)
    requires Named(fetched) && Agrees(fetched)
    ensures
      var after := Stored(rows, Reconciled(rows, fetched, windowStart, today));
      Stored(after, Reconciled(after, fetched, windowStart, today)) == after
  {
    SecondPull(rows, fetched, windowStart, today);
    WithoutNothing(Stored(rows, Reconciled(rows, fetched, windowStart, today)));
  }

  lemma {:induction false} WithoutNothing(rows: seq<Row>)
    ensures Without(rows, []) == rows
  {
    if rows != [] {
      var n := |rows| - 1;
      WithoutNothing(rows[..n]);
      assert rows[n].txn.id !in [];
      assert Without(rows, []) == rows[..n] + [rows[n]];
    }
  }

  // -------------------------------------------------------- temporary ids

  ghost predicate DistinctRows(rows: seq<Row>) {
    forall i, j :: 0 <= i < j < |rows| ==> rows[i].rowId != rows[j].rowId
  }

  /** One write keeps every row that is there under its id and its import, and adds at most one below zero. */
  ghost predicate Grown(before: seq<Row>, after: seq<Row>) {
    && |before| <= |after|
    && (forall i :: 0 <= i < |before| ==>
          after[i].rowId == before[i].rowId && after[i].importedTo == before[i].importedTo)
    && (forall i :: |before| <= i < |after| ==> after[i].rowId < 0)
  }

  lemma UpsertOneGrows(rows: seq<Row>, u: Upsert)
    requires DistinctRows(rows)
    ensures DistinctRows(UpsertOne(rows, u)) && Grown(rows, UpsertOne(rows, u))
  {
    assert forall i :: 0 <= i < |rows| ==> rows[i] in rows;
  }

  /** Temporary ids collide with nothing, however many rows one write adds, and
      an update keeps the row's own id and the entry it was imported to. */
  lemma {:induction false} UpsertsKeepRowIdsDistinct(rows: seq<Row>, upserts: seq<Upsert>)
    requires DistinctRows(rows)
    ensures DistinctRows(Upserted(rows, upserts)) && Grown(rows, Upserted(rows, upserts))
  {
    if upserts != [] {
      var n := |upserts| - 1;
      UpsertsKeepRowIdsDistinct(rows, upserts[..n]);
      UpsertOneGrows(Upserted(rows, upserts[..n]), upserts[n]);
    }
  }
}
