/** bank_redis.py: the cached list of linked transactions a pull writes to, and
    what a pull as a whole (decide, then store) does to it. */
module LinkedStore {
  import opened Wrappers
  import opened PendingPosted

  // -------------------------------------------------- the list-level effects

  function LowestId(rows: seq<Row>): (lowest: int)
    ensures lowest <= 0
    ensures forall r :: r in rows ==> lowest <= r.rowId
  {
    if rows == [] then 0
    else
      var n := |rows| - 1;
      assert rows == rows[..n] + [rows[n]];
      var before := LowestId(rows[..n]);
      if rows[n].rowId < before then rows[n].rowId else before
  }

  /** Keys the row mentions are replaced, the others kept. */
  function Merge(row: Row, u: Upsert): Row {
    row.(txn := u.txn, matched := if u.matched.Some? then u.matched else row.matched)
  }

  function UpsertOne(rows: seq<Row>, u: Upsert): seq<Row> {
    if u.txn.id == "" then rows
    else
      var at := LastIndex(rows, u.txn.id);
      if at.Some? then rows[at.value := Merge(rows[at.value], u)]
      else rows + [Row(LowestId(rows) - 1, u.txn, u.matched, None)]
  }

  function Upserted(rows: seq<Row>, upserts: seq<Upsert>): seq<Row> {
    if upserts == [] then rows
    else
      var n := |upserts| - 1;
      UpsertOne(Upserted(rows, upserts[..n]), upserts[n])
  }

  function Without(rows: seq<Row>, ids: seq<string>): (kept: seq<Row>)
    ensures forall r :: r in kept <==> r in rows && r.txn.id !in ids
  {
    if rows == [] then []
    else
      var n := |rows| - 1;
      assert rows == rows[..n] + [rows[n]];
      Without(rows[..n], ids) + if rows[n].txn.id in ids then [] else [rows[n]]
  }

  function Stored(rows: seq<Row>, d: Decision): seq<Row> {
    Upserted(Without(rows, d.deletes), d.upserts)
  }

  ghost predicate IsIndex(byId: map<string, nat>, rows: seq<Row>) {
    && (forall id :: id in byId <==> LastIndex(rows, id).Some?)
    && (forall id :: id in byId ==> LastIndex(rows, id) == Some(byId[id]))
  }

  // ------------------------------------------------------ the store, mutable

  class LinkedTransactions {
    var rows: seq<Row>

    constructor (cached: seq<Row>)
      ensures rows == cached
    {
      rows := cached;
    }

    /** Below every id in the list and below zero. */
    method NextTempId() returns (id: int)
      ensures id == LowestId(rows) - 1
    {
      var lowest := 0;
      for k := 0 to |rows|
        invariant lowest == LowestId(rows[..k])
      {
        assert rows[..k + 1][..k] == rows[..k];
        if rows[k].rowId < lowest {
          lowest := rows[k].rowId;
        }
      }
      assert rows[..|rows|] == rows;
      return lowest - 1;
    }

    /** The id index over the list: a later row with the same id wins. */
    method IndexById() returns (byId: map<string, nat>)
      ensures IsIndex(byId, rows)
    {
      byId := map[];
      for k := 0 to |rows|
        invariant IsIndex(byId, rows[..k])
      {
        assert rows[..k + 1][..k] == rows[..k];
        byId := byId[rows[k].txn.id := k];
      }
      assert rows[..|rows|] == rows;
    }

    /** One row of the bulk write: updated in place, or appended with a temporary id. */
    method UpsertRow(byId: map<string, nat>, u: Upsert) returns (next: map<string, nat>)
      requires IsIndex(byId, rows)
      modifies this
      ensures rows == UpsertOne(old(rows), u)
      ensures IsIndex(next, rows)
    {
      next := byId;
      if u.txn.id == "" {
        return;
      }
      UpsertIndexes(rows, u);
      if u.txn.id in byId {
        var at := byId[u.txn.id];
        rows := rows[at := Merge(rows[at], u)];
      } else {
        var id := NextTempId();
        next := byId[u.txn.id := |rows|];
        rows := rows + [Row(id, u.txn, u.matched, None)];
      }
    }

    /** bulk_upsert_linked_transactions. */
    method BulkUpsert(upserts: seq<Upsert>)
      modifies this
      ensures rows == Upserted(old(rows), upserts)
    {
      var byId := IndexById();
      for k := 0 to |upserts|
        invariant rows == Upserted(old(rows), upserts[..k])
        invariant IsIndex(byId, rows)
      {
        assert upserts[..k + 1][..k] == upserts[..k];
        byId := UpsertRow(byId, upserts[k]);
      }
      assert upserts[..|upserts|] == upserts;
    }

    /** delete_linked_transactions. */
    method Delete(ids: seq<string>) returns (removed: nat)
      modifies this
      ensures rows == Without(old(rows), ids)
      ensures removed == |old(rows)| - |rows|
    {
      var kept := [];
      for k := 0 to |rows|
        invariant kept == Without(rows[..k], ids) && |kept| <= k
      {
        assert rows[..k + 1][..k] == rows[..k];
        if rows[k].txn.id !in ids {
          kept := kept + [rows[k]];
        }
      }
      assert rows[..|rows|] == rows;
      removed := |rows| - |kept|;
      rows := kept;
    }

    /** store: deletes first. */
    method Store(d: Decision)
      modifies this
      ensures rows == Stored(old(rows), d)
    {
      var _ := Delete(d.deletes);
      BulkUpsert(d.upserts);
    }

    /** One pull: decide against the store, then write the decision to it. */
    method Pull(fetched: seq<Txn>, windowStart: Option<int>, today: int) returns (d: Decision)
      modifies this
      ensures d == Reconciled(old(rows), fetched, windowStart, today)
      ensures rows == Stored(old(rows), d)
    {
      d := ReconcilePending(rows, fetched, windowStart, today);
      Store(d);
    }
  }

  // ------------------------------------------------- where an id is to be found

  lemma {:induction false} LastIndexIs(rows: seq<Row>, id: string, at: nat)
    requires at < |rows| && rows[at].txn.id == id
    requires forall i :: at < i < |rows| ==> rows[i].txn.id != id
    ensures LastIndex(rows, id) == Some(at)
  {
  }

  lemma UpsertKeepsOther(rows: seq<Row>, u: Upsert, id: string)
    requires u.txn.id != "" && id != u.txn.id
    ensures LastIndex(UpsertOne(rows, u), id) == LastIndex(rows, id)
    ensures Current(UpsertOne(rows, u), id) == Current(rows, id)
  {
    var after := UpsertOne(rows, u);
    var was := LastIndex(rows, id);
    if was.Some? {
      assert after[was.value] == rows[was.value];
      LastIndexIs(after, id, was.value);
    }
  }

  /** Upserting a row moves no other id, and puts its own where the index says. */
  lemma {:induction false} UpsertIndexes(rows: seq<Row>, u: Upsert)
    requires u.txn.id != ""
    ensures forall id :: id != u.txn.id ==> LastIndex(UpsertOne(rows, u), id) == LastIndex(rows, id)
    ensures LastIndex(UpsertOne(rows, u), u.txn.id)
         == if LastIndex(rows, u.txn.id).Some? then LastIndex(rows, u.txn.id) else Some(|rows|)
    ensures Current(UpsertOne(rows, u), u.txn.id) == Some(u.txn)
    ensures forall id :: id != u.txn.id ==> Current(UpsertOne(rows, u), id) == Current(rows, id)
  {
    var at := LastIndex(rows, u.txn.id);
    LastIndexIs(UpsertOne(rows, u), u.txn.id, if at.Some? then at.value else |rows|);
    forall id | id != u.txn.id
      ensures LastIndex(UpsertOne(rows, u), id) == LastIndex(rows, id)
      ensures Current(UpsertOne(rows, u), id) == Current(rows, id)
    {
      UpsertKeepsOther(rows, u, id);
    }
  }
}
