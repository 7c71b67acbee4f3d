/** bank_import.py, reconcile_pending and store, over the cached list of
    bank_redis.py: what one pull of the bank feed does to the stored
    transactions. Dates are day numbers and amounts whole cents. */
module PendingPosted {
  import opened Wrappers

  const MATCH_BACK_DAYS := 5
  const MATCH_FORWARD_DAYS := 1
  const GRACE_DAYS := 3

  datatype Txn = Txn(id: string, account: string, cents: int, date: int, description: string, pending: bool)

  /** A fetched row on its way into the store; `matched` only when it names a pending row. */
  datatype Upsert = Upsert(txn: Txn, matched: Option<string>)

  datatype Row = Row(rowId: int, txn: Txn, matched: Option<string>, importedTo: Option<int>)

  datatype Decision = Decision(upserts: seq<Upsert>, deletes: seq<string>,
                               added: nat, updated: nat, matched: nat, removed: nat, same: nat)

  const NOTHING := Decision([], [], 0, 0, 0, 0, 0)

  // ------------------------------------------------------- reading the store

  /** The row an id index built over the list points at: the last one. */
  function LastIndex(rows: seq<Row>, id: string): (at: Option<nat>)
    ensures at.Some? ==> at.value < |rows| && rows[at.value].txn.id == id
    ensures at.Some? ==> forall i :: at.value < i < |rows| ==> rows[i].txn.id != id
    ensures at.None? ==> forall i :: 0 <= i < |rows| ==> rows[i].txn.id != id
  {
    if rows == [] then None
    else if rows[|rows| - 1].txn.id == id then Some(|rows| - 1)
    else LastIndex(rows[..|rows| - 1], id)
  }

  function Current(rows: seq<Row>, id: string): Option<Txn> {
    var at := LastIndex(rows, id);
    if at.Some? then Some(rows[at.value].txn) else None
  }

  predicate Changed(stored: Txn, fetched: Txn) {
    || stored.cents != fetched.cents || stored.date != fetched.date
    || stored.description != fetched.description || stored.pending != fetched.pending
  }

  predicate Reports(fetched: seq<Txn>, id: string) {
    exists f :: f in fetched && f.id == id
  }

  /** Pending rows the bank no longer reports under their own id. */
  function Pool(stored: seq<Row>, fetched: seq<Txn>): (pool: seq<Txn>)
    ensures forall p :: p in pool <==>
      exists i :: 0 <= i < |stored| && stored[i].txn == p && p.pending && !Reports(fetched, p.id)
  {
    if stored == [] then []
    else
      var n := |stored| - 1;
      var last := stored[n].txn;
      assert stored == stored[..n] + [stored[n]];
      Pool(stored[..n], fetched) + if last.pending && !Reports(fetched, last.id) then [last] else []
  }

  // ------------------------------------------------------------ the decision

  function Gap(posted: Txn, pending: Txn): nat {
    if posted.date >= pending.date then posted.date - pending.date else pending.date - posted.date
  }

  predicate Eligible(posted: Txn, pending: Txn, taken: seq<string>) {
    && pending.id !in taken
    && pending.account == posted.account
    && pending.cents == posted.cents
    && -MATCH_FORWARD_DAYS <= posted.date - pending.date <= MATCH_BACK_DAYS
  }

  /** The first of the closest eligible rows. */
  function Best(pool: seq<Txn>, taken: seq<string>, posted: Txn): (best: Option<Txn>)
    ensures best.Some? ==> best.value in pool && Eligible(posted, best.value, taken)
    ensures best.Some? ==>
      forall p :: p in pool && Eligible(posted, p, taken) ==> Gap(posted, best.value) <= Gap(posted, p)
    ensures best.None? ==> forall p :: p in pool ==> !Eligible(posted, p, taken)
  {
    if pool == [] then None
    else
      var n := |pool| - 1;
      assert pool == pool[..n] + [pool[n]];
      var best := Best(pool[..n], taken, posted);
      if Eligible(posted, pool[n], taken) && (best.None? || Gap(posted, pool[n]) < Gap(posted, best.value))
      then Some(pool[n]) else best
  }

  /** Of rows equally close, the first listed is taken. */
  lemma {:induction false} FirstOfTheClosest(pool: seq<Txn>, taken: seq<string>, posted: Txn) returns (k: nat)
    requires Best(pool, taken, posted).Some?
    ensures k < |pool| && Best(pool, taken, posted) == Some(pool[k])
    ensures forall i :: 0 <= i < k && Eligible(posted, pool[i], taken) ==> Gap(posted, pool[k]) < Gap(posted, pool[i])
  {
    var n := |pool| - 1;
    var best := Best(pool[..n], taken, posted);
    if Eligible(posted, pool[n], taken) && (best.None? || Gap(posted, pool[n]) < Gap(posted, best.value)) {
      k := n;
      forall i | 0 <= i < n && Eligible(posted, pool[i], taken) ensures Gap(posted, pool[n]) < Gap(posted, pool[i]) {
        assert pool[..n][i] in pool[..n];
      }
    } else {
      k := FirstOfTheClosest(pool[..n], taken, posted);
      assert pool[..n][k] == pool[k];
      forall i | 0 <= i < k && Eligible(posted, pool[i], taken) ensures Gap(posted, pool[k]) < Gap(posted, pool[i]) {
        assert pool[..n][i] == pool[i];
      }
    }
  }

  function Step(stored: seq<Row>, pool: seq<Txn>, d: Decision, f: Txn): Decision {
    match Current(stored, f.id)
    case Some(row) =>
      if Changed(row, f) then d.(upserts := d.upserts + [Upsert(f, None)], updated := d.updated + 1)
      else d.(same := d.same + 1)
    case None =>
      match if f.pending then None else Best(pool, d.deletes, f)
      case Some(p) =>
        d.(upserts := d.upserts + [Upsert(f, Some(p.id))], deletes := d.deletes + [p.id],
           matched := d.matched + 1, added := d.added + 1)
      case None =>
        d.(upserts := d.upserts + [Upsert(f, None)], added := d.added + 1)
  }

  function Decide(stored: seq<Row>, pool: seq<Txn>, fetched: seq<Txn>): Decision {
    if fetched == [] then NOTHING
    else
      var n := |fetched| - 1;
      Step(stored, pool, Decide(stored, pool, fetched[..n]), fetched[n])
  }

  /** Rows the bank has withdrawn: untaken, inside the window asked about, past the grace period. */
  function Withdrawn(pool: seq<Txn>, taken: seq<string>, windowStart: int, cutoff: int): (ids: seq<string>)
    ensures forall id :: id in ids <==>
      id !in taken && exists p :: p in pool && p.id == id && windowStart <= p.date <= cutoff
  {
    if pool == [] then []
    else
      var n := |pool| - 1;
      assert pool == pool[..n] + [pool[n]];
      Withdrawn(pool[..n], taken, windowStart, cutoff)
      + if pool[n].id !in taken && windowStart <= pool[n].date <= cutoff then [pool[n].id] else []
  }

  function Reconciled(stored: seq<Row>, fetched: seq<Txn>, windowStart: Option<int>, today: int): Decision {
    var pool := Pool(stored, fetched);
    var d := Decide(stored, pool, fetched);
    if windowStart.None? then d
    else
      var gone := Withdrawn(pool, d.deletes, windowStart.value, today - GRACE_DAYS);
      d.(deletes := d.deletes + gone, removed := |gone|)
  }

  /** One fetched row: the body of the first loop. */
  method TakeOne(stored: seq<Row>, pool: seq<Txn>, d: Decision, f: Txn) returns (next: Decision)
    ensures next == Step(stored, pool, d, f)
  {
    var current := Current(stored, f.id);
    if current.Some? {
      if Changed(current.value, f) {
        next := d.(upserts := d.upserts + [Upsert(f, None)], updated := d.updated + 1);
      } else {
        next := d.(same := d.same + 1);
      }
      return;
    }
    var best := None;
    if !f.pending {
      best := ClosestPending(pool, d.deletes, f);
    }
    if best.Some? {
      next := d.(deletes := d.deletes + [best.value.id], matched := d.matched + 1,
                 upserts := d.upserts + [Upsert(f, Some(best.value.id))]);
    } else {
      next := d.(upserts := d.upserts + [Upsert(f, None)]);
    }
    next := next.(added := d.added + 1);
  }

  /** The second loop. */
  method FindWithdrawn(pool: seq<Txn>, taken: seq<string>, windowStart: int, cutoff: int) returns (gone: seq<string>)
    ensures gone == Withdrawn(pool, taken, windowStart, cutoff)
  {
    gone := [];
    for k := 0 to |pool|
      invariant gone == Withdrawn(pool[..k], taken, windowStart, cutoff)
    {
      assert pool[..k + 1][..k] == pool[..k];
      if pool[k].id in taken {
        continue;
      }
      if windowStart <= pool[k].date <= cutoff {
        gone := gone + [pool[k].id];
      }
    }
    assert pool[..|pool|] == pool;
  }

  /** reconcile_pending, as it runs. */
  method ReconcilePending(stored: seq<Row>, fetched: seq<Txn>, windowStart: Option<int>, today: int)
    returns (d: Decision)
    ensures d == Reconciled(stored, fetched, windowStart, today)
  {
    var pool := Pool(stored, fetched);
    d := NOTHING;
    for k := 0 to |fetched|
      invariant d == Decide(stored, pool, fetched[..k])
    {
      assert fetched[..k + 1][..k] == fetched[..k];
      d := TakeOne(stored, pool, d, fetched[k]);
    }
    assert fetched[..|fetched|] == fetched;
    if windowStart.Some? {
      var gone := FindWithdrawn(pool, d.deletes, windowStart.value, today - GRACE_DAYS);
      d := d.(deletes := d.deletes + gone, removed := |gone|);
    }
  }

  method ClosestPending(pool: seq<Txn>, taken: seq<string>, posted: Txn) returns (best: Option<Txn>)
    ensures best == Best(pool, taken, posted)
  {
    best := None;
    for k := 0 to |pool|
      invariant best == Best(pool[..k], taken, posted)
    {
      assert pool[..k + 1][..k] == pool[..k];
      if Eligible(posted, pool[k], taken) {
        if best.None? || Gap(posted, pool[k]) < Gap(posted, best.value) {
          best := Some(pool[k]);
        }
      }
    }
    assert pool[..|pool|] == pool;
  }

  // ---------------------------------------------------- one row of each kind

  /** A row whose id is stored, last at `i`: nothing when it says the same, else an update. */
  lemma {:induction false} AlreadyStored(stored: seq<Row>, f: Txn, today: int, i: nat)
    requires i < |stored| && stored[i].txn.id == f.id && forall j :: i < j < |stored| ==> stored[j].txn.id != f.id
    ensures
      var was := stored[i].txn;
      Reconciled(stored, [f], None, today)
      == if was.cents == f.cents && was.date == f.date && was.description == f.description && was.pending == f.pending
         then Decision([], [], 0, 0, 0, 0, 1)
         else Decision([Upsert(f, None)], [], 0, 1, 0, 0, 0)
  {
    OneStep(stored, f);
  }

  /** One fetched row more, whatever came before: it is left or rewritten when its id is stored,
      takes over a pending row when one is settled, and is added otherwise; each time counted
      as that and as nothing else. */
  lemma {:induction false} OneMoreFetched(stored: seq<Row>, pool: seq<Txn>, fetched: seq<Txn>, f: Txn, i: nat)
    ensures
      var (d, after) := (Decide(stored, pool, fetched), Decide(stored, pool, fetched + [f]));
      var closest := if f.pending then None else Best(pool, d.deletes, f);
      && (i < |stored| && stored[i].txn.id == f.id && (forall j :: i < j < |stored| ==> stored[j].txn.id != f.id) ==>
            after
            == if Changed(stored[i].txn, f)
               then Decision(d.upserts + [Upsert(f, None)], d.deletes, d.added, d.updated + 1, d.matched, d.removed,
                             d.same)
               else Decision(d.upserts, d.deletes, d.added, d.updated, d.matched, d.removed, d.same + 1))
      && ((forall j :: 0 <= j < |stored| ==> stored[j].txn.id != f.id) ==>
            && (closest.None? ==>
                  after == Decision(d.upserts + [Upsert(f, None)], d.deletes, d.added + 1, d.updated, d.matched,
                                    d.removed, d.same))
            && (closest.Some? ==>
                  after == Decision(d.upserts + [Upsert(f, Some(closest.value.id))], d.deletes + [closest.value.id],
                                    d.added + 1, d.updated, d.matched + 1, d.removed, d.same)))
  {
    assert (fetched + [f])[..|fetched|] == fetched;
  }

  lemma OneStep(stored: seq<Row>, f: Txn)
    ensures Decide(stored, Pool(stored, [f]), [f]) == Step(stored, Pool(stored, [f]), NOTHING, f)
  {
    assert [f][..0] == [];
  }

  /** A stored row that a posted one can be the settling of: pending, on its account, for
      its amount, dated from five days before it to one day after. */
  predicate Settles(was: Txn, f: Txn) {
    was.pending && was.account == f.account && was.cents == f.cents && f.date - 5 <= was.date <= f.date + 1
  }

  /** A row with a new id that is pending, or has nothing to settle, is added. */
  lemma {:induction false} NothingToSettle(stored: seq<Row>, f: Txn, today: int)
    requires forall i :: 0 <= i < |stored| ==> stored[i].txn.id != f.id
    requires f.pending || forall i :: 0 <= i < |stored| ==> !Settles(stored[i].txn, f)
    ensures Reconciled(stored, [f], None, today) == Decision([Upsert(f, None)], [], 1, 0, 0, 0, 0)
  {
    OneStep(stored, f);
    if !f.pending {
      NoneSettles(stored, f);
    }
  }

  lemma {:induction false} NoneSettles(stored: seq<Row>, f: Txn)
    requires forall i :: 0 <= i < |stored| ==> !Settles(stored[i].txn, f)
    ensures Best(Pool(stored, [f]), [], f).None?
  {
    var pool := Pool(stored, [f]);
    forall p | p in pool ensures !Eligible(f, p, []) {
      var i :| 0 <= i < |stored| && stored[i].txn == p && p.pending;
      assert !Settles(stored[i].txn, f);
    }
  }

  function Apart(one: Txn, two: Txn): nat {
    if one.date <= two.date then two.date - one.date else one.date - two.date
  }

  /** Row k is the first of those closest to a posted row. */
  ghost predicate FirstClosest(stored: seq<Row>, f: Txn, k: nat)
    requires k < |stored|
  {
    && Settles(stored[k].txn, f)
    && (forall i :: 0 <= i < k && Settles(stored[i].txn, f) ==> Apart(stored[k].txn, f) < Apart(stored[i].txn, f))
    && forall i :: k < i < |stored| && Settles(stored[i].txn, f) ==>
                     Apart(stored[k].txn, f) <= Apart(stored[i].txn, f)
  }

  /** Up to that row nothing as close is found; from it on, it stays found. */
  ghost predicate FoundBy(closest: Txn, f: Txn, passed: bool, best: Option<Txn>) {
    if passed then best == Some(closest) else best.Some? ==> Apart(closest, f) < Gap(f, best.value)
  }

  lemma {:induction false} BestOfThem(stored: seq<Row>, f: Txn, k: nat, n: nat)
    requires k < |stored| && n <= |stored| && FirstClosest(stored, f, k)
    requires forall i :: 0 <= i < |stored| ==> stored[i].txn.id != f.id
    ensures FoundBy(stored[k].txn, f, k < n, Best(Pool(stored[..n], [f]), [], f))
  {
    if n > 0 {
      BestOfThem(stored, f, k, n - 1);
      FoundNext(stored, f, k, n - 1, stored[n - 1].txn, Pool(stored[..n - 1], [f]));
    }
  }

  lemma FoundNext(stored: seq<Row>, f: Txn, k: nat, n: nat, row: Txn, before: seq<Txn>)
    requires k < |stored| && n < |stored| && FirstClosest(stored, f, k) && row == stored[n].txn && row.id != f.id
    requires before == Pool(stored[..n], [f]) && FoundBy(stored[k].txn, f, k < n, Best(before, [], f))
    ensures FoundBy(stored[k].txn, f, k < n + 1, Best(Pool(stored[..n + 1], [f]), [], f))
  {
    PoolOfOneMore(stored, f, n);
    ClosestBeside(stored, f, k, n);
    if row.pending {
      OneMoreInThePool(before, row, f);
      FoundOneMore(stored[k].txn, f, k < n, k == n, Best(before, [], f), row);
    }
  }

  lemma ClosestBeside(stored: seq<Row>, f: Txn, k: nat, n: nat)
    requires k < |stored| && n < |stored| && FirstClosest(stored, f, k)
    ensures k == n ==> Settles(stored[n].txn, f)
    ensures Settles(stored[n].txn, f) && k < n ==> Apart(stored[k].txn, f) <= Apart(stored[n].txn, f)
    ensures Settles(stored[n].txn, f) && n < k ==> Apart(stored[k].txn, f) < Apart(stored[n].txn, f)
  {
  }

  lemma FoundOneMore(closest: Txn, f: Txn, passed: bool, it: bool, best: Option<Txn>, row: Txn)
    requires FoundBy(closest, f, passed, best) && !(passed && it) && (it ==> row == closest && Settles(row, f))
    requires Settles(row, f) && passed ==> Apart(closest, f) <= Apart(row, f)
    requires Settles(row, f) && !passed && !it ==> Apart(closest, f) < Apart(row, f)
    ensures FoundBy(closest, f, passed || it,
                    if Settles(row, f) && (best.None? || Gap(f, row) < Gap(f, best.value)) then Some(row) else best)
  {
  }

  lemma PoolOfOneMore(stored: seq<Row>, f: Txn, n: nat)
    requires n < |stored| && stored[n].txn.id != f.id
    ensures Pool(stored[..n + 1], [f])
         == if stored[n].txn.pending then Pool(stored[..n], [f]) + [stored[n].txn] else Pool(stored[..n], [f])
  {
    assert stored[..n + 1][..n] == stored[..n] && stored[..n + 1][n] == stored[n];
    assert !Reports([f], stored[n].txn.id);
  }

  lemma OneMoreInThePool(before: seq<Txn>, row: Txn, f: Txn)
    requires row.pending
    ensures Best(before + [row], [], f)
         == if Settles(row, f) && (Best(before, [], f).None? || Gap(f, row) < Gap(f, Best(before, [], f).value))
            then Some(row) else Best(before, [], f)
  {
    assert (before + [row])[..|before|] == before;
  }

  /** A posted row with a new id settles the first of the closest: that one is deleted and
      the new row takes it over. */
  lemma {:induction false} SettlesTheClosest(stored: seq<Row>, f: Txn, today: int, k: nat)
    requires k < |stored| && !f.pending && FirstClosest(stored, f, k)
    requires forall i :: 0 <= i < |stored| ==> stored[i].txn.id != f.id
    ensures Reconciled(stored, [f], None, today)
         == Decision([Upsert(f, Some(stored[k].txn.id))], [stored[k].txn.id], 1, 0, 1, 0, 0)
  {
    OneStep(stored, f);
    BestOfThem(stored, f, k, |stored|);
    assert stored[..|stored|] == stored;
    assert LastIndex(stored, f.id).None?;
  }

  /** A pending row of the window that is at least three days old. */
  ghost predicate Stale(stored: seq<Row>, id: string, windowStart: int, today: int) {
    exists i :: 0 <= i < |stored| && stored[i].txn.id == id && stored[i].txn.pending
                && windowStart <= stored[i].txn.date <= today - 3
  }

  /** Asked about a window and told nothing, exactly those rows go; asked about none, nothing does. */
  lemma {:induction false} WithdrawnWhenSilent(stored: seq<Row>, windowStart: int, today: int)
    ensures
      var d := Reconciled(stored, [], Some(windowStart), today);
      && d.removed == |d.deletes| && d == NOTHING.(deletes := d.deletes, removed := d.removed)
      && forall id :: id in d.deletes <==> Stale(stored, id, windowStart, today)
    ensures Reconciled(stored, [], None, today) == Decision([], [], 0, 0, 0, 0, 0)
  {
    var pool, d := Pool(stored, []), Reconciled(stored, [], Some(windowStart), today);
    assert d.deletes == Withdrawn(pool, [], windowStart, today - GRACE_DAYS);
    forall id ensures id in d.deletes <==> Stale(stored, id, windowStart, today) {
      if Stale(stored, id, windowStart, today) {
        var i :| 0 <= i < |stored| && stored[i].txn.id == id && stored[i].txn.pending
                 && windowStart <= stored[i].txn.date <= today - 3;
        assert !Reports([], id);
        assert stored[i].txn in pool;
      }
    }
  }
}
