/** loaf_app.py, creating, editing and deleting bookings: a day cannot be booked
    past what it holds, whichever pools of the job the hours come from. */
module BookingGuard {
  import opened Wrappers
  import opened Sorting
  import opened Calendar
  import opened LoafWalk
  import opened Shelf
  import opened Bookings

  datatype Outcome = Saved | NoSuchBasket | NoSuchBooking | Unworkable | Overbooked

  /** The invariant on one day: a billed day is not booked past what it holds. */
  ghost predicate Holds(shelf: Shelf, baskets: set<int>, entries: seq<Entry>, day: int) {
    Billed(shelf, day) ==> On(AbsenceByDate(shelf, baskets, entries), day) <= WorkableHours(shelf, day)
  }

  /** Room on one day for what a booking asks of it; a day nobody bills always has some. */
  ghost predicate Room(shelf: Shelf, already: Hours, asked: Hours, day: int) {
    Billed(shelf, day) ==> On(already, day) + On(asked, day) <= WorkableHours(shelf, day)
  }

  /** What a stored entry has been through: clean_entry refuses negative hours
      and _unworkable refuses time off that costs nothing. */
  ghost predicate Sensible(shelf: Shelf, e: Entry) {
    e.hours >= 0 && (e.direction == Use ==> EntryHours(shelf, e) > 0)
  }

  ghost predicate DistinctIds(entries: seq<Entry>) {
    forall i, j :: 0 <= i < j < |entries| ==> entries[i].id != entries[j].id
  }

  /** _recompute. */
  function Recomputed(shelf: Shelf, values: Entry): Entry {
    if values.direction != Use || values.overridden then values
    else values.(hours := EntryHours(shelf, values))
  }

  /** Time off is stored at the hours it costs, unless they were typed; anything else as it is. */
  lemma StoredAt(shelf: Shelf, values: Entry)
    ensures values.direction == Use && !values.overridden ==>
      Recomputed(shelf, values)
      == values.(hours :=
           if values.starts.None? || values.ends.None? || values.ends.value <= values.starts.value then 0
           else Sum(HoursByDate(shelf, values, true), values.starts.value / 1440, values.ends.value / 1440))
    ensures values.direction != Use || values.overridden ==> Recomputed(shelf, values) == values
  {
  }

  // ----------------------------------------------- what the guard looks at

  lemma CostIgnoresTheFigure(shelf: Shelf, e: Entry, hours: int, id: int, costing: bool)
    ensures HoursByDate(shelf, e.(hours := hours, id := id), costing) == HoursByDate(shelf, e, costing)
  {
    var other := e.(hours := hours, id := id);
    if Timed(e) {
      var shut := Shut(shelf, FirstDay(e), LastDay(e));
      forall d
        ensures d in HoursByDate(shelf, other, costing) <==> d in HoursByDate(shelf, e, costing)
        ensures d in HoursByDate(shelf, e, costing) ==>
          HoursByDate(shelf, other, costing)[d] == HoursByDate(shelf, e, costing)[d]
      {
        HoursUpToHas(shelf, e, shut, costing, LastDay(e), d);
        HoursUpToHas(shelf, other, shut, costing, LastDay(e), d);
      }
    }
  }

  /** Storing a booking keeps what the guard measured. */
  lemma StoredAsMeasured(shelf: Shelf, values: Entry, id: int, costing: bool)
    requires values.direction == Use && EntryHours(shelf, values) > 0
    ensures
      var stored := Recomputed(shelf, values).(id := id);
      && Split(shelf, stored, costing) == Split(shelf, values, costing)
      && EntryHours(shelf, stored) == EntryHours(shelf, values)
      && (values.hours >= 0 ==> stored.hours >= 0)
  {
    var stored := Recomputed(shelf, values).(id := id);
    CostIgnoresTheFigure(shelf, values, stored.hours, id, true);
    CostIgnoresTheFigure(shelf, values, stored.hours, id, false);
    assert stored == values.(hours := stored.hours, id := id);
  }

  /** A booking is refused exactly when it would put some billed day past what
      that day holds, every pool counted. */
  lemma {:induction false} RefusedExactlyWhenFull(shelf: Shelf, baskets: set<int>, others: seq<Entry>, proposed: Entry)
    requires EntryHours(shelf, proposed) > 0 && forall d :: Holds(shelf, baskets, others, d)
    ensures
      var already := AbsenceByDate(shelf, baskets, others);
      (forall d :: Fits(already, Split(shelf, proposed, true), Capacity(shelf), d))
      <==> forall d :: Room(shelf, already, Split(shelf, proposed, false), d)
  {
    var already, split := AbsenceByDate(shelf, baskets, others), Split(shelf, proposed, true);
    forall d ensures Fits(already, split, Capacity(shelf), d)
                <==> Room(shelf, already, Split(shelf, proposed, false), d)
    {
      assert Holds(shelf, baskets, others, d);
      PriceAndAbsenceAgree(shelf, proposed, d);
    }
  }

  // --------------------------------------------------------- list surgery

  lemma {:induction false} OthersIgnoringNone(entries: seq<Entry>)
    ensures Others(entries, None) == entries
  {
    if entries != [] {
      var n := |entries| - 1;
      OthersIgnoringNone(entries[..n]);
      assert entries == entries[..n] + [entries[n]];
    }
  }

  lemma {:induction false} OthersWithout(entries: seq<Entry>, id: int)
    requires forall k :: 0 <= k < |entries| ==> entries[k].id != id
    ensures Others(entries, Some(id)) == entries
  {
    if entries != [] {
      var n := |entries| - 1;
      OthersWithout(entries[..n], id);
      assert entries == entries[..n] + [entries[n]];
    }
  }

  lemma {:induction false} OthersKeep(entries: seq<Entry>, id: int, k: nat)
    requires k < |Others(entries, Some(id))|
    ensures Others(entries, Some(id))[k] in entries && Others(entries, Some(id))[k].id != id
  {
    var n := |entries| - 1;
    if k < |Others(entries[..n], Some(id))| {
      OthersKeep(entries[..n], id, k);
    }
  }

  lemma {:induction false} OthersStayDistinct(entries: seq<Entry>, id: int)
    requires DistinctIds(entries)
    ensures DistinctIds(Others(entries, Some(id)))
  {
    if entries != [] {
      var n := |entries| - 1;
      OthersStayDistinct(entries[..n], id);
      var before := Others(entries[..n], Some(id));
      forall k | 0 <= k < |before| ensures before[k].id != entries[n].id {
        OthersKeep(entries[..n], id, k);
      }
    }
  }

  /** Replacing one booking counts everyone else's and the new one. */
  lemma {:induction false} ReplacedOnDay(part: Entry -> Hours, entries: seq<Entry>, k: nat, e: Entry, day: int)
    requires k < |entries| && DistinctIds(entries) && e.id == entries[k].id
    ensures OnDay(part, entries[k := e], day)
         == OnDay(part, Others(entries, Some(e.id)), day) + On(part(e), day)
  {
    var n := |entries| - 1;
    if k == n {
      assert entries[k := e][..n] == entries[..n];
      OthersWithout(entries[..n], e.id);
      assert entries[..n] + [] == entries[..n];
    } else {
      assert entries[k := e][..n] == entries[..n][k := e];
      ReplacedOnDay(part, entries[..n], k, e, day);
      OnDayOneMore(part, Others(entries[..n], Some(e.id)), entries[n], day);
    }
  }

  lemma {:induction false} FewerOnDay(part: Entry -> Hours, entries: seq<Entry>, id: int, day: int)
    requires forall k :: 0 <= k < |entries| ==> On(part(entries[k]), day) >= 0
    ensures OnDay(part, Others(entries, Some(id)), day) <= OnDay(part, entries, day)
  {
    if entries != [] {
      var n := |entries| - 1;
      assert forall k :: 0 <= k < n ==> entries[..n][k] == entries[k];
      FewerOnDay(part, entries[..n], id, day);
      assert Others(entries[..n], Some(id)) + [] == Others(entries[..n], Some(id));
      OnDayOneMore(part, Others(entries[..n], Some(id)), entries[n], day);
    }
  }

  lemma {:induction false} OthersHold(shelf: Shelf, baskets: set<int>, entries: seq<Entry>, id: int, day: int)
    requires Holds(shelf, baskets, entries, day)
    requires forall k :: 0 <= k < |entries| && entries[k].basket in baskets ==> Sensible(shelf, entries[k])
    ensures Holds(shelf, baskets, Others(entries, Some(id)), day)
  {
    var part := Leaving(shelf, baskets);
    forall k | 0 <= k < |entries| ensures On(part(entries[k]), day) >= 0 {
      if entries[k].basket in baskets {
        NothingNegative(shelf, entries[k], false, day);
      }
    }
    FewerOnDay(part, entries, id, day);
    GatheredOn(part, entries, day);
    GatheredOn(part, Others(entries, Some(id)), day);
  }

  /** Whatever takes one's own place is counted once, on every day. */
  lemma ReplacementHolds(shelf: Shelf, baskets: set<int>, entries: seq<Entry>, k: nat, e: Entry, day: int)
    requires k < |entries| && DistinctIds(entries) && e.id == entries[k].id
    requires Holds(shelf, baskets, Others(entries, Some(e.id)), day)
    requires Room(shelf, AbsenceByDate(shelf, baskets, Others(entries, Some(e.id))), AwayBy(shelf, baskets, e), day)
    ensures Holds(shelf, baskets, entries[k := e], day)
  {
    var part := Leaving(shelf, baskets);
    ReplacedOnDay(part, entries, k, e, day);
    GatheredOn(part, entries[k := e], day);
    GatheredOn(part, Others(entries, Some(e.id)), day);
  }

  // ------------------------------------------------------------ several jobs

  /** A job: its working week, and the baskets on it. */
  datatype Job = Job(shelf: Shelf, baskets: set<int>)

  /** shelf_of: the job a basket is on. */
  function JobOf(jobs: seq<Job>, n: nat, basket: int): (r: Option<nat>)
    requires n <= |jobs|
    ensures r.Some? ==> n <= r.value < |jobs| && basket in jobs[r.value].baskets
    ensures forall j :: n <= j < (if r.Some? then r.value else |jobs|) ==> basket !in jobs[j].baskets
    decreases |jobs| - n
  {
    if n == |jobs| then None else if basket in jobs[n].baskets then Some(n) else JobOf(jobs, n + 1, basket)
  }

  /** No basket is on two jobs. */
  ghost predicate Apart(jobs: seq<Job>) {
    forall i, j, basket :: 0 <= i < j < |jobs| && basket in jobs[i].baskets ==> basket !in jobs[j].baskets
  }

  ghost predicate SensibleOn(jobs: seq<Job>, e: Entry) {
    forall j :: 0 <= j < |jobs| && e.basket in jobs[j].baskets ==> Sensible(jobs[j].shelf, e)
  }

  /** No billed day of a job is booked past what it holds. */
  ghost predicate JobHolds(job: Job, entries: seq<Entry>) {
    forall d :: Holds(job.shelf, job.baskets, entries, d)
  }

  ghost predicate AllHold(jobs: seq<Job>, entries: seq<Entry>) {
    forall j :: 0 <= j < |jobs| ==> JobHolds(jobs[j], entries)
  }

  /** What the job's guard let through beside the others. */
  ghost predicate LetBy(job: Job, others: seq<Entry>, values: Entry) {
    values.direction == Use ==>
      && EntryHours(job.shelf, values) > 0
      && forall d :: Room(job.shelf, AbsenceByDate(job.shelf, job.baskets, others), Split(job.shelf, values, false), d)
  }

  /** What another job's booking asks of a day here: nothing. */
  lemma ElsewhereHasRoom(job: Job, others: seq<Entry>, e: Entry, day: int)
    requires e.basket !in job.baskets && Holds(job.shelf, job.baskets, others, day)
    ensures Room(job.shelf, AbsenceByDate(job.shelf, job.baskets, others), AwayBy(job.shelf, job.baskets, e), day)
    ensures Holds(job.shelf, job.baskets, others + [e], day)
  {
    OneMore(Leaving(job.shelf, job.baskets), others, e, day);
  }

  lemma ElsewhereAdded(job: Job, entries: seq<Entry>, e: Entry)
    requires e.basket !in job.baskets && JobHolds(job, entries)
    ensures JobHolds(job, entries + [e])
  {
    forall d ensures Holds(job.shelf, job.baskets, entries + [e], d) {
      ElsewhereHasRoom(job, entries, e, d);
    }
  }

  lemma ElsewhereEdited(job: Job, entries: seq<Entry>, k: nat, e: Entry)
    requires k < |entries| && DistinctIds(entries) && e.id == entries[k].id
    requires e.basket !in job.baskets && JobHolds(job, Others(entries, Some(e.id)))
    ensures JobHolds(job, entries[k := e])
  {
    var after := entries[k := e];
    forall d ensures Holds(job.shelf, job.baskets, after, d) {
      ElsewhereHasRoom(job, Others(entries, Some(e.id)), e, d);
      ReplacementHolds(job.shelf, job.baskets, entries, k, e, d);
    }
  }

  /** A booking its own job's guard let through, added: every job's days hold. */
  lemma AddedAllHold(jobs: seq<Job>, own: nat, entries: seq<Entry>, values: Entry, id: int, stored: Entry)
    requires own < |jobs| && Apart(jobs) && AllHold(jobs, entries) && values.basket in jobs[own].baskets
    requires stored == Recomputed(jobs[own].shelf, values).(id := id) && values.hours >= 0
    requires LetBy(jobs[own], entries, values)
    ensures SensibleOn(jobs, stored) && AllHold(jobs, entries + [stored])
  {
    AddedHolds(jobs[own].shelf, jobs[own].baskets, entries, values, id, entries + [stored]);
    forall j | 0 <= j < |jobs| ensures JobHolds(jobs[j], entries + [stored]) {
      if j != own {
        ElsewhereAdded(jobs[j], entries, stored);
      }
    }
  }

  /** The same of a booking edited, whichever job it was on before. */
  lemma EditedAllHold(jobs: seq<Job>, own: nat, entries: seq<Entry>, k: nat, values: Entry, stored: Entry)
    requires own < |jobs| && Apart(jobs) && k < |entries| && DistinctIds(entries)
    requires AllHold(jobs, Others(entries, Some(entries[k].id))) && values.basket in jobs[own].baskets
    requires stored == Recomputed(jobs[own].shelf, values).(id := entries[k].id) && values.hours >= 0
    requires LetBy(jobs[own], Others(entries, Some(entries[k].id)), values)
    ensures SensibleOn(jobs, stored) && AllHold(jobs, entries[k := stored])
  {
    EditedHolds(jobs[own].shelf, jobs[own].baskets, entries, k, values, entries[k := stored]);
    forall j | 0 <= j < |jobs| ensures JobHolds(jobs[j], entries[k := stored]) {
      if j != own {
        ElsewhereEdited(jobs[j], entries, k, stored);
      }
    }
  }

  class Desk {
    const jobs: seq<Job>
    var entries: seq<Entry>

    ghost predicate Valid()
      reads this
    {
      && Apart(jobs) && DistinctIds(entries)
      && (forall k :: 0 <= k < |entries| ==> SensibleOn(jobs, entries[k]))
      && AllHold(jobs, entries)
    }

    constructor (jobs: seq<Job>)
      requires Apart(jobs)
      ensures Valid() && this.jobs == jobs && entries == []
    {
      this.jobs, entries := jobs, [];
    }

    /** _unworkable, then _overbooked, by the job's own week and everything booked on it. */
    method Refusal(job: Job, values: Entry, ignoring: Option<int>) returns (outcome: Outcome)
      requires Valid() && job in jobs && values.hours >= 0
      ensures outcome in {Saved, Unworkable, Overbooked}
      ensures outcome == Unworkable <==> values.direction == Use && EntryHours(job.shelf, values) <= 0
      ensures outcome == Saved <==> LetBy(job, Others(entries, ignoring), values)
    {
      if values.direction != Use {
        return Saved;
      }
      if EntryHours(job.shelf, values) <= 0 {
        return Unworkable;
      }
      var clash := BookedBeyond(job.shelf, job.baskets, entries, values, ignoring);
      OthersAllHold(ignoring);
      RefusedExactlyWhenFull(job.shelf, job.baskets, Others(entries, ignoring), values);
      outcome := if clash.None? then Saved else Overbooked;
    }

    lemma OthersAllHold(ignoring: Option<int>)
      requires Valid()
      ensures AllHold(jobs, Others(entries, ignoring))
    {
      if ignoring == None {
        OthersIgnoringNone(entries);
      } else {
        forall j, d | 0 <= j < |jobs|
          ensures Holds(jobs[j].shelf, jobs[j].baskets, Others(entries, ignoring), d)
        {
          assert JobHolds(jobs[j], entries);
          OthersHold(jobs[j].shelf, jobs[j].baskets, entries, ignoring.value, d);
        }
      }
    }

    method Create(values: Entry, newId: int) returns (outcome: Outcome)
      requires Valid() && values.hours >= 0
      requires forall k :: 0 <= k < |entries| ==> entries[k].id != newId
      modifies this
      ensures Valid()
      ensures
        match JobOf(jobs, 0, values.basket)
        case None => outcome == NoSuchBasket
        case Some(j) =>
          && outcome in {Saved, Unworkable, Overbooked}
          && (outcome == Unworkable <==> values.direction == Use && EntryHours(jobs[j].shelf, values) <= 0)
          && (outcome == Saved <==> LetBy(jobs[j], old(entries), values))
          && (outcome == Saved ==> entries == old(entries) + [Recomputed(jobs[j].shelf, values).(id := newId)])
      ensures outcome != Saved ==> entries == old(entries)
    {
      var own := JobOf(jobs, 0, values.basket);
      if own.None? {
        return NoSuchBasket;
      }
      outcome := Refusal(jobs[own.value], values, None);
      OthersIgnoringNone(entries);
      if outcome == Saved {
        var stored := Recomputed(jobs[own.value].shelf, values).(id := newId);
        AddedAllHold(jobs, own.value, entries, values, newId, stored);
        entries := entries + [stored];
      }
    }

    method Update(id: int, values: Entry) returns (outcome: Outcome)
      requires Valid() && values.hours >= 0
      modifies this
      ensures Valid()
      ensures outcome == NoSuchBooking <==> forall k :: 0 <= k < |old(entries)| ==> old(entries)[k].id != id
      ensures outcome != NoSuchBooking ==>
        match JobOf(jobs, 0, values.basket)
        case None => outcome == NoSuchBasket
        case Some(j) =>
          && outcome in {Saved, Unworkable, Overbooked}
          && (outcome == Unworkable <==> values.direction == Use && EntryHours(jobs[j].shelf, values) <= 0)
          && (outcome == Saved <==> LetBy(jobs[j], Others(old(entries), Some(id)), values))
          && (outcome == Saved ==>
                exists k :: 0 <= k < |old(entries)| && old(entries)[k].id == id
                            && entries == old(entries)[k := Recomputed(jobs[j].shelf, values).(id := id)])
      ensures outcome != Saved ==> entries == old(entries)
    {
      var k := 0;
      while k < |entries| && entries[k].id != id
        invariant 0 <= k <= |entries|
        invariant forall j :: 0 <= j < k ==> entries[j].id != id
      {
        k := k + 1;
      }
      if k == |entries| {
        return NoSuchBooking;
      }
      var own := JobOf(jobs, 0, values.basket);
      if own.None? {
        return NoSuchBasket;
      }
      outcome := Refusal(jobs[own.value], values, Some(id));
      if outcome == Saved {
        OthersAllHold(Some(id));
        var stored := Recomputed(jobs[own.value].shelf, values).(id := id);
        EditedAllHold(jobs, own.value, entries, k, values, stored);
        entries := entries[k := stored];
      }
    }

    method Delete(id: int) returns (outcome: Outcome)
      requires Valid()
      modifies this
      ensures Valid()
      ensures entries == Others(old(entries), Some(id))
      ensures outcome == Saved <==> exists k :: 0 <= k < |old(entries)| && old(entries)[k].id == id
    {
      outcome := NoSuchBooking;
      for k := 0 to |entries|
        invariant outcome == Saved <==> exists j :: 0 <= j < k && entries[j].id == id
        invariant outcome in {Saved, NoSuchBooking}
      {
        if entries[k].id == id {
          outcome := Saved;
        }
      }
      OthersAllHold(Some(id));
      OthersStayDistinct(entries, id);
      if outcome == NoSuchBooking {
        OthersWithout(entries, id);
      } else {
        forall k | 0 <= k < |Others(entries, Some(id))| ensures SensibleOn(jobs, Others(entries, Some(id))[k]) {
          OthersKeep(entries, id, k);
        }
        entries := ListOthers(entries, Some(id));
      }
    }
  }

  /** A booking that passed the guard keeps every day within bounds. */
  lemma {:induction false} AddedHolds(shelf: Shelf, baskets: set<int>, entries: seq<Entry>, values: Entry, id: int,
                                      after: seq<Entry>)
    requires after == entries + [Recomputed(shelf, values).(id := id)]
    requires values.hours >= 0 && forall d :: Holds(shelf, baskets, entries, d)
    requires values.direction == Use ==> EntryHours(shelf, values) > 0
    requires values.direction == Use ==>
      forall d :: Room(shelf, AbsenceByDate(shelf, baskets, entries), Split(shelf, values, false), d)
    ensures Sensible(shelf, Recomputed(shelf, values).(id := id))
    ensures forall d :: Holds(shelf, baskets, after, d)
  {
    var stored := Recomputed(shelf, values).(id := id);
    if values.direction == Use {
      StoredAsMeasured(shelf, values, id, false);
    }
    forall d ensures Holds(shelf, baskets, after, d) {
      assert Holds(shelf, baskets, entries, d);
      assert values.direction == Use ==>
        Room(shelf, AbsenceByDate(shelf, baskets, entries), Split(shelf, values, false), d);
      OneMore(Leaving(shelf, baskets), entries, stored, d);
    }
  }

  lemma {:induction false} EditedHolds(shelf: Shelf, baskets: set<int>, entries: seq<Entry>, k: nat, values: Entry,
                                       after: seq<Entry>)
    requires k < |entries| && DistinctIds(entries) && values.hours >= 0
    requires after == entries[k := Recomputed(shelf, values).(id := entries[k].id)]
    requires forall d :: Holds(shelf, baskets, Others(entries, Some(entries[k].id)), d)
    requires values.direction == Use ==> EntryHours(shelf, values) > 0
    requires values.direction == Use ==>
      forall d :: Room(shelf, AbsenceByDate(shelf, baskets, Others(entries, Some(entries[k].id))),
                       Split(shelf, values, false), d)
    ensures Sensible(shelf, Recomputed(shelf, values).(id := entries[k].id))
    ensures forall d :: Holds(shelf, baskets, after, d)
  {
    var stored := Recomputed(shelf, values).(id := entries[k].id);
    if values.direction == Use {
      StoredAsMeasured(shelf, values, stored.id, false);
    }
    forall d ensures Holds(shelf, baskets, after, d) {
      assert Holds(shelf, baskets, Others(entries, Some(entries[k].id)), d);
      assert values.direction == Use ==>
        Room(shelf, AbsenceByDate(shelf, baskets, Others(entries, Some(entries[k].id))),
             Split(shelf, values, false), d);
      ReplacementHolds(shelf, baskets, entries, k, stored, d);
    }
  }
}
