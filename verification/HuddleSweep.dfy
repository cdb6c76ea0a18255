/** The sweeper: taking out everyone whose heartbeats stopped and ending the huddles that empties. */
module HuddleSweep {
  import opened Common
  import opened HuddleModel
  import opened HuddleProtocol
  import opened HuddleStore
  import HuddleRuns

  /** How many participations one call of the sweep script takes at most. */
  const BATCH := 100

  type Rows = map<Ulid, Phase>

  /** A huddle ends in a sweep exactly if it was active, had people and has none left. */
  ghost function EndsAs(was: M.State, now: M.State, phase: Phase, huddle: Ulid): Phase {
    if phase == Active && Occupants(was, huddle) != {} && Occupants(now, huddle) == {} then Ended else phase
  }

  ghost predicate RowsFollow(was: M.State, now: M.State, before: Rows, after: Rows) {
    && after.Keys == before.Keys
    && forall h :: h in before ==> after[h] == EndsAs(was, now, before[h], h)
  }

  /** Only people overdue at some reading left; the others are exactly as before. */
  ghost predicate OnlyOverdueLeft(was: M.State, now: M.State, readings: seq<int>) {
    && (forall u :: u in now.seats ==> u in was.seats && now.seats[u] == was.seats[u])
    && forall u :: u in was.seats && u !in now.seats ==> OverdueAt(was.seats[u], readings)
  }

  ghost predicate NobodyOverdue(s: M.State, now: int) {
    forall u :: u in s.seats ==> s.seats[u].deadline > now
  }

  ghost predicate NobodyOverdueAtLast(s: M.State, readings: seq<int>) {
    readings != [] && NobodyOverdue(s, readings[|readings| - 1])
  }

  ghost predicate OverdueAt(seat: Seat, readings: seq<int>) {
    exists t :: t in readings && seat.deadline <= t
  }

  /** What a sweep has done by now: who left, how many, and which huddles that ended. */
  ghost predicate SweptSoFar(was: M.State, before: Rows, now: M.State, rows: Rows, readings: seq<int>, total: int) {
    && OnlyOverdueLeft(was, now, readings)
    && total == |was.seats| - |now.seats|
    && RowsFollow(was, now, before, rows)
  }

  ghost predicate IsOf(left: Swept, huddle: Ulid) {
    left.who.huddle == huddle
  }

  /** The huddles of the removed people that have a row. */
  ghost predicate Affected(removed: seq<Swept>, huddle: Ulid) {
    exists i :: 0 <= i < |removed| && IsOf(removed[i], huddle)
  }

  lemma VacateAllShrinks(s: M.State, users: seq<Ulid>)
    requires M.Valid(s) && Distinct(users) && forall u :: u in users ==> u in s.seats
    ensures |VacateAll(s, users).seats| == |s.seats| - |users|
  {
    HuddleRuns.VacateAllKeepsValid(s, users);
    DistinctSize(users);
    SplitSize(s.seats.Keys, Elements(users));
    assert (s.seats - Elements(users)).Keys == s.seats.Keys - Elements(users);
  }

  lemma SweepOnlyOverdue(was: M.State, s: M.State, users: seq<Ulid>, readings: seq<int>, t: int)
    requires M.Valid(s) && OnlyOverdueLeft(was, s, readings)
    requires forall u :: u in users ==> u in s.seats && s.seats[u].deadline <= t
    ensures OnlyOverdueLeft(was, VacateAll(s, users), readings + [t])
  {
    HuddleRuns.VacateAllKeepsValid(s, users);
    var now := VacateAll(s, users);
    forall u | u in was.seats && u !in now.seats ensures OverdueAt(was.seats[u], readings + [t]) {
      if u !in s.seats {
        assert OverdueAt(was.seats[u], readings);
        var r :| r in readings && was.seats[u].deadline <= r;
        assert r in readings + [t];
      } else {
        assert u in users && t in readings + [t];
      }
    }
  }

  /** A huddle nobody of the batch was in keeps its people, one that somebody was in had people. */
  lemma BatchOccupants(s: M.State, removed: seq<Swept>, h: Ulid)
    requires M.Valid(s)
    requires forall i :: 0 <= i < |removed| ==> removed[i].who.user in s.seats && s.seats[removed[i].who.user].who == removed[i].who
    ensures Occupants(VacateAll(s, Users(removed)), h) <= Occupants(s, h)
    ensures Affected(removed, h) ==> Occupants(s, h) != {}
    ensures !Affected(removed, h) ==> Occupants(VacateAll(s, Users(removed)), h) == Occupants(s, h)
  {
    HuddleRuns.VacateAllKeepsValid(s, Users(removed));
    if Affected(removed, h) {
      var i :| 0 <= i < |removed| && IsOf(removed[i], h);
      assert removed[i].who.user in Occupants(s, h);
    } else {
      forall i | 0 <= i < |removed| ensures removed[i].who.user !in Occupants(s, h) {
        assert !IsOf(removed[i], h);
      }
    }
  }

  /** Every huddle that lost somebody in the batch was looked at, and no other was. */
  lemma SweepRows(was: M.State, s: M.State, removed: seq<Swept>, before: Rows, rows: Rows, after: Rows)
    requires M.Valid(s) && RowsFollow(was, s, before, rows)
    requires forall u :: u in s.seats ==> u in was.seats && s.seats[u].who == was.seats[u].who
    requires forall i :: 0 <= i < |removed| ==> removed[i].who.user in s.seats && s.seats[removed[i].who.user].who == removed[i].who
    requires after.Keys == rows.Keys
    requires var now := VacateAll(s, Users(removed));
             forall h :: h in rows ==>
               after[h] == if Affected(removed, h) && rows[h] == Active && Occupants(now, h) == {} then Ended else rows[h]
    ensures RowsFollow(was, VacateAll(s, Users(removed)), before, after)
  {
    var now := VacateAll(s, Users(removed));
    forall h | h in before ensures after[h] == EndsAs(was, now, before[h], h) {
      BatchOccupants(s, removed, h);
      assert Occupants(s, h) <= Occupants(was, h);
    }
  }

  class Service {
    const store: Store
    var rows: Rows
    /** The people told that they left. */
    var told: seq<Participant>

    constructor (store: Store, rows: Rows)
      ensures this.store == store && this.rows == rows && told == []
    {
      this.store, this.rows, told := store, rows, [];
    }

    /** endHuddleIfEmpty, with the row locked throughout. A missing row is a deleted room. */
    method EndIfEmpty(huddle: Ulid)
      requires store.Valid()
      modifies this`rows, store
      ensures store.Valid() && store.st.seats == old(store.st.seats)
      ensures rows == if huddle in old(rows) && old(rows)[huddle] == Active && Occupants(old(store.st), huddle) == {}
                      then old(rows)[huddle := Ended] else old(rows)
    {
      var empty := store.IsEmpty(huddle);
      if empty && huddle in rows && rows[huddle] == Active {
        rows := rows[huddle := Ended];
        ghost var was := store.st;
        var out := store.Clear(huddle);
        HuddleRuns.ClearKeepsValid(was, huddle, UsersOf(out));
      }
    }

    /** afterHuddleRemoval: tell each person whose huddle has a row, then look whether those huddles ended. */
    method AfterRemoval(removed: seq<Swept>)
      requires store.Valid()
      modifies this, store
      ensures store.Valid() && store.st.seats == old(store.st.seats)
      ensures rows.Keys == old(rows).Keys
      ensures forall h :: h in rows ==>
                rows[h] == if Affected(removed, h) && old(rows)[h] == Active && Occupants(old(store.st), h) == {}
                           then Ended else old(rows)[h]
      ensures told == old(told) + Told(removed, old(rows))
    {
      var huddles: set<Ulid> := {};
      for i := 0 to |removed|
        invariant unchanged(store) && rows == old(rows)
        invariant forall h :: h in huddles <==> h in rows && Affected(removed[..i], h)
        invariant told == old(told) + Told(removed[..i], rows)
      {
        var p := removed[i].who;
        ToldMore(removed, i, rows);
        AffectedMore(removed, i);
        if p.huddle in rows {
          huddles := huddles + {p.huddle};
          told := told + [p];
        }
      }
      assert removed[..|removed|] == removed;
      EndAll(huddles);
    }

    method EndAll(huddles: set<Ulid>)
      requires store.Valid()
      modifies this`rows, store
      ensures store.Valid() && store.st.seats == old(store.st.seats) && rows.Keys == old(rows).Keys
      ensures forall h :: h in rows ==>
                rows[h] == if h in huddles && old(rows)[h] == Active && Occupants(old(store.st), h) == {} then Ended else old(rows)[h]
    {
      var todo := huddles;
      ghost var was := store.st;
      while todo != {}
        invariant store.Valid() && store.st.seats == was.seats && todo <= huddles && rows.Keys == old(rows).Keys
        invariant forall h :: h in rows ==>
                    rows[h] == if h in huddles - todo && old(rows)[h] == Active && Occupants(was, h) == {} then Ended else old(rows)[h]
        decreases |todo|
      {
        var h :| h in todo;
        todo := todo - {h};
        assert Occupants(store.st, h) == Occupants(was, h);
        EndIfEmpty(h);
      }
    }

    /** The clock may say anything. */
    method Now() returns (t: int) {
      t := *;
    }

    /** SweepHuddles: batches until one comes back short. */
    method SweepHuddles() returns (total: nat, readings: seq<int>)
      requires store.Valid()
      modifies this, store
      ensures store.Valid()
      ensures SweptSoFar(old(store.st), old(rows), store.st, rows, readings, total)
      ensures readings != [] && forall u :: u in store.st.seats ==> store.st.seats[u].deadline > readings[|readings| - 1]
    {
      total, readings := 0, [];
      var short := false;
      while !short
        invariant store.Valid()
        invariant SweptSoFar(old(store.st), old(rows), store.st, rows, readings, total)
        invariant short ==> NobodyOverdueAtLast(store.st, readings)
        decreases |old(store.st).seats| - total, if short then 0 else 1
      {
        var t := Now();
        var removed := SweepOnce(t, old(store.st), old(rows), readings, total);
        readings, total, short := readings + [t], total + |removed|, |removed| < BATCH;
      }
    }

    /** One turn of the loop. */
    method SweepOnce(t: int, ghost was: M.State, ghost before: Rows, ghost readings: seq<int>, ghost total: int)
      returns (removed: seq<Swept>)
      requires store.Valid() && SweptSoFar(was, before, store.st, rows, readings, total)
      modifies this, store
      ensures store.Valid() && SweptSoFar(was, before, store.st, rows, readings + [t], total + |removed|)
      ensures |removed| < BATCH ==> NobodyOverdueAtLast(store.st, readings + [t])
    {
      ghost var s, earlier := store.st, rows;
      removed := store.Sweep(t, BATCH);
      ghost var swept := store.st;
      assert |removed| < BATCH ==> NobodyOverdue(swept, t);
      AfterRemoval(removed);
      SweptOnce(was, before, s, earlier, removed, t, store.st, rows, readings, total);
      assert (readings + [t])[|readings|] == t;
    }
  }

  /** A batch of overdue people leaves, and the huddles they were in are looked at. */
  lemma SweptOnce(was: M.State, before: Rows, s: M.State, earlier: Rows, removed: seq<Swept>, t: int, now: M.State, rows: Rows,
                  readings: seq<int>, total: int)
    requires M.Valid(s) && SweptSoFar(was, before, s, earlier, readings, total)
    requires M.Legal(s, DoSweep(t, Users(removed))) && now.seats == VacateAll(s, Users(removed)).seats
    requires exists keys :: |keys| == |removed| && Reported(s, removed, keys)
    requires rows.Keys == earlier.Keys
    requires forall h :: h in rows ==>
               rows[h] == if Affected(removed, h) && earlier[h] == Active && Occupants(VacateAll(s, Users(removed)), h) == {}
                          then Ended else earlier[h]
    ensures SweptSoFar(was, before, now, rows, readings + [t], total + |removed|)
  {
    VacateAllShrinks(s, Users(removed));
    SweepOnlyOverdue(was, s, Users(removed), readings, t);
    forall i | 0 <= i < |removed| ensures removed[i].who.user in s.seats && s.seats[removed[i].who.user].who == removed[i].who {
      ReportedSeat(s, removed, i);
    }
    SweepRows(was, s, removed, before, earlier, rows);
    SameSeatsFollow(was, VacateAll(s, Users(removed)), now, readings + [t], before, rows);
  }

  lemma ReportedSeat(s: M.State, removed: seq<Swept>, i: nat)
    requires (exists keys :: |keys| == |removed| && Reported(s, removed, keys)) && i < |removed|
    ensures removed[i].who.user in s.seats && s.seats[removed[i].who.user].who == removed[i].who
  {
    var keys :| |keys| == |removed| && Reported(s, removed, keys);
    assert ReportAt(s, removed, keys[i], i);
  }

  /** Only the seats matter to what a sweep promises. */
  lemma SameSeatsFollow(was: M.State, s: M.State, t: M.State, readings: seq<int>, before: Rows, rows: Rows)
    requires s.seats == t.seats && OnlyOverdueLeft(was, s, readings) && RowsFollow(was, s, before, rows)
    ensures OnlyOverdueLeft(was, t, readings) && RowsFollow(was, t, before, rows)
  {
    assert forall h :: Occupants(s, h) == Occupants(t, h);
  }

  /** The people of `removed` whose huddle has a row, in order. */
  function Told(removed: seq<Swept>, rows: Rows): seq<Participant> {
    if removed == [] then []
    else
      var last := removed[|removed| - 1].who;
      Told(removed[..|removed| - 1], rows) + if last.huddle in rows then [last] else []
  }

  lemma ToldMore(removed: seq<Swept>, i: nat, rows: Rows)
    requires i < |removed|
    ensures Told(removed[..i + 1], rows) == Told(removed[..i], rows) + if removed[i].who.huddle in rows then [removed[i].who] else []
  {
    assert removed[..i + 1][..i] == removed[..i];
  }

  lemma AffectedMore(removed: seq<Swept>, i: nat)
    requires i < |removed|
    ensures forall h :: Affected(removed[..i + 1], h) <==> Affected(removed[..i], h) || IsOf(removed[i], h)
  {
    var more := removed[..i + 1];
    forall h ensures Affected(more, h) <==> Affected(removed[..i], h) || IsOf(removed[i], h) {
      if Affected(removed[..i], h) {
        var j :| 0 <= j < i && IsOf(removed[..i][j], h);
        assert IsOf(more[j], h);
      }
      if IsOf(removed[i], h) { assert IsOf(more[i], h); }
      if Affected(more, h) {
        var j :| 0 <= j < |more| && IsOf(more[j], h);
        if j < i { assert IsOf(removed[..i][j], h); }
      }
    }
  }
}
