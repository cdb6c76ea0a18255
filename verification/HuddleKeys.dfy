/** The Redis keys of the huddle store, each as a projection of the seats, and what one arrival or departure does to them. */
module HuddleKeys {
  import opened Common
  import opened HuddleModel

  datatype StatusHash = StatusHash(workspace: Ulid, channels: seq<Channel>, left: Payload)

  type Members = map<Ulid, map<Ulid, Participant>>
  type Deadlines = map<(Ulid, Ulid), int>
  type UserKeys = map<Ulid, (Ulid, Ulid)>

  // ---- each key as a projection of the seats ----

  ghost predicate MembersMatch(members: Members, seats: map<Ulid, Seat>) {
    && (forall h :: h in members ==> members[h] != map[])
    && (forall u {:trigger HasField(members, u, seats)} :: u in seats ==> HasField(members, u, seats))
    && (forall h, id {:trigger IsSeated(members, h, id, seats)} :: id in Row(members, h) ==> IsSeated(members, h, id, seats))
  }

  /** A seated user has a field in the hash of the huddle. */
  ghost predicate HasField(members: Members, u: Ulid, seats: map<Ulid, Seat>)
    requires u in seats
  {
    var who := seats[u].who;
    who.user == u && who.id in Row(members, who.huddle) && Row(members, who.huddle)[who.id] == who
  }

  /** A field of the hash is the participation of a seated user. */
  ghost predicate IsSeated(members: Members, h: Ulid, id: Ulid, seats: map<Ulid, Seat>)
    requires id in Row(members, h)
  {
    var who := Row(members, h)[id];
    who.huddle == h && who.id == id && who.user in seats && seats[who.user].who == who
  }

  ghost predicate DeadlinesMatch(deadlines: Deadlines, members: Members, seats: map<Ulid, Seat>) {
    && (forall u {:trigger IsDue(deadlines, u, seats)} :: u in seats ==> IsDue(deadlines, u, seats))
    && (forall k :: k in deadlines ==> k.1 in Row(members, k.0))
  }

  /** A seated user's heartbeat deadline is in the sorted set. */
  ghost predicate IsDue(deadlines: Deadlines, u: Ulid, seats: map<Ulid, Seat>)
    requires u in seats
  {
    var key := (seats[u].who.huddle, seats[u].who.id);
    key in deadlines && deadlines[key] == seats[u].deadline
  }

  ghost predicate UserKeysMatch(userKeys: UserKeys, seats: map<Ulid, Seat>) {
    && (forall u {:trigger u in userKeys} :: u in userKeys <==> u in seats)
    && (forall u {:trigger userKeys[u]} :: u in userKeys ==> userKeys[u] == (seats[u].who.huddle, seats[u].who.id))
  }

  ghost predicate StatusMatch(status: map<Ulid, StatusHash>, seats: map<Ulid, Seat>) {
    && (forall u {:trigger u in status} :: u in status <==> u in seats)
    && (forall u {:trigger status[u]} :: u in status ==> status[u] == StatusHash(seats[u].workspace, seats[u].channels, seats[u].left))
  }

  ghost predicate WorkspacesMatch(workspaces: map<Ulid, set<Ulid>>, seats: map<Ulid, Seat>) {
    && (forall w :: w in workspaces ==> workspaces[w] != {})
    && (forall w, u {:trigger u in MembersOf(workspaces, w)} :: u in MembersOf(workspaces, w) <==> u in seats && seats[u].workspace == w)
  }

  // ---- one seat leaves, one seat arrives ----

  /** One hash field holds one participation, and its record names one user. */
  lemma OneHolder(members: Members, seats: map<Ulid, Seat>, u: Ulid, v: Ulid)
    requires MembersMatch(members, seats) && u in seats && v in seats && u != v
    ensures !SameSeat(seats[u].who, seats[v].who)
  {
    assert HasField(members, u, seats) && HasField(members, v, seats);
  }

  lemma MembersAfterLeaving(members: Members, seats: map<Ulid, Seat>, u: Ulid)
    requires MembersMatch(members, seats) && u in seats
    ensures MembersMatch(DropField(members, seats[u].who.huddle, seats[u].who.id), seats - {u})
  {
    var w := seats[u].who;
    var after := DropField(members, w.huddle, w.id);
    assert HasField(members, u, seats);
    assert forall h :: Row(after, h) == if h == w.huddle then Row(members, h) - {w.id} else Row(members, h);
    var seats' := seats - {u};
    forall v | v in seats' ensures HasField(after, v, seats') {
      assert HasField(members, v, seats);
      OneHolder(members, seats, u, v);
    }
    forall h, id | id in Row(after, h) ensures IsSeated(after, h, id, seats') {
      assert IsSeated(members, h, id, seats);
    }
  }

  /** Writing a seat of a user who has none, or rewriting the record of one who has. */
  lemma MembersAfterWriting(members: Members, seats: map<Ulid, Seat>, seat: Seat)
    requires MembersMatch(members, seats)
    requires seat.who.user in seats ==> SameSeat(seat.who, seats[seat.who.user].who)
    requires forall v :: v in seats && v != seat.who.user ==> !SameSeat(seats[v].who, seat.who)
    ensures MembersMatch(PutField(members, seat.who.huddle, seat.who.id, seat.who), seats[seat.who.user := seat])
  {
    var w := seat.who;
    var after := PutField(members, w.huddle, w.id, w);
    var seats' := seats[w.user := seat];
    assert forall h :: Row(after, h) == if h == w.huddle then Row(members, h)[w.id := w] else Row(members, h);
    forall h, id | id in Row(after, h) ensures IsSeated(after, h, id, seats') {
      if !(h == w.huddle && id == w.id) {
        assert IsSeated(members, h, id, seats);
      }
    }
    forall h | h in after ensures after[h] != map[] {
      assert h != w.huddle ==> after[h] == members[h];
      assert w.id in after[w.huddle];
    }
    forall v | v in seats' ensures HasField(after, v, seats') {
      if v != w.user {
        assert HasField(members, v, seats);
        assert !SameSeat(seats[v].who, w);
      }
    }
  }

  lemma DeadlinesAfterLeaving(deadlines: Deadlines, members: Members, seats: map<Ulid, Seat>, u: Ulid)
    requires MembersMatch(members, seats) && DeadlinesMatch(deadlines, members, seats) && u in seats
    ensures var w := seats[u].who;
            DeadlinesMatch(deadlines - {(w.huddle, w.id)}, DropField(members, w.huddle, w.id), seats - {u})
  {
    var w := seats[u].who;
    var after := DropField(members, w.huddle, w.id);
    assert HasField(members, u, seats);
    assert forall h :: Row(after, h) == if h == w.huddle then Row(members, h) - {w.id} else Row(members, h);
    var seats' := seats - {u};
    forall v | v in seats' ensures IsDue(deadlines - {(w.huddle, w.id)}, v, seats') {
      assert IsDue(deadlines, v, seats);
      OneHolder(members, seats, u, v);
    }
  }

  /** The deadline of a seat is written together with its hash field. */
  lemma DeadlinesAfterWriting(deadlines: Deadlines, members: Members, seats: map<Ulid, Seat>, seat: Seat)
    requires DeadlinesMatch(deadlines, members, seats)
    requires forall v :: v in seats && v != seat.who.user ==> !SameSeat(seats[v].who, seat.who)
    ensures var w := seat.who;
            DeadlinesMatch(deadlines[(w.huddle, w.id) := seat.deadline], PutField(members, w.huddle, w.id, w), seats[w.user := seat])
  {
    var w := seat.who;
    var after := PutField(members, w.huddle, w.id, w);
    assert forall h :: Row(after, h) == if h == w.huddle then Row(members, h)[w.id := w] else Row(members, h);
    var seats' := seats[w.user := seat];
    forall v | v in seats' ensures IsDue(deadlines[(w.huddle, w.id) := seat.deadline], v, seats') {
      if v != w.user {
        assert IsDue(deadlines, v, seats);
        assert !SameSeat(seats[v].who, seat.who);
      }
    }
  }

  lemma WorkspacesAfterLeaving(workspaces: map<Ulid, set<Ulid>>, seats: map<Ulid, Seat>, u: Ulid)
    requires WorkspacesMatch(workspaces, seats) && u in seats
    ensures u in MembersOf(workspaces, seats[u].workspace)
    ensures WorkspacesMatch(DropMember(workspaces, seats[u].workspace, u), seats - {u})
  {
    var ws := seats[u].workspace;
    var after := DropMember(workspaces, ws, u);
    assert u in MembersOf(workspaces, ws);
    assert forall w :: MembersOf(after, w) == if w == ws then MembersOf(workspaces, w) - {u} else MembersOf(workspaces, w);
  }

  lemma WorkspacesAfterArriving(workspaces: map<Ulid, set<Ulid>>, seats: map<Ulid, Seat>, seat: Seat)
    requires WorkspacesMatch(workspaces, seats) && seat.who.user !in seats
    ensures seat.who.user !in MembersOf(workspaces, seat.workspace)
    ensures WorkspacesMatch(AddMember(workspaces, seat.workspace, seat.who.user), seats[seat.who.user := seat])
  {
    var after := AddMember(workspaces, seat.workspace, seat.who.user);
    assert forall w :: MembersOf(after, w)
                    == if w == seat.workspace then MembersOf(workspaces, w) + {seat.who.user} else MembersOf(workspaces, w);
  }

  // ---- all keys together ----

  ghost predicate KeysMatch(members: Members, deadlines: Deadlines, userKeys: UserKeys, status: map<Ulid, StatusHash>,
                            workspaces: map<Ulid, set<Ulid>>, seats: map<Ulid, Seat>)
  {
    && MembersMatch(members, seats)
    && DeadlinesMatch(deadlines, members, seats)
    && UserKeysMatch(userKeys, seats)
    && StatusMatch(status, seats)
    && WorkspacesMatch(workspaces, seats)
  }

  /** What the keys say to each other: nobody is in two huddles or twice in one, a deadline is there for every participation and for
      nothing else, and whoever has a user key has a mark, in the set of exactly one workspace. */
  lemma KeysAgree(members: Members, deadlines: Deadlines, userKeys: UserKeys, status: map<Ulid, StatusHash>,
                  workspaces: map<Ulid, set<Ulid>>, seats: map<Ulid, Seat>)
    requires KeysMatch(members, deadlines, userKeys, status, workspaces, seats)
    ensures forall h, id, g, x :: id in Row(members, h) && x in Row(members, g) && Row(members, h)[id].user == Row(members, g)[x].user ==>
              h == g && id == x
    ensures forall h, id :: (h, id) in deadlines <==> id in Row(members, h)
    ensures forall h, id :: id in Row(members, h) ==> var u := Row(members, h)[id].user; u in userKeys && userKeys[u] == (h, id)
    ensures forall u :: u in userKeys ==> userKeys[u].1 in Row(members, userKeys[u].0) && Row(members, userKeys[u].0)[userKeys[u].1].user == u
    ensures forall u :: u in userKeys <==> u in status
    ensures forall w, u :: u in MembersOf(workspaces, w) <==> u in status && status[u].workspace == w
  {
    forall h, id | id in Row(members, h)
      ensures var u := Row(members, h)[id].user; u in seats && seats[u].who.huddle == h && seats[u].who.id == id && (h, id) in deadlines
    {
      assert IsSeated(members, h, id, seats);
      assert IsDue(deadlines, Row(members, h)[id].user, seats);
    }
    forall u | u in userKeys ensures userKeys[u].1 in Row(members, userKeys[u].0) && Row(members, userKeys[u].0)[userKeys[u].1].user == u {
      assert HasField(members, u, seats);
    }
  }

  /** A hash field leads to its user's own key, status and workspace. */
  ghost predicate Linked(members: Members, userKeys: UserKeys, status: map<Ulid, StatusHash>,
                         workspaces: map<Ulid, set<Ulid>>, h: Ulid, id: Ulid)
  {
    id in Row(members, h) ==>
      var u := Row(members, h)[id].user;
      u in userKeys && userKeys[u] == (h, id) && u in status && u in MembersOf(workspaces, status[u].workspace)
  }

  lemma FieldsAreLinked(members: Members, deadlines: Deadlines, userKeys: UserKeys, status: map<Ulid, StatusHash>,
                        workspaces: map<Ulid, set<Ulid>>, s: State, h: Ulid, id: Ulid)
    requires KeysMatch(members, deadlines, userKeys, status, workspaces, s.seats)
    ensures Linked(members, userKeys, status, workspaces, h, id)
    ensures id in Row(members, h) ==>
              var u := Row(members, h)[id].user;
              u in s.seats && s.seats[u].who == Row(members, h)[id] && Holders(s, h, id) == {u}
              && status[u] == StatusHash(s.seats[u].workspace, s.seats[u].channels, s.seats[u].left)
    ensures id !in Row(members, h) ==> Holders(s, h, id) == {}
  {
    if id in Row(members, h) {
      assert IsSeated(members, h, id, s.seats);
      var u := Row(members, h)[id].user;
      forall v | v in Holders(s, h, id) ensures v == u {
        if v != u { OneHolder(members, s.seats, u, v); }
      }
    } else {
      forall v | v in s.seats ensures v !in Holders(s, h, id) {
        assert HasField(members, v, s.seats);
      }
    }
  }

  lemma KeysAfterLeaving(members: Members, deadlines: Deadlines, userKeys: UserKeys, status: map<Ulid, StatusHash>,
                         workspaces: map<Ulid, set<Ulid>>, seats: map<Ulid, Seat>, u: Ulid)
    requires KeysMatch(members, deadlines, userKeys, status, workspaces, seats) && u in seats
    ensures var w := seats[u].who;
            KeysMatch(DropField(members, w.huddle, w.id), deadlines - {(w.huddle, w.id)}, userKeys - {u}, status - {u},
                      DropMember(workspaces, seats[u].workspace, u), seats - {u})
  {
    MembersAfterLeaving(members, seats, u);
    DeadlinesAfterLeaving(deadlines, members, seats, u);
    WorkspacesAfterLeaving(workspaces, seats, u);
  }

  lemma KeysAfterArriving(members: Members, deadlines: Deadlines, userKeys: UserKeys, status: map<Ulid, StatusHash>,
                          workspaces: map<Ulid, set<Ulid>>, seats: map<Ulid, Seat>, seat: Seat)
    requires KeysMatch(members, deadlines, userKeys, status, workspaces, seats) && seat.who.user !in seats
    requires forall v :: v in seats ==> !SameSeat(seats[v].who, seat.who)
    ensures var w := seat.who;
            KeysMatch(PutField(members, w.huddle, w.id, w), deadlines[(w.huddle, w.id) := seat.deadline],
                      userKeys[w.user := (w.huddle, w.id)],
                      status[w.user := StatusHash(seat.workspace, seat.channels, seat.left)],
                      AddMember(workspaces, seat.workspace, w.user), seats[w.user := seat])
  {
    MembersAfterWriting(members, seats, seat);
    DeadlinesAfterWriting(deadlines, members, seats, seat);
    WorkspacesAfterArriving(workspaces, seats, seat);
  }

  /** A user who gives up one seat for another: the keys of the old seat go, those of the new one come. */
  lemma KeysAfterMoving(members: Members, deadlines: Deadlines, userKeys: UserKeys, status: map<Ulid, StatusHash>,
                        workspaces: map<Ulid, set<Ulid>>, seats: map<Ulid, Seat>, seat: Seat)
    requires KeysMatch(members, deadlines, userKeys, status, workspaces, seats) && seat.who.user in seats
    requires forall v :: v in seats && v != seat.who.user ==> !SameSeat(seats[v].who, seat.who)
    ensures var w := seat.who;
            var earlier := seats[w.user];
            KeysMatch(PutField(DropField(members, earlier.who.huddle, earlier.who.id), w.huddle, w.id, w),
                      (deadlines - {(earlier.who.huddle, earlier.who.id)})[(w.huddle, w.id) := seat.deadline],
                      (userKeys - {w.user})[w.user := (w.huddle, w.id)],
                      status[w.user := StatusHash(seat.workspace, seat.channels, seat.left)],
                      AddMember(DropMember(workspaces, earlier.workspace, w.user), seat.workspace, w.user), seats[w.user := seat])
  {
    var w := seat.who;
    var earlier := seats[w.user];
    KeysAfterLeaving(members, deadlines, userKeys, status, workspaces, seats, w.user);
    KeysAfterArriving(DropField(members, earlier.who.huddle, earlier.who.id), deadlines - {(earlier.who.huddle, earlier.who.id)},
                      userKeys - {w.user}, status - {w.user}, DropMember(workspaces, earlier.workspace, w.user), seats - {w.user}, seat);
    assert (seats - {w.user})[w.user := seat] == seats[w.user := seat];
    var mark := StatusHash(seat.workspace, seat.channels, seat.left);
    assert (status - {w.user})[w.user := mark] == status[w.user := mark];
  }

  /** Rewriting a participant's record in place touches only the members hash. */
  lemma KeysAfterRewrite(members: Members, deadlines: Deadlines, userKeys: UserKeys, status: map<Ulid, StatusHash>,
                         workspaces: map<Ulid, set<Ulid>>, seats: map<Ulid, Seat>, u: Ulid, who: Participant)
    requires KeysMatch(members, deadlines, userKeys, status, workspaces, seats) && u in seats
    requires SameSeat(who, seats[u].who) && who.user == u
    ensures KeysMatch(PutField(members, who.huddle, who.id, who), deadlines, userKeys, status, workspaces,
                      seats[u := seats[u].(who := who)])
  {
    forall v | v in seats && v != u ensures !SameSeat(seats[v].who, who) {
      OneHolder(members, seats, u, v);
    }
    MembersAfterWriting(members, seats, seats[u].(who := who));
    DeadlinesAfterWriting(deadlines, members, seats, seats[u].(who := who));
    assert IsDue(deadlines, u, seats);
    assert deadlines == deadlines[(who.huddle, who.id) := seats[u].deadline];
    WorkspacesAfterRewrite(workspaces, seats, u, seats[u].(who := who));
  }

  lemma WorkspacesAfterRewrite(workspaces: map<Ulid, set<Ulid>>, seats: map<Ulid, Seat>, u: Ulid, seat: Seat)
    requires WorkspacesMatch(workspaces, seats) && u in seats && seat.workspace == seats[u].workspace
    ensures WorkspacesMatch(workspaces, seats[u := seat])
  {
  }

  /** Moving a deadline touches only the sorted set. */
  lemma KeysAfterHeartbeat(members: Members, deadlines: Deadlines, userKeys: UserKeys, status: map<Ulid, StatusHash>,
                           workspaces: map<Ulid, set<Ulid>>, seats: map<Ulid, Seat>, u: Ulid, deadline: int)
    requires KeysMatch(members, deadlines, userKeys, status, workspaces, seats) && u in seats
    ensures (seats[u].who.huddle, seats[u].who.id) in deadlines
    ensures KeysMatch(members, deadlines[(seats[u].who.huddle, seats[u].who.id) := deadline], userKeys, status, workspaces,
                      seats[u := seats[u].(deadline := deadline)])
  {
    var who := seats[u].who;
    assert HasField(members, u, seats);
    assert PutField(members, who.huddle, who.id, who) == members by {
      assert Row(members, who.huddle)[who.id := who] == Row(members, who.huddle);
    }
    forall v | v in seats && v != u ensures !SameSeat(seats[v].who, who) {
      OneHolder(members, seats, u, v);
    }
    MembersAfterWriting(members, seats, seats[u].(deadline := deadline));
    assert IsDue(deadlines, u, seats);
    DeadlinesAfterWriting(deadlines, members, seats, seats[u].(deadline := deadline));
    WorkspacesAfterRewrite(workspaces, seats, u, seats[u].(deadline := deadline));
  }

  /** Picking hash fields of a huddle picks as many of its people. */
  lemma FieldsAndPeople(row: map<Ulid, Participant>, ids: set<Ulid>, people: set<Ulid>, members: Members, s: State, huddle: Ulid)
    requires MembersMatch(members, s.seats) && row == Row(members, huddle) && ids <= row.Keys
    requires forall u :: u in people <==> u in Occupants(s, huddle) && s.seats[u].who.id in ids
    ensures |ids| == |people|
  {
    var users := map id | id in ids :: row[id].user;
    forall id | id in ids ensures users[id] in people && s.seats[users[id]].who.id == id {
      assert IsSeated(members, huddle, id, s.seats);
    }
    InjectiveMapSize(users);
    assert users.Keys == ids;
    forall u | u in people ensures u in users.Values {
      assert HasField(members, u, s.seats);
      assert users[s.seats[u].who.id] == u;
    }
    assert users.Values == people;
  }

  /** The size of a members hash is the number of people in the huddle. */
  lemma HashSize(members: Members, s: State, huddle: Ulid)
    requires MembersMatch(members, s.seats)
    ensures |Row(members, huddle)| == |Occupants(s, huddle)|
  {
    var row := Row(members, huddle);
    forall u | u in Occupants(s, huddle) ensures s.seats[u].who.id in row.Keys {
      assert HasField(members, u, s.seats);
    }
    FieldsAndPeople(row, row.Keys, Occupants(s, huddle), members, s, huddle);
  }

  /** Counting the hash entries with a screen counts the people who share. */
  lemma SharerCount(members: Members, s: State, huddle: Ulid, ids: set<Ulid>)
    requires MembersMatch(members, s.seats)
    requires forall id :: id in ids <==> id in Row(members, huddle) && Row(members, huddle)[id].screen != ""
    ensures |ids| == |Sharers(s, huddle)|
  {
    var row := Row(members, huddle);
    forall u | u in Occupants(s, huddle) ensures u in Sharers(s, huddle) <==> s.seats[u].who.id in ids {
      assert HasField(members, u, s.seats);
    }
    FieldsAndPeople(row, ids, Sharers(s, huddle), members, s, huddle);
  }
}
