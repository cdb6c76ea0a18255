/** What every run of huddle scripts keeps. */
module HuddleRuns {
  import opened Common
  import opened HuddleModel

  // ---- the map stays well formed ----

  lemma VacateKeepsValid(s: State, user: Ulid)
    requires Valid(s) && user in s.seats
    ensures Valid(Vacate(s, user))
  {
    BumpGrows(s.versions, s.seats[user].who.huddle);
  }

  lemma {:induction false} VacateAllKeepsValid(s: State, users: seq<Ulid>)
    requires Valid(s)
    ensures Valid(VacateAll(s, users))
    ensures VacateAll(s, users).seats == s.seats - Elements(users)
    ensures VacateAll(s, users).soon == s.soon
    decreases |users|
  {
    if users != [] {
      var next := if users[0] in s.seats then Vacate(s, users[0]) else s;
      VacateAllKeepsValid(next, users[1..]);
      assert Elements(users) == {users[0]} + Elements(users[1..]);
      assert next.seats == s.seats - {users[0]};
      assert s.seats - Elements(users) == next.seats - Elements(users[1..]);
    }
  }

  /** A participation has at most one holder. */
  lemma TheHolder(s: State, huddle: Ulid, id: Ulid, u: Ulid)
    requires Valid(s) && u in Holders(s, huddle, id)
    ensures Holders(s, huddle, id) == {u}
  {
    forall v | v in Holders(s, huddle, id) ensures v == u {
      assert SameSeat(s.seats[u].who, s.seats[v].who);
    }
  }

  lemma VacateAllAppend(s: State, users: seq<Ulid>, u: Ulid)
    requires u in VacateAll(s, users).seats
    ensures VacateAll(s, users + [u]) == Vacate(VacateAll(s, users), u)
    decreases |users|
  {
    if users != [] {
      assert (users + [u])[1..] == users[1..] + [u];
      VacateAllAppend(if users[0] in s.seats then Vacate(s, users[0]) else s, users[1..], u);
    } else {
      assert users + [u] == [u];
      assert VacateAll(Vacate(s, u), []) == Vacate(s, u);
    }
  }

  /** With one holder, the scripts that name a participation act on that user. */
  lemma MutedOf(s: State, huddle: Ulid, id: Ulid, u: Ulid, muted: bool)
    requires Holders(s, huddle, id) == {u}
    ensures var who := s.seats[u].who.(muted := muted);
            SetMuted(s, huddle, id, muted) == (Rewrite(s, u, who), Some(Version(s, huddle) + 1))
  {
    assert u in Holders(s, huddle, id);
  }

  lemma TrackOf(s: State, huddle: Ulid, id: Ulid, u: Ulid, kind: TrackKind, mid: string, limit: int)
    requires Holders(s, huddle, id) == {u}
    ensures var who := s.seats[u].who;
            var after := Rewrite(s, u, WithMid(who, kind, mid));
            SetTrack(s, huddle, id, kind, mid, limit)
               == if Mid(who, kind) == mid then (s, Stored(Version(s, huddle), mid))
                  else if kind == Screen && mid != "" && Mid(who, kind) == "" && |Sharers(s, huddle)| >= limit then (s, ShareFull)
                  else (after, Stored(Version(s, huddle) + 1, Mid(who, kind)))
  {
    assert u in Holders(s, huddle, id);
  }

  lemma SeatingKeepsValid(s: State, t: State, p: Participant)
    requires Valid(s) && NewSeat(s, p)
    requires p.user in t.seats && t.seats == s.seats[p.user := t.seats[p.user]] && t.seats[p.user].who == p
    requires forall h :: Version(s, h) <= Version(t, h)
    requires Version(t, p.huddle) >= 1
    ensures Valid(t)
  {
    forall u, v | u in t.seats && v in t.seats && SameSeat(t.seats[u].who, t.seats[v].who) ensures u == v {
      if u != p.user && v != p.user {
        assert SameSeat(s.seats[u].who, s.seats[v].who);
      }
    }
  }

  lemma BumpGrows(versions: map<Ulid, nat>, huddle: Ulid)
    ensures forall h :: VersionIn(Bump(versions, huddle), h) == VersionIn(versions, h) + if h == huddle then 1 else 0
  {
  }

  /** A join that is not refused seats the user and never lowers a version. */
  lemma JoinSeats(s: State, p: Participant, deadline: int, limit: int, status: Status)
    requires |Occupants(s, p.huddle) - {p.user}| < limit
    ensures var t := Join(s, p, deadline, limit, status).0;
            && t.seats == s.seats[p.user := Seat(p, deadline, status.workspace, status.channels, status.left)]
            && (forall h :: Version(s, h) <= Version(t, h))
            && Version(t, p.huddle) >= 1
  {
    var prior := SeatOf(s, p.user);
    var freed := if prior.Some? then Bump(s.versions, prior.value.who.huddle) else s.versions;
    if prior.Some? { BumpGrows(s.versions, prior.value.who.huddle); }
    BumpGrows(freed, p.huddle);
  }

  lemma JoinKeepsValid(s: State, p: Participant, deadline: int, limit: int, status: Status)
    requires Valid(s) && NewSeat(s, p)
    ensures Valid(Join(s, p, deadline, limit, status).0)
  {
    if |Occupants(s, p.huddle) - {p.user}| < limit {
      JoinSeats(s, p, deadline, limit, status);
      SeatingKeepsValid(s, Join(s, p, deadline, limit, status).0, p);
    }
  }

  lemma RewriteKeepsValid(s: State, user: Ulid, who: Participant)
    requires Valid(s) && user in s.seats && SameSeat(who, s.seats[user].who) && who.user == user
    ensures Valid(Rewrite(s, user, who))
  {
    var t := Rewrite(s, user, who);
    assert t.seats.Keys == s.seats.Keys;
    forall u, v | u in t.seats && v in t.seats && SameSeat(t.seats[u].who, t.seats[v].who) ensures u == v {
      assert SameSeat(s.seats[u].who, s.seats[v].who);
    }
    BumpGrows(s.versions, s.seats[user].who.huddle);
  }

  lemma HeartbeatKeepsValid(s: State, user: Ulid, huddle: Ulid, id: Ulid, deadline: int)
    requires Valid(s)
    ensures Valid(Heartbeat(s, user, huddle, id, deadline).0)
  {
    var t := Heartbeat(s, user, huddle, id, deadline).0;
    assert forall u :: u in t.seats ==> u in s.seats && t.seats[u].who == s.seats[u].who;
  }

  lemma JoiningSoonKeepsValid(s: State, huddle: Ulid, user: Ulid, until: int, now: int)
    requires Valid(s)
    ensures Valid(JoiningSoon(s, huddle, user, until, now))
  {
    BumpGrows(s.versions, huddle);
  }

  lemma ClearKeepsValid(s: State, huddle: Ulid, order: seq<Ulid>)
    requires Valid(s) && Elements(order) == Occupants(s, huddle)
    ensures Valid(Clear(s, huddle, order))
    ensures Clear(s, huddle, order).seats == s.seats - Occupants(s, huddle)
  {
    VacateAllKeepsValid(s, order);
    var after := Clear(s, huddle, order);
    forall u | u in after.seats ensures after.seats[u].who.huddle != huddle {
      assert u !in Occupants(s, huddle);
    }
  }

  lemma ApplyKeepsValid(s: State, op: Op)
    requires Valid(s) && Legal(s, op)
    ensures Valid(Apply(s, op))
  {
    match op
    case DoJoin(p, deadline, limit, status) => JoinKeepsValid(s, p, deadline, limit, status);
    case DoRemove(huddle, id) =>
      if Holders(s, huddle, id) != {} {
        var u :| u in Holders(s, huddle, id) && Apply(s, op) == Vacate(s, u);
        VacateAllKeepsValid(s, [u]);
        assert Vacate(s, u) == VacateAll(s, [u]);
      }
    case DoSweep(_, order) => VacateAllKeepsValid(s, order);
    case DoClear(huddle, order) => ClearKeepsValid(s, huddle, order);
    case DoHeartbeat(user, huddle, id, deadline) => HeartbeatKeepsValid(s, user, huddle, id, deadline);
    case DoSetMuted(huddle, id, muted) =>
      if Holders(s, huddle, id) != {} {
        var u :| u in Holders(s, huddle, id) && Apply(s, op) == Rewrite(s, u, s.seats[u].who.(muted := muted));
        RewriteKeepsValid(s, u, s.seats[u].who.(muted := muted));
      }
    case DoSetTrack(huddle, id, kind, mid, _) =>
      if Apply(s, op) != s {
        var u :| u in Holders(s, huddle, id) && Apply(s, op) == Rewrite(s, u, WithMid(s.seats[u].who, kind, mid));
        RewriteKeepsValid(s, u, WithMid(s.seats[u].who, kind, mid));
      }
    case DoJoiningSoon(huddle, user, until, now) =>
      JoiningSoonKeepsValid(s, huddle, user, until, now);
  }

  lemma {:induction false} RunKeepsValid(s: State, ops: seq<Op>)
    requires Valid(s) && LegalRun(s, ops)
    ensures Valid(Run(s, ops))
    decreases |ops|
  {
    if ops != [] {
      var n := |ops| - 1;
      LegalPrefix(s, ops);
      RunKeepsValid(s, ops[..n]);
      ApplyKeepsValid(Run(s, ops[..n]), ops[n]);
    }
  }

  lemma LegalPrefix(s: State, ops: seq<Op>)
    requires LegalRun(s, ops) && ops != []
    ensures LegalRun(s, ops[..|ops| - 1]) && Legal(Run(s, ops[..|ops| - 1]), ops[|ops| - 1])
  {
    var front := ops[..|ops| - 1];
    forall i | 0 <= i < |front| ensures Legal(Run(s, front[..i]), front[i]) {
      assert front[..i] == ops[..i];
    }
  }

  // ---- announcements alternate ----

  /** The in-huddle flags published on the workspace's channel for one user, oldest first. */
  ghost function Marks(log: seq<Published>, workspace: Ulid, user: Ulid): seq<bool> {
    if log == [] then []
    else
      var last := log[|log| - 1];
      Marks(log[..|log| - 1], workspace, user)
      + if last.channel == WorkspaceChannel(workspace) && last.payload.HuddleChanged?
           && last.payload.workspace == workspace && last.payload.user == user
        then [last.payload.inHuddle] else []
  }

  ghost predicate Alternates(marks: seq<bool>) {
    forall i :: 0 <= i < |marks| ==> marks[i] == (i % 2 == 0)
  }

  /** The status JoinHuddle builds when the encoder works. */
  function Announced(workspace: Ulid, user: Ulid): Status {
    Status(workspace, [WorkspaceChannel(workspace)], HuddleChanged(workspace, user, true), HuddleChanged(workspace, user, false))
  }

  ghost predicate AnnouncedOp(op: Op) {
    op.DoJoin? ==> op.status == Announced(op.status.workspace, op.p.user)
  }

  ghost predicate SeatsAnnounced(s: State) {
    forall u :: u in s.seats ==>
      s.seats[u].channels == [WorkspaceChannel(s.seats[u].workspace)]
      && s.seats[u].left == HuddleChanged(s.seats[u].workspace, u, false)
  }

  ghost predicate MarksMatch(s: State) {
    forall w, u ::
      Alternates(Marks(s.log, w, u)) && (|Marks(s.log, w, u)| % 2 == 1 <==> InWorkspace(s, w, u))
  }

  lemma MarksAppend(log: seq<Published>, e: Published, w: Ulid, u: Ulid)
    ensures Marks(log + [e], w, u) == Marks(log, w, u)
            + if e.channel == WorkspaceChannel(w) && e.payload.HuddleChanged? && e.payload.workspace == w && e.payload.user == u
              then [e.payload.inHuddle] else []
  {
    assert (log + [e])[..|log|] == log;
  }

  /** One announcement of `inHuddle` for (w, u) extends exactly that user's marks. */
  lemma MarksAnnounce(log: seq<Published>, w: Ulid, u: Ulid, inHuddle: bool)
    ensures var after := log + PublishAll([WorkspaceChannel(w)], HuddleChanged(w, u, inHuddle));
            forall x, v :: Marks(after, x, v) == Marks(log, x, v) + if x == w && v == u then [inHuddle] else []
  {
    var e := Published(WorkspaceChannel(w), HuddleChanged(w, u, inHuddle));
    assert PublishAll([WorkspaceChannel(w)], HuddleChanged(w, u, inHuddle)) == [e];
    forall x, v ensures Marks(log + [e], x, v) == Marks(log, x, v) + if x == w && v == u then [inHuddle] else [] {
      MarksAppend(log, e, x, v);
    }
  }

  lemma AlternatesAppend(marks: seq<bool>, b: bool)
    requires Alternates(marks) && b == (|marks| % 2 == 0)
    ensures Alternates(marks + [b])
  {
  }

  lemma VacateKeepsMarks(s: State, user: Ulid)
    requires user in s.seats && SeatsAnnounced(s) && MarksMatch(s)
    ensures SeatsAnnounced(Vacate(s, user)) && MarksMatch(Vacate(s, user))
  {
    var seat := s.seats[user];
    var after := Vacate(s, user);
    MarksAnnounce(s.log, seat.workspace, user, false);
    forall w, u ensures Alternates(Marks(after.log, w, u)) && (|Marks(after.log, w, u)| % 2 == 1 <==> InWorkspace(after, w, u)) {
      assert InWorkspace(s, seat.workspace, user);
      if w == seat.workspace && u == user { AlternatesAppend(Marks(s.log, w, u), false); }
    }
  }

  lemma {:induction false} VacateAllKeepsMarks(s: State, users: seq<Ulid>)
    requires SeatsAnnounced(s) && MarksMatch(s)
    ensures SeatsAnnounced(VacateAll(s, users)) && MarksMatch(VacateAll(s, users))
    decreases |users|
  {
    if users != [] {
      if users[0] in s.seats { VacateKeepsMarks(s, users[0]); }
      VacateAllKeepsMarks(if users[0] in s.seats then Vacate(s, users[0]) else s, users[1..]);
    }
  }

  /** What a join that is not refused publishes. */
  lemma JoinPublishes(s: State, p: Participant, deadline: int, limit: int, status: Status)
    requires |Occupants(s, p.huddle) - {p.user}| < limit
    ensures var t := Join(s, p, deadline, limit, status).0;
            t.log == if InWorkspace(s, status.workspace, p.user) then s.log
                     else if p.user in s.seats then Vacate(s, p.user).log + PublishAll(status.channels, status.joined)
                     else s.log + PublishAll(status.channels, status.joined)
  {
    assert s.log + [] == s.log;
  }

  lemma JoinKeepsMarks(s: State, p: Participant, deadline: int, limit: int, w: Ulid)
    requires SeatsAnnounced(s) && MarksMatch(s)
    ensures var after := Join(s, p, deadline, limit, Announced(w, p.user)).0; SeatsAnnounced(after) && MarksMatch(after)
  {
    if |Occupants(s, p.huddle) - {p.user}| >= limit { return; }
    var after := Join(s, p, deadline, limit, Announced(w, p.user)).0;
    JoinSeats(s, p, deadline, limit, Announced(w, p.user));
    JoinPublishes(s, p, deadline, limit, Announced(w, p.user));
    if InWorkspace(s, w, p.user) {
      SeatedInSameWorkspace(s, after, p.user, w);
    } else if p.user in s.seats {
      VacateKeepsMarks(s, p.user);
      assert after.seats == Vacate(s, p.user).seats[p.user := after.seats[p.user]];
      SeatedAnew(Vacate(s, p.user), after, p.user, w);
    } else {
      SeatedAnew(s, after, p.user, w);
    }
  }

  lemma SeatedInSameWorkspace(s: State, t: State, user: Ulid, w: Ulid)
    requires SeatsAnnounced(s) && MarksMatch(s) && InWorkspace(s, w, user)
    requires t.log == s.log && user in t.seats && t.seats == s.seats[user := t.seats[user]]
    requires t.seats[user].workspace == w && SameMark(t.seats[user], s.seats[user])
    ensures SeatsAnnounced(t) && MarksMatch(t)
  {
    SameSeatsSameMarks(s, t);
  }

  lemma SeatedAnew(s: State, t: State, user: Ulid, w: Ulid)
    requires SeatsAnnounced(s) && MarksMatch(s) && user !in s.seats
    requires user in t.seats && t.seats == s.seats[user := t.seats[user]]
    requires t.log == s.log + PublishAll([WorkspaceChannel(w)], HuddleChanged(w, user, true))
    requires t.seats[user].workspace == w && t.seats[user].channels == [WorkspaceChannel(w)]
    requires t.seats[user].left == HuddleChanged(w, user, false)
    ensures SeatsAnnounced(t) && MarksMatch(t)
  {
    MarksAnnounce(s.log, w, user, true);
    forall x, v ensures Alternates(Marks(t.log, x, v)) && (|Marks(t.log, x, v)| % 2 == 1 <==> InWorkspace(t, x, v)) {
      assert |Marks(s.log, x, v)| % 2 == 1 <==> InWorkspace(s, x, v);
      if x == w && v == user {
        assert !InWorkspace(s, x, v);
        AlternatesAppend(Marks(s.log, x, v), true);
      }
    }
  }

  lemma ApplyKeepsMarks(s: State, op: Op)
    requires SeatsAnnounced(s) && MarksMatch(s) && AnnouncedOp(op)
    ensures SeatsAnnounced(Apply(s, op)) && MarksMatch(Apply(s, op))
  {
    match op
    case DoJoin(p, deadline, limit, status) => JoinKeepsMarks(s, p, deadline, limit, status.workspace);
    case DoRemove(huddle, id) =>
      if Holders(s, huddle, id) != {} {
        var u :| u in Holders(s, huddle, id) && Remove(s, huddle, id) == Vacate(s, u);
        VacateKeepsMarks(s, u);
      }
    case DoSweep(_, order) => VacateAllKeepsMarks(s, order);
    case DoClear(huddle, order) =>
      VacateAllKeepsMarks(s, order);
      SameSeatsSameMarks(VacateAll(s, order), Apply(s, op));
    case _ => SameSeatsSameMarks(s, Apply(s, op));
  }

  ghost predicate SameMark(a: Seat, b: Seat) {
    a.workspace == b.workspace && a.channels == b.channels && a.left == b.left
  }

  lemma SameSeatsSameMarks(s: State, t: State)
    requires SeatsAnnounced(s) && MarksMatch(s) && t.log == s.log && t.seats.Keys == s.seats.Keys
    requires forall u :: u in s.seats ==> SameMark(s.seats[u], t.seats[u])
    ensures SeatsAnnounced(t) && MarksMatch(t)
  {
    forall w, u ensures InWorkspace(t, w, u) == InWorkspace(s, w, u) {}
  }

  lemma {:induction false} RunKeepsMarks(ops: seq<Op>)
    requires forall i :: 0 <= i < |ops| ==> AnnouncedOp(ops[i])
    ensures SeatsAnnounced(Run(EMPTY, ops)) && MarksMatch(Run(EMPTY, ops))
    decreases |ops|
  {
    if ops != [] {
      var n := |ops| - 1;
      RunKeepsMarks(ops[..n]);
      ApplyKeepsMarks(Run(EMPTY, ops[..n]), ops[n]);
    }
  }

  // ---- joins whose status cannot be encoded ----

  /** The status JoinHuddle builds when the encoder fails: the mark moves, and nobody is told. */
  function Unannounced(workspace: Ulid): Status {
    Status(workspace, [], Silent, Silent)
  }

  ghost predicate StatusOp(op: Op) {
    op.DoJoin? ==> op.status == Announced(op.status.workspace, op.p.user) || op.status == Unannounced(op.status.workspace)
  }

  /** The announcements are right, and stay right whoever leaves next. */
  ghost predicate TellsTruth(s: State) {
    MarksMatch(s) && forall u :: u in s.seats ==> MarksMatch(Vacate(s, u))
  }

  /** A join is announced unless the huddle is full. */
  ghost predicate AnnouncedOrRefused(s: State, op: Op) {
    op.DoJoin? ==> |Occupants(s, op.p.huddle) - {op.p.user}| >= op.limit || AnnouncedOp(op)
  }

  /** A join without an announcement: an arrival goes untold, and after a move inside the workspace the departure will. */
  lemma UnannouncedLies(s: State, p: Participant, deadline: int, limit: int, w: Ulid)
    requires SeatsAnnounced(s) && MarksMatch(s) && |Occupants(s, p.huddle) - {p.user}| < limit
    ensures !TellsTruth(Join(s, p, deadline, limit, Unannounced(w)).0)
  {
    var after := Join(s, p, deadline, limit, Unannounced(w)).0;
    JoinSeats(s, p, deadline, limit, Unannounced(w));
    JoinPublishes(s, p, deadline, limit, Unannounced(w));
    assert PublishAll([], Silent) == [];
    assert |Marks(s.log, w, p.user)| % 2 == 1 <==> InWorkspace(s, w, p.user);
    if InWorkspace(s, w, p.user) {
      var left := Vacate(after, p.user);
      assert left.log == s.log;
      assert !InWorkspace(left, w, p.user) && |Marks(left.log, w, p.user)| % 2 == 1;
    } else {
      ElsewhereUntold(s, p.user, w);
      assert InWorkspace(after, w, p.user) && Marks(after.log, w, p.user) == Marks(s.log, w, p.user);
    }
  }

  /** Leaving another workspace adds no mark in this one. */
  lemma ElsewhereUntold(s: State, user: Ulid, w: Ulid)
    requires SeatsAnnounced(s) && !InWorkspace(s, w, user)
    ensures user in s.seats ==> Marks(Vacate(s, user).log + [], w, user) == Marks(s.log, w, user)
    ensures Marks(s.log + [], w, user) == Marks(s.log, w, user)
  {
    assert s.log + [] == s.log;
    if user in s.seats {
      MarksAnnounce(s.log, s.seats[user].workspace, user, false);
      assert Vacate(s, user).log + [] == Vacate(s, user).log;
    }
  }

  lemma TruthAfter(s: State, op: Op)
    requires SeatsAnnounced(s) && MarksMatch(s) && StatusOp(op)
    ensures AnnouncedOrRefused(s, op) ==> SeatsAnnounced(Apply(s, op)) && TellsTruth(Apply(s, op))
    ensures !AnnouncedOrRefused(s, op) ==> !TellsTruth(Apply(s, op))
  {
    if AnnouncedOp(op) {
      ApplyKeepsMarks(s, op);
      AllMayLeave(Apply(s, op));
    } else if AnnouncedOrRefused(s, op) {
      AllMayLeave(s);
    } else {
      UnannouncedLies(s, op.p, op.deadline, op.limit, op.status.workspace);
    }
  }

  lemma AllMayLeave(s: State)
    requires SeatsAnnounced(s) && MarksMatch(s)
    ensures TellsTruth(s)
  {
    forall u | u in s.seats ensures MarksMatch(Vacate(s, u)) {
      VacateKeepsMarks(s, u);
    }
  }

  /** Every join of the run is announced or refused. */
  ghost predicate AllAnnounced(ops: seq<Op>)
    decreases |ops|
  {
    ops == []
    || (AllAnnounced(ops[..|ops| - 1]) && AnnouncedOrRefused(Run(EMPTY, ops[..|ops| - 1]), ops[|ops| - 1]))
  }

  /** The announcements are right after every prefix of the run. */
  ghost predicate AlwaysTrue(ops: seq<Op>)
    decreases |ops|
  {
    TellsTruth(Run(EMPTY, ops)) && (ops != [] ==> AlwaysTrue(ops[..|ops| - 1]))
  }

  /** Over every run from the empty store: all along it the marks of everybody in every workspace go joined, left, joined, ..., end
      in "joined" exactly while the user sits there, and would still do so if anybody left next, exactly if every join that was
      not refused had its announcements encoded. */
  lemma {:induction false} AnnouncementsTrueIff(ops: seq<Op>)
    requires forall i :: 0 <= i < |ops| ==> StatusOp(ops[i])
    ensures AlwaysTrue(ops) <==> AllAnnounced(ops)
    ensures AllAnnounced(ops) ==> SeatsAnnounced(Run(EMPTY, ops)) && MarksMatch(Run(EMPTY, ops))
    decreases |ops|
  {
    if ops == [] {
      AllMayLeave(EMPTY);
    } else {
      var n := |ops| - 1;
      AnnouncementsTrueIff(ops[..n]);
      if AllAnnounced(ops[..n]) { TruthAfter(Run(EMPTY, ops[..n]), ops[n]); }
    }
  }

  // ---- staying in a workspace ----

  /** What a seat would publish is about its own user, or nothing. */
  ghost predicate SeatsTellOwn(s: State) {
    forall u :: u in s.seats ==> TellsOwn(s.seats[u].channels, s.seats[u].left, s.seats[u].workspace, u, false)
  }

  ghost predicate TellsOwn(channels: seq<Channel>, payload: Payload, w: Ulid, u: Ulid, inHuddle: bool) {
    payload == Silent || (channels == [WorkspaceChannel(w)] && payload == HuddleChanged(w, u, inHuddle))
  }

  /** Publishing about one user adds no mark for another, nor for the same user in another workspace. */
  lemma OwnOnly(log: seq<Published>, channels: seq<Channel>, payload: Payload, x: Ulid, v: Ulid, inHuddle: bool, w: Ulid, u: Ulid)
    requires TellsOwn(channels, payload, x, v, inHuddle) && !(v == u && x == w)
    ensures Marks(log + PublishAll(channels, payload), w, u) == Marks(log, w, u)
  {
    if payload == Silent {
      assert log + PublishAll(channels, payload) == log;
    } else {
      MarksAnnounce(log, x, v, inHuddle);
    }
  }

  /** Somebody else's departure adds no mark for the user. */
  lemma OthersUntold(s: State, other: Ulid, w: Ulid, u: Ulid)
    requires SeatsTellOwn(s) && other in s.seats && other != u
    ensures Marks(Vacate(s, other).log, w, u) == Marks(s.log, w, u)
  {
    var seat := s.seats[other];
    OwnOnly(s.log, seat.channels, seat.left, seat.workspace, other, false, w, u);
  }

  lemma {:induction false} OthersLeave(s: State, users: seq<Ulid>, w: Ulid, u: Ulid)
    requires Valid(s) && SeatsTellOwn(s) && u in VacateAll(s, users).seats
    ensures Marks(VacateAll(s, users).log, w, u) == Marks(s.log, w, u)
    decreases |users|
  {
    VacateAllKeepsValid(s, users);
    if users != [] {
      var next := if users[0] in s.seats then Vacate(s, users[0]) else s;
      if users[0] in s.seats {
        VacateKeepsValid(s, users[0]);
        assert users[0] in users;
        OthersUntold(s, users[0], w, u);
      }
      OthersLeave(next, users[1..], w, u);
    }
  }

  /** Somebody else's join adds no mark for the user, and neither does one that keeps the user's mark. */
  lemma JoinUntold(s: State, p: Participant, deadline: int, limit: int, status: Status, w: Ulid, u: Ulid)
    requires SeatsTellOwn(s) && InWorkspace(s, w, u) && |Occupants(s, p.huddle) - {p.user}| < limit
    requires TellsOwn(status.channels, status.joined, status.workspace, p.user, true)
    requires p.user == u ==> status.workspace == w
    ensures Marks(Join(s, p, deadline, limit, status).0.log, w, u) == Marks(s.log, w, u)
  {
    JoinPublishes(s, p, deadline, limit, status);
    if p.user != u {
      OwnOnly(s.log, status.channels, status.joined, status.workspace, p.user, true, w, u);
      if p.user in s.seats {
        OthersUntold(s, p.user, w, u);
        OwnOnly(Vacate(s, p.user).log, status.channels, status.joined, status.workspace, p.user, true, w, u);
      }
    }
  }

  lemma StayingIsSilent(s: State, op: Op, w: Ulid, u: Ulid)
    requires Valid(s) && Legal(s, op) && SeatsTellOwn(s) && StatusOp(op)
    requires InWorkspace(s, w, u) && InWorkspace(Apply(s, op), w, u)
    ensures Marks(Apply(s, op).log, w, u) == Marks(s.log, w, u)
  {
    match op
    case DoJoin(p, deadline, limit, status) =>
      if |Occupants(s, p.huddle) - {p.user}| < limit {
        JoinSeats(s, p, deadline, limit, status);
        JoinUntold(s, p, deadline, limit, status, w, u);
      }
    case DoRemove(huddle, id) =>
      if Holders(s, huddle, id) != {} {
        var v :| v in Holders(s, huddle, id) && Remove(s, huddle, id) == Vacate(s, v);
        assert u in Vacate(s, v).seats;
        OthersUntold(s, v, w, u);
      }
    case DoSweep(_, order) => OthersLeave(s, order, w, u);
    case DoClear(huddle, order) => OthersLeave(s, order, w, u);
    case _ =>
  }

  /** Seats come from joins, and keep what they would publish. */
  lemma ApplyTellsOwn(s: State, op: Op)
    requires Valid(s) && SeatsTellOwn(s) && StatusOp(op)
    ensures SeatsTellOwn(Apply(s, op))
  {
    match op
    case DoJoin(p, deadline, limit, status) =>
      if |Occupants(s, p.huddle) - {p.user}| < limit { JoinSeats(s, p, deadline, limit, status); }
    case DoSweep(_, order) => VacateAllKeepsValid(s, order);
    case DoClear(_, order) => VacateAllKeepsValid(s, order);
    case _ =>
  }

  lemma {:induction false} RunTellsOwn(ops: seq<Op>)
    requires LegalRun(EMPTY, ops) && forall i :: 0 <= i < |ops| ==> StatusOp(ops[i])
    ensures SeatsTellOwn(Run(EMPTY, ops))
    decreases |ops|
  {
    if ops != [] {
      var n := |ops| - 1;
      LegalPrefix(EMPTY, ops);
      RunTellsOwn(ops[..n]);
      RunKeepsValid(EMPTY, ops[..n]);
      ApplyTellsOwn(Run(EMPTY, ops[..n]), ops[n]);
    }
  }

  /** The user sits in the workspace after each prefix of the run from a given length on. */
  ghost predicate Stays(ops: seq<Op>, from: nat, w: Ulid, u: Ulid)
    decreases |ops|
  {
    InWorkspace(Run(EMPTY, ops), w, u) && (|ops| > from ==> Stays(ops[..|ops| - 1], from, w, u))
  }

  /** As long as somebody stays in a workspace nothing is published about them there, whatever devices and huddles they move to and
      whatever others do, encoded or not. */
  lemma {:induction false} StaysSilent(ops: seq<Op>, from: nat, w: Ulid, u: Ulid)
    requires LegalRun(EMPTY, ops) && from <= |ops| && forall i :: 0 <= i < |ops| ==> StatusOp(ops[i])
    requires Stays(ops, from, w, u)
    ensures Marks(Run(EMPTY, ops).log, w, u) == Marks(Run(EMPTY, ops[..from]).log, w, u)
    decreases |ops|
  {
    if from == |ops| {
      assert ops[..from] == ops;
    } else {
      var n := |ops| - 1;
      LegalPrefix(EMPTY, ops);
      StaysSilent(ops[..n], from, w, u);
      assert ops[..n][..from] == ops[..from];
      OneMoreSilent(ops, w, u);
    }
  }

  lemma OneMoreSilent(ops: seq<Op>, w: Ulid, u: Ulid)
    requires LegalRun(EMPTY, ops) && ops != [] && forall i :: 0 <= i < |ops| ==> StatusOp(ops[i])
    requires InWorkspace(Run(EMPTY, ops), w, u) && InWorkspace(Run(EMPTY, ops[..|ops| - 1]), w, u)
    ensures Marks(Run(EMPTY, ops).log, w, u) == Marks(Run(EMPTY, ops[..|ops| - 1]).log, w, u)
  {
    var front := ops[..|ops| - 1];
    LegalPrefix(EMPTY, ops);
    RunKeepsValid(EMPTY, front);
    RunTellsOwn(front);
    StayingIsSilent(Run(EMPTY, front), ops[|ops| - 1], w, u);
  }

  // ---- capacity ----

  ghost predicate WithinLimit(s: State, limit: int) {
    forall h :: |Occupants(s, h)| <= limit
  }

  lemma FewerOccupants(s: State, t: State, limit: int)
    requires WithinLimit(s, limit)
    requires forall h :: Occupants(t, h) <= Occupants(s, h)
    ensures WithinLimit(t, limit)
  {
    forall h ensures |Occupants(t, h)| <= limit {
      SubsetSize(Occupants(t, h), Occupants(s, h));
    }
  }

  /** A join adds its user to one huddle and takes nobody else anywhere. */
  lemma JoinOccupants(s: State, p: Participant, deadline: int, limit: int, status: Status, h: Ulid)
    ensures var t := Join(s, p, deadline, limit, status).0;
            Occupants(t, h) <= Occupants(s, h) || (h == p.huddle && Occupants(t, h) == (Occupants(s, h) - {p.user}) + {p.user})
  {
    if |Occupants(s, p.huddle) - {p.user}| < limit { JoinSeats(s, p, deadline, limit, status); }
  }

  lemma JoinKeepsLimit(s: State, p: Participant, deadline: int, limit: int, status: Status)
    requires WithinLimit(s, limit)
    ensures WithinLimit(Join(s, p, deadline, limit, status).0, limit)
  {
    var t := Join(s, p, deadline, limit, status).0;
    forall h ensures |Occupants(t, h)| <= limit {
      JoinOccupants(s, p, deadline, limit, status, h);
      if Occupants(t, h) <= Occupants(s, h) { SubsetSize(Occupants(t, h), Occupants(s, h)); }
    }
  }

  /** Apart from a join, no script puts anybody into a huddle. */
  lemma OnlyJoinSeats(s: State, op: Op, h: Ulid)
    requires Valid(s) && !op.DoJoin?
    ensures Occupants(Apply(s, op), h) <= Occupants(s, h)
  {
    match op
    case DoSweep(_, order) => VacateAllKeepsValid(s, order);
    case DoClear(_, order) => VacateAllKeepsValid(s, order);
    case _ =>
  }

  lemma ApplyKeepsLimit(s: State, op: Op, limit: int)
    requires Valid(s) && WithinLimit(s, limit) && (op.DoJoin? ==> op.limit == limit)
    ensures WithinLimit(Apply(s, op), limit)
  {
    if op.DoJoin? {
      JoinKeepsLimit(s, op.p, op.deadline, limit, op.status);
    } else {
      forall h ensures Occupants(Apply(s, op), h) <= Occupants(s, h) {
        OnlyJoinSeats(s, op, h);
      }
      FewerOccupants(s, Apply(s, op), limit);
    }
  }

  /** If every join applies the limit, no run ever puts more than that many people into one huddle. */
  lemma {:induction false} NeverOverLimit(ops: seq<Op>, limit: nat, huddle: Ulid)
    requires LegalRun(EMPTY, ops)
    requires forall i :: 0 <= i < |ops| ==> ops[i].DoJoin? ==> ops[i].limit == limit
    ensures |Occupants(Run(EMPTY, ops), huddle)| <= limit
    ensures WithinLimit(Run(EMPTY, ops), limit)
    decreases |ops|
  {
    if ops == [] {
      assert forall h :: Occupants(EMPTY, h) == {};
    } else {
      var n := |ops| - 1;
      LegalPrefix(EMPTY, ops);
      NeverOverLimit(ops[..n], limit, huddle);
      RunKeepsValid(EMPTY, ops[..n]);
      ApplyKeepsLimit(Run(EMPTY, ops[..n]), ops[n], limit);
    }
  }

  /** Coming back to the same huddle from another device is refused only if the huddle is over its limit already. */
  lemma RejoinRefusedOnlyOverLimit(s: State, p: Participant, deadline: int, limit: int, status: Status)
    requires p.user in Occupants(s, p.huddle)
    ensures Join(s, p, deadline, limit, status).1 == Full <==> |Occupants(s, p.huddle)| > limit
  {
    SplitSize(Occupants(s, p.huddle), {p.user});
  }

  /** In every run whose joins apply one limit, whoever is in a huddle can come back to it from another device. */
  lemma RejoinIsAdmitted(ops: seq<Op>, limit: nat, p: Participant, deadline: int, status: Status)
    requires LegalRun(EMPTY, ops)
    requires forall i :: 0 <= i < |ops| ==> ops[i].DoJoin? ==> ops[i].limit == limit
    requires p.user in Occupants(Run(EMPTY, ops), p.huddle)
    ensures var joined := Join(Run(EMPTY, ops), p, deadline, limit, status);
            !joined.1.Full? && joined.0.seats[p.user].who == p
  {
    NeverOverLimit(ops, limit, p.huddle);
    RejoinRefusedOnlyOverLimit(Run(EMPTY, ops), p, deadline, limit, status);
    JoinSeats(Run(EMPTY, ops), p, deadline, limit, status);
  }

  // ---- screen sharing ----

  ghost predicate SharersWithin(s: State, limit: int) {
    forall h :: |Sharers(s, h)| <= limit
  }

  lemma FewerSharers(s: State, t: State, limit: int)
    requires SharersWithin(s, limit)
    requires forall h :: Sharers(t, h) <= Sharers(s, h)
    ensures SharersWithin(t, limit)
  {
    forall h ensures |Sharers(t, h)| <= limit {
      SubsetSize(Sharers(t, h), Sharers(s, h));
    }
  }

  lemma SetTrackKeepsSharers(s: State, huddle: Ulid, id: Ulid, kind: TrackKind, mid: string, limit: int)
    requires Valid(s) && SharersWithin(s, limit)
    ensures SharersWithin(SetTrack(s, huddle, id, kind, mid, limit).0, limit)
  {
    var t := SetTrack(s, huddle, id, kind, mid, limit).0;
    if t == s { return; }
    var u :| u in Holders(s, huddle, id) && t == Rewrite(s, u, WithMid(s.seats[u].who, kind, mid));
    TheHolder(s, huddle, id, u);
    var shares := kind == Screen && mid != "" && s.seats[u].who.screen == "";
    assert shares ==> |Sharers(s, huddle)| < limit;
    forall h ensures |Sharers(t, h)| <= limit {
      RewriteSharers(s, u, WithMid(s.seats[u].who, kind, mid), h);
      if !(h == huddle && shares) { SubsetSize(Sharers(t, h), Sharers(s, h)); }
    }
  }

  /** Rewriting a record changes at most whether its user shares. */
  lemma RewriteSharers(s: State, u: Ulid, who: Participant, h: Ulid)
    requires u in s.seats && who.huddle == s.seats[u].who.huddle
    ensures Sharers(Rewrite(s, u, who), h) == if h == who.huddle && who.screen != "" then Sharers(s, h) + {u} else Sharers(s, h) - {u}
    ensures s.seats[u].who.screen != "" && h == s.seats[u].who.huddle ==> u in Sharers(s, h)
  {
  }

  /** Apart from a track script, nothing makes anybody share, if people join without a screen. */
  lemma OnlyTracksShare(s: State, op: Op, h: Ulid)
    requires Valid(s) && !op.DoSetTrack? && (op.DoJoin? ==> op.p.screen == "")
    ensures Sharers(Apply(s, op), h) <= Sharers(s, h)
  {
    match op
    case DoSweep(_, order) => VacateAllKeepsValid(s, order);
    case DoClear(_, order) => VacateAllKeepsValid(s, order);
    case _ =>
  }

  lemma ApplyKeepsSharers(s: State, op: Op, limit: int)
    requires Valid(s) && SharersWithin(s, limit)
    requires op.DoSetTrack? ==> op.limit == limit
    requires op.DoJoin? ==> op.p.screen == ""
    ensures SharersWithin(Apply(s, op), limit)
  {
    if op.DoSetTrack? {
      SetTrackKeepsSharers(s, op.huddle, op.id, op.kind, op.mid, limit);
    } else {
      forall h ensures Sharers(Apply(s, op), h) <= Sharers(s, h) {
        OnlyTracksShare(s, op, h);
      }
      FewerSharers(s, Apply(s, op), limit);
    }
  }

  /** No run ever lets more than `limit` people of one huddle share a screen, however the requests interleave. */
  lemma {:induction false} NeverTooManyScreens(ops: seq<Op>, limit: nat, huddle: Ulid)
    requires LegalRun(EMPTY, ops)
    requires forall i :: 0 <= i < |ops| ==> (ops[i].DoSetTrack? ==> ops[i].limit == limit) && (ops[i].DoJoin? ==> ops[i].p.screen == "")
    ensures |Sharers(Run(EMPTY, ops), huddle)| <= limit
    ensures SharersWithin(Run(EMPTY, ops), limit)
    decreases |ops|
  {
    if ops == [] {
      assert forall h :: Sharers(EMPTY, h) == {};
    } else {
      var n := |ops| - 1;
      LegalPrefix(EMPTY, ops);
      NeverTooManyScreens(ops[..n], limit, huddle);
      RunKeepsValid(EMPTY, ops[..n]);
      ApplyKeepsSharers(Run(EMPTY, ops[..n]), ops[n], limit);
    }
  }

  // ---- versions ----

  /** The version never goes back, and a changed roster has a larger one. */
  ghost predicate Newer(s: State, t: State, huddle: Ulid) {
    && Version(s, huddle) <= Version(t, huddle)
    && (Version(s, huddle) == Version(t, huddle) ==> SameRoster(s, t, huddle))
  }

  lemma VacateIsNewer(s: State, user: Ulid, huddle: Ulid)
    requires user in s.seats
    ensures Newer(s, Vacate(s, user), huddle)
  {
    var t := Vacate(s, user);
    if s.seats[user].who.huddle != huddle { assert SameRoster(s, t, huddle); }
  }

  lemma {:induction false} VacateAllIsNewer(s: State, users: seq<Ulid>, huddle: Ulid)
    ensures Newer(s, VacateAll(s, users), huddle)
    decreases |users|
  {
    if users != [] {
      if users[0] in s.seats { VacateIsNewer(s, users[0], huddle); }
      VacateAllIsNewer(if users[0] in s.seats then Vacate(s, users[0]) else s, users[1..], huddle);
    }
  }

  lemma JoinIsNewer(s: State, p: Participant, deadline: int, limit: int, status: Status, huddle: Ulid)
    ensures Newer(s, Join(s, p, deadline, limit, status).0, huddle)
  {
    var t := Join(s, p, deadline, limit, status).0;
    if t != s && huddle != p.huddle && !(p.user in s.seats && s.seats[p.user].who.huddle == huddle) {
      assert SameRoster(s, t, huddle);
    }
  }

  lemma ApplyIsNewer(s: State, op: Op, huddle: Ulid)
    requires Legal(s, op) && !(op.DoClear? && op.huddle == huddle)
    ensures Newer(s, Apply(s, op), huddle)
  {
    var t := Apply(s, op);
    match op
    case DoSweep(_, order) => VacateAllIsNewer(s, order, huddle);
    case DoClear(other, order) =>
      VacateAllIsNewer(s, order, huddle);
      assert SameRoster(VacateAll(s, order), t, huddle);
    case DoJoin(p, deadline, limit, status) => JoinIsNewer(s, p, deadline, limit, status, huddle);
    case DoRemove(h, id) =>
      if t != s {
        var u :| u in Holders(s, h, id) && t == Vacate(s, u);
        VacateIsNewer(s, u, huddle);
      }
    case _ =>
      if Version(s, huddle) == Version(t, huddle) { assert SameRoster(s, t, huddle); }
  }

  /** Between two clears of a huddle, equal versions mean equal members, so a client may drop any older state. */
  lemma {:induction false} EqualVersionsEqualMembers(s: State, ops: seq<Op>, huddle: Ulid)
    requires LegalRun(s, ops)
    requires forall i :: 0 <= i < |ops| ==> !(ops[i].DoClear? && ops[i].huddle == huddle)
    ensures Version(s, huddle) <= Version(Run(s, ops), huddle)
    ensures Version(s, huddle) == Version(Run(s, ops), huddle) ==> SameRoster(s, Run(s, ops), huddle)
    decreases |ops|
  {
    if ops != [] {
      var n := |ops| - 1;
      LegalPrefix(s, ops);
      EqualVersionsEqualMembers(s, ops[..n], huddle);
      ApplyIsNewer(Run(s, ops[..n]), ops[n], huddle);
    }
  }

  /** Writing the mid that is already there changes nothing at all, not even the version. */
  lemma RepeatedTrackIsNoOp(s: State, huddle: Ulid, id: Ulid, kind: TrackKind, mid: string, limit: int)
    requires Valid(s)
    ensures var once := SetTrack(s, huddle, id, kind, mid, limit);
            once.1.Stored? ==> SetTrack(once.0, huddle, id, kind, mid, limit) == (once.0, Stored(Version(once.0, huddle), mid))
  {
    var once := SetTrack(s, huddle, id, kind, mid, limit);
    if once.1.Stored? {
      var u :| u in Holders(s, huddle, id);
      TheHolder(s, huddle, id, u);
      assert Holders(once.0, huddle, id) == {u};
    }
  }
}
