/** What the scripts do for the people who stay: how long a seat lasts, what its record shows, who is about to come, and what a
    join answers. Stated over runs, in terms of what a reader of the store sees. */
module HuddleUpkeep {
  import opened Common
  import opened HuddleModel
  import opened HuddleRuns

  ghost predicate SitsOn(s: State, user: Ulid, huddle: Ulid, id: Ulid) {
    user in s.seats && s.seats[user].who.huddle == huddle && s.seats[user].who.id == id
  }

  /** Somebody else may leave, and the user's seat stays exactly as it is. */
  lemma OthersLeaveAlone(s: State, users: seq<Ulid>, user: Ulid)
    requires Valid(s) && user in s.seats && user !in users
    ensures user in VacateAll(s, users).seats && VacateAll(s, users).seats[user] == s.seats[user]
  {
    VacateAllKeepsValid(s, users);
  }

  // ---- how long a seat lasts ----

  /** The step neither takes the seat nor moves its deadline: no remove or clear of it, no admitted join of the user, no heartbeat of
      the seat, and no sweep from the deadline on. */
  ghost predicate Spares(s: State, op: Op, user: Ulid, huddle: Ulid, id: Ulid, deadline: int) {
    match op
    case DoJoin(p, _, limit, _) => p.user != user || |Occupants(s, p.huddle) - {user}| >= limit
    case DoRemove(h, i) => !(h == huddle && i == id)
    case DoSweep(now, _) => now < deadline
    case DoClear(h, _) => h != huddle
    case DoHeartbeat(u, h, i, _) => !(u == user && h == huddle && i == id)
    case _ => true
  }

  /** Every step of the run does. */
  ghost predicate AllSpare(s: State, ops: seq<Op>, user: Ulid, huddle: Ulid, id: Ulid, deadline: int)
    decreases |ops|
  {
    ops == []
    || (AllSpare(s, ops[..|ops| - 1], user, huddle, id, deadline)
        && Spares(Run(s, ops[..|ops| - 1]), ops[|ops| - 1], user, huddle, id, deadline))
  }

  ghost predicate HoldsUntil(s: State, user: Ulid, huddle: Ulid, id: Ulid, deadline: int) {
    SitsOn(s, user, huddle, id) && s.seats[user].deadline == deadline
  }

  lemma SparedStays(s: State, op: Op, user: Ulid, huddle: Ulid, id: Ulid, deadline: int)
    requires Valid(s) && Legal(s, op) && HoldsUntil(s, user, huddle, id, deadline) && Spares(s, op, user, huddle, id, deadline)
    ensures HoldsUntil(Apply(s, op), user, huddle, id, deadline)
  {
    match op
    case DoJoin(p, d, limit, status) =>
      if |Occupants(s, p.huddle) - {p.user}| < limit { JoinSeats(s, p, d, limit, status); }
    case DoSweep(_, order) => OthersLeaveAlone(s, order, user);
    case DoClear(h, order) =>
      assert user !in Occupants(s, h);
      assert user !in Elements(order);
      OthersLeaveAlone(s, order, user);
    case _ =>
  }

  /** A seat stays with its deadline through every run that spares it. */
  lemma {:induction false} SeatLasts(s: State, ops: seq<Op>, user: Ulid, huddle: Ulid, id: Ulid, deadline: int)
    requires Valid(s) && LegalRun(s, ops) && HoldsUntil(s, user, huddle, id, deadline)
    requires AllSpare(s, ops, user, huddle, id, deadline)
    ensures HoldsUntil(Run(s, ops), user, huddle, id, deadline)
    decreases |ops|
  {
    if ops != [] {
      var n := |ops| - 1;
      LegalPrefix(s, ops);
      SeatLasts(s, ops[..n], user, huddle, id, deadline);
      RunKeepsValid(s, ops[..n]);
      SparedStays(Run(s, ops[..n]), ops[n], user, huddle, id, deadline);
    }
  }

  /** A sweep may take a seat exactly from its deadline on. */
  ghost predicate Sweepable(s: State, user: Ulid, now: int) {
    Legal(s, DoSweep(now, [user]))
  }

  /** A heartbeat is accepted exactly from the user's current seat. From then on no sweep before its deadline takes the seat, however
      many of them run and whatever else happens that does not concern the seat; at the deadline a sweep may. */
  lemma HeartbeatKeepsTheSeat(s: State, user: Ulid, huddle: Ulid, id: Ulid, deadline: int, ops: seq<Op>)
    requires Valid(s)
    ensures Heartbeat(s, user, huddle, id, deadline).1 <==> SitsOn(s, user, huddle, id)
    ensures !SitsOn(s, user, huddle, id) ==> Apply(s, DoHeartbeat(user, huddle, id, deadline)) == s
    ensures var beaten := Apply(s, DoHeartbeat(user, huddle, id, deadline));
            SitsOn(s, user, huddle, id) && LegalRun(beaten, ops) && AllSpare(beaten, ops, user, huddle, id, deadline) ==>
              && SitsOn(Run(beaten, ops), user, huddle, id)
              && forall now :: Sweepable(Run(beaten, ops), user, now) <==> deadline <= now
  {
    var beaten := Apply(s, DoHeartbeat(user, huddle, id, deadline));
    ApplyKeepsValid(s, DoHeartbeat(user, huddle, id, deadline));
    if SitsOn(s, user, huddle, id) && LegalRun(beaten, ops) && AllSpare(beaten, ops, user, huddle, id, deadline) {
      SeatLasts(beaten, ops, user, huddle, id, deadline);
    }
  }

  /** The same holds from the join on, for the deadline it came with. */
  lemma JoinKeepsTheSeat(s: State, p: Participant, deadline: int, limit: int, status: Status, ops: seq<Op>)
    requires Valid(s) && NewSeat(s, p) && |Occupants(s, p.huddle) - {p.user}| < limit
    requires var joined := Apply(s, DoJoin(p, deadline, limit, status));
             LegalRun(joined, ops) && AllSpare(joined, ops, p.user, p.huddle, p.id, deadline)
    ensures var t := Run(Apply(s, DoJoin(p, deadline, limit, status)), ops);
            SitsOn(t, p.user, p.huddle, p.id) && forall now :: Sweepable(t, p.user, now) <==> deadline <= now
  {
    JoinSeats(s, p, deadline, limit, status);
    ApplyKeepsValid(s, DoJoin(p, deadline, limit, status));
    SeatLasts(Apply(s, DoJoin(p, deadline, limit, status)), ops, p.user, p.huddle, p.id, deadline);
  }

  // ---- what a record shows ----

  /** Everything else is as before: every other seat, and of this one all but the record. */
  ghost predicate OnlyRecordOf(s: State, t: State, user: Ulid)
    requires user in s.seats
  {
    && t.seats.Keys == s.seats.Keys && t.log == s.log && t.soon == s.soon
    && (forall v :: v in s.seats && v != user ==> t.seats[v] == s.seats[v])
    && t.seats[user] == s.seats[user].(who := t.seats[user].who)
  }

  /** Muting is answered exactly for a participation somebody holds, and then the holder's record shows what was asked for. */
  lemma MutedShows(s: State, user: Ulid, huddle: Ulid, id: Ulid, muted: bool)
    requires Valid(s)
    ensures (forall v :: !SitsOn(s, v, huddle, id)) ==> SetMuted(s, huddle, id, muted) == (s, None)
    ensures SitsOn(s, user, huddle, id) ==>
              var (t, v) := SetMuted(s, huddle, id, muted);
              && OnlyRecordOf(s, t, user) && t.seats[user].who == s.seats[user].who.(muted := muted)
              && v == Some(Version(t, huddle)) && Version(t, huddle) == Version(s, huddle) + 1
  {
    if SitsOn(s, user, huddle, id) {
      TheHolder(s, huddle, id, user);
      MutedOf(s, huddle, id, user, muted);
    } else if u :| u in Holders(s, huddle, id) {
      assert SitsOn(s, u, huddle, id);
    }
  }

  /** A camera shows as the camera and a screen as the screen. */
  function Shown(who: Participant, kind: TrackKind): string {
    match kind
    case Camera => who.camera
    case Screen => who.screen
  }

  /** Nobody's track is gone; a first screen over the limit is refused and changes nothing; any other track shows afterwards, the
      other kind as before, and the answer tells what it replaced. */
  lemma TrackShows(s: State, user: Ulid, huddle: Ulid, id: Ulid, kind: TrackKind, mid: string, limit: int)
    requires Valid(s)
    ensures (forall v :: !SitsOn(s, v, huddle, id)) ==> SetTrack(s, huddle, id, kind, mid, limit) == (s, Gone)
    ensures SitsOn(s, user, huddle, id) ==>
              var (t, r) := SetTrack(s, huddle, id, kind, mid, limit);
              var who := s.seats[user].who;
              if kind == Screen && who.screen == "" && mid != "" && |Sharers(s, huddle)| >= limit then t == s && r == ShareFull
              else
                && r == Stored(Version(t, huddle), Shown(who, kind))
                && OnlyRecordOf(s, t, user) && Shown(t.seats[user].who, kind) == mid
                && t.seats[user].who == who.(camera := t.seats[user].who.camera, screen := t.seats[user].who.screen)
                && (kind == Camera ==> t.seats[user].who.screen == who.screen)
                && (kind == Screen ==> t.seats[user].who.camera == who.camera)
  {
    if SitsOn(s, user, huddle, id) {
      TheHolder(s, huddle, id, user);
      TrackOf(s, huddle, id, user, kind, mid, limit);
    } else if u :| u in Holders(s, huddle, id) {
      assert SitsOn(s, u, huddle, id);
    }
  }

  ghost predicate Mutes(op: Op, huddle: Ulid, id: Ulid) {
    op.DoSetMuted? && op.huddle == huddle && op.id == id
  }

  ghost predicate Tracks(op: Op, huddle: Ulid, id: Ulid, kind: TrackKind) {
    op.DoSetTrack? && op.huddle == huddle && op.id == id && op.kind == kind
  }

  ghost predicate Takes(op: Op, user: Ulid, huddle: Ulid, id: Ulid) {
    op.DoJoin? && op.p.user == user && op.p.huddle == huddle && op.p.id == id
  }

  /** What one step may change of the record of somebody who sits on a participation afterwards. */
  ghost predicate SameBut(a: Participant, b: Participant, muted: bool, camera: bool, screen: bool) {
    && b == a.(muted := b.muted, camera := b.camera, screen := b.screen)
    && (muted || b.muted == a.muted) && (camera || b.camera == a.camera) && (screen || b.screen == a.screen)
  }

  lemma RecordAfterMuting(s: State, h: Ulid, i: Ulid, muted: bool, user: Ulid)
    requires Valid(s) && user in SetMuted(s, h, i, muted).0.seats
    ensures user in s.seats && SameBut(s.seats[user].who, SetMuted(s, h, i, muted).0.seats[user].who, SitsOn(s, user, h, i), false, false)
  {
    if !SitsOn(s, user, h, i) {
      if u :| SitsOn(s, u, h, i) { MutedShows(s, u, h, i, muted); }
    }
    MutedShows(s, user, h, i, muted);
  }

  lemma RecordAfterTrack(s: State, h: Ulid, i: Ulid, kind: TrackKind, mid: string, limit: int, user: Ulid)
    requires Valid(s) && user in SetTrack(s, h, i, kind, mid, limit).0.seats
    ensures user in s.seats && SameBut(s.seats[user].who, SetTrack(s, h, i, kind, mid, limit).0.seats[user].who, false,
                                       SitsOn(s, user, h, i) && kind == Camera, SitsOn(s, user, h, i) && kind == Screen)
  {
    if !SitsOn(s, user, h, i) {
      if u :| SitsOn(s, u, h, i) { TrackShows(s, u, h, i, kind, mid, limit); }
    }
    TrackShows(s, user, h, i, kind, mid, limit);
  }

  lemma RecordAfterMoves(s: State, op: Op, user: Ulid, huddle: Ulid, id: Ulid)
    requires Valid(s) && Legal(s, op) && !Takes(op, user, huddle, id) && SitsOn(Apply(s, op), user, huddle, id)
    requires op.DoJoin? || op.DoRemove? || op.DoSweep? || op.DoClear?
    ensures SitsOn(s, user, huddle, id) && Apply(s, op).seats[user].who == s.seats[user].who
  {
    match op
    case DoJoin(p, d, limit, status) =>
      if |Occupants(s, p.huddle) - {p.user}| < limit { JoinSeats(s, p, d, limit, status); }
    case DoRemove(h, i) =>
      if Holders(s, h, i) != {} { var u :| u in Holders(s, h, i) && Apply(s, op) == Vacate(s, u); }
    case DoSweep(_, order) => VacateAllKeepsValid(s, order);
    case DoClear(_, order) => VacateAllKeepsValid(s, order);
  }

  lemma RecordAfter(s: State, op: Op, user: Ulid, huddle: Ulid, id: Ulid)
    requires Valid(s) && Legal(s, op) && !Takes(op, user, huddle, id) && SitsOn(Apply(s, op), user, huddle, id)
    ensures SitsOn(s, user, huddle, id)
    ensures SameBut(s.seats[user].who, Apply(s, op).seats[user].who,
                    Mutes(op, huddle, id), Tracks(op, huddle, id, Camera), Tracks(op, huddle, id, Screen))
  {
    match op
    case DoSetMuted(h, i, muted) => RecordAfterMuting(s, h, i, muted, user);
    case DoSetTrack(h, i, kind, mid, limit) => RecordAfterTrack(s, h, i, kind, mid, limit, user);
    case DoHeartbeat(_, _, _, _) =>
    case DoJoiningSoon(_, _, _, _) =>
    case _ => RecordAfterMoves(s, op, user, huddle, id);
  }

  ghost predicate NeverTakes(ops: seq<Op>, user: Ulid, huddle: Ulid, id: Ulid) {
    forall k :: 0 <= k < |ops| ==> !Takes(ops[k], user, huddle, id)
  }

  ghost predicate AnyMutes(ops: seq<Op>, huddle: Ulid, id: Ulid) {
    exists k :: 0 <= k < |ops| && Mutes(ops[k], huddle, id)
  }

  ghost predicate AnyTracks(ops: seq<Op>, huddle: Ulid, id: Ulid, kind: TrackKind) {
    exists k :: 0 <= k < |ops| && Tracks(ops[k], huddle, id, kind)
  }

  /** Whoever still sits on a participation shows there what the last request of each kind asked for: through any run a record keeps
      its mute flag until the next one for it, its camera and its screen until the next track of that kind, and the rest for good. */
  lemma {:induction false} RecordsKeep(s: State, ops: seq<Op>, user: Ulid, huddle: Ulid, id: Ulid)
    requires Valid(s) && LegalRun(s, ops) && NeverTakes(ops, user, huddle, id) && SitsOn(Run(s, ops), user, huddle, id)
    ensures SitsOn(s, user, huddle, id)
    ensures SameBut(s.seats[user].who, Run(s, ops).seats[user].who,
                    AnyMutes(ops, huddle, id), AnyTracks(ops, huddle, id, Camera), AnyTracks(ops, huddle, id, Screen))
    decreases |ops|
  {
    if ops != [] {
      var n := |ops| - 1;
      var front := ops[..n];
      LegalPrefix(s, ops);
      RunKeepsValid(s, front);
      RecordAfter(Run(s, front), ops[n], user, huddle, id);
      RecordsKeep(s, front, user, huddle, id);
      AnyMore(ops, huddle, id);
    }
  }

  lemma AnyMore(ops: seq<Op>, huddle: Ulid, id: Ulid)
    requires ops != []
    ensures var front, last := ops[..|ops| - 1], ops[|ops| - 1];
            && (AnyMutes(ops, huddle, id) <==> AnyMutes(front, huddle, id) || Mutes(last, huddle, id))
            && forall kind :: AnyTracks(ops, huddle, id, kind) <==> AnyTracks(front, huddle, id, kind) || Tracks(last, huddle, id, kind)
  {
    var n := |ops| - 1;
    var front := ops[..n];
    forall k | 0 <= k < n ensures front[k] == ops[k] {}
    if k :| 0 <= k < |ops| && Mutes(ops[k], huddle, id) {
      if k < n { assert Mutes(front[k], huddle, id); }
    }
    forall kind ensures AnyTracks(ops, huddle, id, kind) <==> AnyTracks(front, huddle, id, kind) || Tracks(ops[n], huddle, id, kind) {
      if k :| 0 <= k < |ops| && Tracks(ops[k], huddle, id, kind) {
        if k < n { assert Tracks(front[k], huddle, id, kind); }
      }
    }
  }

  // ---- who is about to come ----

  /** A reader at time `t` sees the user among those about to join: the note is there and lapses later. */
  ghost predicate Pending(s: State, huddle: Ulid, user: Ulid, t: int) {
    user in Row(s.soon, huddle) && Row(s.soon, huddle)[user] > t
  }

  /** What a step makes of that: the last word is a note that lapses after `t`, unless the user has joined or the huddle was cleared. */
  ghost predicate SaidNow(before: bool, s: State, op: Op, huddle: Ulid, user: Ulid, t: int) {
    match op
    case DoJoiningSoon(h, u, until, _) => if h == huddle && u == user then until > t else before
    case DoJoin(p, _, limit, _) => before && !(p.huddle == huddle && p.user == user && |Occupants(s, huddle) - {user}| < limit)
    case DoClear(h, _) => before && h != huddle
    case _ => before
  }

  ghost predicate Said(s: State, ops: seq<Op>, huddle: Ulid, user: Ulid, t: int)
    decreases |ops|
  {
    if ops == [] then Pending(s, huddle, user, t)
    else
      var front := ops[..|ops| - 1];
      SaidNow(Said(s, front, huddle, user, t), Run(s, front), ops[|ops| - 1], huddle, user, t)
  }

  /** The clock has not passed `t` yet. */
  ghost predicate Before(op: Op, t: int) {
    op.DoJoiningSoon? ==> op.now <= t
  }

  lemma JoinTakesTheNote(s: State, p: Participant, deadline: int, limit: int, status: Status)
    requires |Occupants(s, p.huddle) - {p.user}| < limit
    ensures forall h, v, t :: Pending(Join(s, p, deadline, limit, status).0, h, v, t) <==>
              Pending(s, h, v, t) && !(h == p.huddle && v == p.user)
  {
    var n := Join(s, p, deadline, limit, status).0;
    assert n.soon == DropField(s.soon, p.huddle, p.user);
    assert forall h :: Row(n.soon, h) == if h == p.huddle then Row(s.soon, h) - {p.user} else Row(s.soon, h);
  }

  lemma NotesAfter(s: State, op: Op, huddle: Ulid, user: Ulid, t: int)
    requires Valid(s) && Before(op, t)
    ensures Pending(Apply(s, op), huddle, user, t) <==> SaidNow(Pending(s, huddle, user, t), s, op, huddle, user, t)
  {
    match op
    case DoJoin(p, deadline, limit, status) =>
      if |Occupants(s, p.huddle) - {p.user}| < limit { JoinTakesTheNote(s, p, deadline, limit, status); }
    case DoSweep(_, order) => VacateAllKeepsValid(s, order);
    case DoClear(_, order) => VacateAllKeepsValid(s, order);
    case _ =>
  }

  /** In every run a reader sees exactly the people whose last note has not lapsed and who have not joined since. Lapsed notes that a
      later script throws away are never missed. */
  lemma {:induction false} PendingIff(s: State, ops: seq<Op>, huddle: Ulid, user: Ulid, t: int)
    requires Valid(s) && LegalRun(s, ops) && forall k :: 0 <= k < |ops| ==> Before(ops[k], t)
    ensures Pending(Run(s, ops), huddle, user, t) <==> Said(s, ops, huddle, user, t)
    decreases |ops|
  {
    if ops != [] {
      var n := |ops| - 1;
      LegalPrefix(s, ops);
      PendingIff(s, ops[..n], huddle, user, t);
      RunKeepsValid(s, ops[..n]);
      NotesAfter(Run(s, ops[..n]), ops[n], huddle, user, t);
    }
  }

  /** Right after a note no lapsed one is left. */
  lemma LapsedNotesGo(s: State, huddle: Ulid, user: Ulid, until: int, now: int)
    ensures forall v :: v in Row(JoiningSoon(s, huddle, user, until, now).soon, huddle) ==>
              Pending(JoiningSoon(s, huddle, user, until, now), huddle, v, now)
  {
  }

  // ---- a huddle that is over ----

  /** A clear takes everybody out of the huddle and forgets its version and notes; other huddles keep their people, version and notes. */
  lemma ClearForgets(s: State, huddle: Ulid, order: seq<Ulid>, other: Ulid)
    requires Valid(s) && Legal(s, DoClear(huddle, order))
    ensures var t := Apply(s, DoClear(huddle, order));
            && Occupants(t, huddle) == {} && Version(t, huddle) == 0 && Row(t.soon, huddle) == map[]
            && (other != huddle ==>
                  SameRoster(s, t, other) && Version(t, other) == Version(s, other) && Row(t.soon, other) == Row(s.soon, other))
  {
    VacateAllKeepsValid(s, order);
    ClearKeepsValid(s, huddle, order);
    if other != huddle {
      assert forall u :: u in order ==> u in Elements(order);
      VersionsElsewhere(s, order, huddle, other);
    }
  }

  lemma {:induction false} VersionsElsewhere(s: State, users: seq<Ulid>, huddle: Ulid, other: Ulid)
    requires other != huddle && forall u :: u in users && u in s.seats ==> s.seats[u].who.huddle == huddle
    ensures Version(VacateAll(s, users), other) == Version(s, other)
    decreases |users|
  {
    if users != [] {
      var next := if users[0] in s.seats then Vacate(s, users[0]) else s;
      VersionsElsewhere(next, users[1..], huddle, other);
    }
  }

  // ---- what a join answers ----

  /** A join is refused exactly if the huddle is full without the user, and then changes nothing. Otherwise it answers the version now
      stored and, if the user sat somewhere, that seat's record with the version its huddle had once the seat was free. */
  lemma JoinAnswers(s: State, p: Participant, deadline: int, limit: int, status: Status)
    ensures var (t, r) := Join(s, p, deadline, limit, status);
            && (r.Full? <==> |Occupants(s, p.huddle) - {p.user}| >= limit)
            && (r.Full? ==> t == s)
            && (r.Joined? ==>
                  && r.version == Version(t, p.huddle)
                  && (r.evicted.Some? <==> p.user in s.seats)
                  && (p.user in s.seats ==>
                        var left := Vacate(s, p.user);
                        && r.evicted.value.who == s.seats[p.user].who
                        && r.evicted.value.version == Version(left, s.seats[p.user].who.huddle)
                        && (s.seats[p.user].who.huddle == p.huddle ==> r.version == r.evicted.value.version + 1)))
  {
  }
}
