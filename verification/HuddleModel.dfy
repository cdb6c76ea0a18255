/** Who sits in which huddle, as one map from user to seat.

    The Redis structures of internal/chat/huddle/huddle.go are projections of this map (module HuddleStore proves it).
    Here each Lua script is one transition of the map, and the theorems range over every run of scripts. */
module HuddleModel {
  import opened Common

  /** The body of a member.huddle_changed message; the empty body is never published. */
  datatype Payload = Silent | HuddleChanged(workspace: Ulid, user: Ulid, inHuddle: bool)

  datatype Published = Published(channel: Channel, payload: Payload)

  datatype Participant = Participant(id: Ulid, huddle: Ulid, user: Ulid, session: Ulid,
                                     camera: string, screen: string, muted: bool, joinedAt: int)

  /** What a join hands to the store: where the in-huddle mark goes and what to publish when it comes and goes. */
  datatype Status = Status(workspace: Ulid, channels: seq<Channel>, joined: Payload, left: Payload)

  datatype Seat = Seat(who: Participant, deadline: int, workspace: Ulid, channels: seq<Channel>, left: Payload)

  datatype State = State(seats: map<Ulid, Seat>, versions: map<Ulid, nat>,
                         soon: map<Ulid, map<Ulid, int>>, log: seq<Published>)

  datatype Removed = Removed(who: Participant, version: nat)

  datatype JoinResult = Full | Joined(version: nat, evicted: Option<Removed>)

  datatype TrackKind = Camera | Screen

  datatype TrackResult = Gone | ShareFull | Stored(version: nat, previous: string)

  const EMPTY := State(map[], map[], map[], [])

  // ---- reading the map ----

  function SeatOf(s: State, user: Ulid): Option<Seat> {
    if user in s.seats then Some(s.seats[user]) else None
  }

  function Occupants(s: State, huddle: Ulid): set<Ulid> {
    set u | u in s.seats && s.seats[u].who.huddle == huddle
  }

  /** The same people sit in a huddle in both states, each with the same record. */
  ghost predicate SameRoster(s: State, t: State, huddle: Ulid) {
    && Occupants(s, huddle) == Occupants(t, huddle)
    && forall u :: u in Occupants(s, huddle) ==> s.seats[u].who == t.seats[u].who
  }

  function Sharers(s: State, huddle: Ulid): set<Ulid> {
    set u | u in s.seats && s.seats[u].who.huddle == huddle && s.seats[u].who.screen != ""
  }

  function Version(s: State, huddle: Ulid): nat {
    VersionIn(s.versions, huddle)
  }

  function VersionIn(versions: map<Ulid, nat>, huddle: Ulid): nat {
    if huddle in versions then versions[huddle] else 0
  }

  predicate InWorkspace(s: State, workspace: Ulid, user: Ulid) {
    user in s.seats && s.seats[user].workspace == workspace
  }

  /** The user sitting on a given participation; at most one by Valid. */
  function Holders(s: State, huddle: Ulid, id: Ulid): set<Ulid> {
    set u | u in s.seats && s.seats[u].who.huddle == huddle && s.seats[u].who.id == id
  }

  // ---- pieces of the transitions ----

  function Bump(versions: map<Ulid, nat>, huddle: Ulid): map<Ulid, nat> {
    versions[huddle := VersionIn(versions, huddle) + 1]
  }

  function PublishAll(channels: seq<Channel>, payload: Payload): seq<Published> {
    if payload == Silent then [] else seq(|channels|, i requires 0 <= i < |channels| => Published(channels[i], payload))
  }

  // ---- the scripts ----

  /** One participation goes: its mark goes too and is announced. */
  function Vacate(s: State, user: Ulid): State
    requires user in s.seats
  {
    var seat := s.seats[user];
    State(s.seats - {user}, Bump(s.versions, seat.who.huddle), s.soon, s.log + PublishAll(seat.channels, seat.left))
  }

  function VacateAll(s: State, users: seq<Ulid>): State
    decreases |users|
  {
    if users == [] then s
    else VacateAll(if users[0] in s.seats then Vacate(s, users[0]) else s, users[1..])
  }

  function Join(s: State, p: Participant, deadline: int, limit: int, status: Status): (State, JoinResult) {
    if |Occupants(s, p.huddle) - {p.user}| >= limit then (s, Full)
    else
      var prior := SeatOf(s, p.user);
      var freed := if prior.Some? then Bump(s.versions, prior.value.who.huddle) else s.versions;
      var stays := prior.Some? && prior.value.workspace == status.workspace;
      var went := if prior.Some? && !stays then PublishAll(prior.value.channels, prior.value.left) else [];
      var came := if stays then [] else PublishAll(status.channels, status.joined);
      var after := State(s.seats[p.user := Seat(p, deadline, status.workspace, status.channels, status.left)],
                         Bump(freed, p.huddle), DropField(s.soon, p.huddle, p.user), s.log + went + came);
      var evicted := if prior.Some?
                     then Some(Removed(prior.value.who, VersionIn(freed, prior.value.who.huddle)))
                     else None;
      (after, Joined(Version(after, p.huddle), evicted))
  }

  ghost function Remove(s: State, huddle: Ulid, id: Ulid): State {
    if Holders(s, huddle, id) == {} then s
    else var u :| u in Holders(s, huddle, id); Vacate(s, u)
  }

  /** Everybody in `order` leaves, then the huddle's version and announcements are dropped. */
  function Clear(s: State, huddle: Ulid, order: seq<Ulid>): State {
    var emptied := VacateAll(s, order);
    emptied.(versions := emptied.versions - {huddle}, soon := emptied.soon - {huddle})
  }

  function Heartbeat(s: State, user: Ulid, huddle: Ulid, id: Ulid, deadline: int): (State, bool) {
    if user in s.seats && s.seats[user].who.huddle == huddle && s.seats[user].who.id == id
    then (s.(seats := s.seats[user := s.seats[user].(deadline := deadline)]), true)
    else (s, false)
  }

  /** The participant record of a seated user is rewritten. */
  function Rewrite(s: State, user: Ulid, who: Participant): State
    requires user in s.seats
  {
    s.(seats := s.seats[user := s.seats[user].(who := who)], versions := Bump(s.versions, s.seats[user].who.huddle))
  }

  ghost function SetMuted(s: State, huddle: Ulid, id: Ulid, muted: bool): (State, Option<nat>) {
    if Holders(s, huddle, id) == {} then (s, None)
    else
      var u :| u in Holders(s, huddle, id);
      var after := Rewrite(s, u, s.seats[u].who.(muted := muted));
      (after, Some(Version(after, huddle)))
  }

  function Mid(who: Participant, kind: TrackKind): string {
    if kind == Camera then who.camera else who.screen
  }

  function WithMid(who: Participant, kind: TrackKind, mid: string): Participant {
    if kind == Camera then who.(camera := mid) else who.(screen := mid)
  }

  ghost function SetTrack(s: State, huddle: Ulid, id: Ulid, kind: TrackKind, mid: string, limit: int): (State, TrackResult) {
    if Holders(s, huddle, id) == {} then (s, Gone)
    else
      var u :| u in Holders(s, huddle, id);
      var who := s.seats[u].who;
      var previous := Mid(who, kind);
      if previous == mid then (s, Stored(Version(s, huddle), previous))
      else if kind == Screen && mid != "" && previous == "" && |Sharers(s, huddle)| >= limit then (s, ShareFull)
      else
        var after := Rewrite(s, u, WithMid(who, kind, mid));
        (after, Stored(Version(after, huddle), previous))
  }

  /** ZREMRANGEBYSCORE from minus infinity to `now`. */
  function After(row: map<Ulid, int>, now: int): map<Ulid, int> {
    row - set u | u in row && row[u] <= now
  }

  function JoiningSoon(s: State, huddle: Ulid, user: Ulid, until: int, now: int): State {
    var row := Row(s.soon, huddle)[user := until];
    var pending := After(row, now);
    s.(soon := if pending == map[] then s.soon - {huddle} else s.soon[huddle := pending],
       versions := Bump(s.versions, huddle))
  }

  // ---- runs ----

  datatype Op =
    | DoJoin(p: Participant, deadline: int, limit: int, status: Status)
    | DoRemove(huddle: Ulid, id: Ulid)
    | DoSweep(now: int, order: seq<Ulid>)
    | DoClear(huddle: Ulid, order: seq<Ulid>)
    | DoHeartbeat(user: Ulid, huddle: Ulid, id: Ulid, deadline: int)
    | DoSetMuted(huddle: Ulid, id: Ulid, muted: bool)
    | DoSetTrack(huddle: Ulid, id: Ulid, kind: TrackKind, mid: string, limit: int)
    | DoJoiningSoon(huddle: Ulid, user: Ulid, until: int, now: int)

  ghost function Apply(s: State, op: Op): State {
    match op
    case DoJoin(p, deadline, limit, status) => Join(s, p, deadline, limit, status).0
    case DoRemove(huddle, id) => Remove(s, huddle, id)
    case DoSweep(now, order) => VacateAll(s, order)
    case DoClear(huddle, order) => Clear(s, huddle, order)
    case DoHeartbeat(user, huddle, id, deadline) => Heartbeat(s, user, huddle, id, deadline).0
    case DoSetMuted(huddle, id, muted) => SetMuted(s, huddle, id, muted).0
    case DoSetTrack(huddle, id, kind, mid, limit) => SetTrack(s, huddle, id, kind, mid, limit).0
    case DoJoiningSoon(huddle, user, until, now) => JoiningSoon(s, huddle, user, until, now)
  }

  /** What the callers guarantee: a participation id is new, a sweep takes expired seats, a clear takes everybody. */
  ghost predicate Legal(s: State, op: Op) {
    match op
    case DoJoin(p, _, _, _) => NewSeat(s, p)
    case DoSweep(now, order) =>
      Distinct(order) && forall u :: u in order ==> u in s.seats && s.seats[u].deadline <= now
    case DoClear(huddle, order) => Distinct(order) && Elements(order) == Occupants(s, huddle)
    case _ => true
  }

  ghost predicate NewSeat(s: State, p: Participant) {
    forall v :: v in s.seats && v != p.user ==> !SameSeat(s.seats[v].who, p)
  }

  ghost function Run(s: State, ops: seq<Op>): State
    decreases |ops|
  {
    if ops == [] then s else Apply(Run(s, ops[..|ops| - 1]), ops[|ops| - 1])
  }

  ghost predicate LegalRun(s: State, ops: seq<Op>) {
    forall i :: 0 <= i < |ops| ==> Legal(Run(s, ops[..i]), ops[i])
  }

  predicate SameSeat(a: Participant, b: Participant) {
    a.huddle == b.huddle && a.id == b.id
  }

  ghost predicate Valid(s: State) {
    && (forall u :: u in s.seats ==> s.seats[u].who.user == u)
    && (forall u, v {:trigger SameSeat(s.seats[u].who, s.seats[v].who)} ::
          u in s.seats && v in s.seats && SameSeat(s.seats[u].who, s.seats[v].who) ==> u == v)
    && (forall u :: u in s.seats ==> Version(s, s.seats[u].who.huddle) >= 1)
  }
}
