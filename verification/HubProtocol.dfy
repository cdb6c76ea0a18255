/** Subscribing, registering and revalidating at the same time, with permissions changing underneath.

    Each region the Hub runs under its mutex is one step; between them other operations, the database and Redis move. An
    operation in flight keeps what it has read so far. Connections are named; a name is never used twice. */
module HubProtocol {
  import opened Common
  import opened HubModel
  import opened Runs

  datatype Op =
    | Authorizing(c: Ulid, user: Ulid, t: Topic, epoch: nat)
    | Authorized(c: Ulid, user: Ulid, t: Topic, epoch: nat, workspace: Ulid)
    | Acquiring(c: Ulid, user: Ulid, t: Topic, epoch: nat, workspace: Ulid)
    | Entering(c: Ulid, user: Ulid, session: Ulid)
    | Collected(user: Ulid, rooms: set<Ulid>, workspaces: set<Ulid>)
    | ReadRooms(user: Ulid, rooms: set<Ulid>, workspaces: set<Ulid>, allowedRooms: set<Ulid>)
    | ReadBoth(user: Ulid, rooms: set<Ulid>, workspaces: set<Ulid>, allowedRooms: set<Ulid>, allowedWorkspaces: set<Ulid>)

  /** `perms` is what the database allows, `home` the workspace of every room, `refs` what the Broker counts, `owed` the
      Release calls not made yet. */
  datatype State = State(conns: map<Ulid, Info>, used: set<Ulid>, epochs: map<Ulid, nat>, ops: map<Ulid, Op>,
                         perms: set<(Ulid, Topic)>, home: map<Ulid, Ulid>,
                         refs: multiset<Channel>, owed: multiset<Channel>, shuttingDown: bool)

  const INITIAL := State(map[], {}, map[], map[], {}, map[], multiset{}, multiset{}, false)

  datatype Step =
    | RegisterBegin(o: Ulid, c: Ulid, user: Ulid, session: Ulid)
    | RegisterEnd(o: Ulid)
    | Unregister(c: Ulid)
    | Unsubscribe(c: Ulid, t: Topic)
    | SubscribeBegin(o: Ulid, c: Ulid, t: Topic)
    | Authorize(o: Ulid)
    | Acquire(o: Ulid)
    | AcquireFail(o: Ulid)
    | SubscribeEnd(o: Ulid)
    | RevalidateBegin(o: Ulid, user: Ulid, scope: Option<Ulid>)
    | AllowRooms(o: Ulid)
    | AllowWorkspaces(o: Ulid)
    | RevalidateEnd(o: Ulid)
    | RevalidateFail(o: Ulid)
    | CloseRooms(rooms: set<Ulid>)
    | Release(ch: Channel)
    | Grant(user: Ulid, t: Topic)
    | Revoke(user: Ulid, t: Topic)
    | CreateRoom(room: Ulid, workspace: Ulid)
    | Shutdown

  function Epoch(s: State, user: Ulid): nat {
    EpochOf(s.epochs, user)
  }

  predicate HasWorkspace(s: State, t: Topic) {
    t.RoomTopic? ==> t.room in s.home
  }

  function WorkspaceOf(s: State, t: Topic): Ulid
    requires HasWorkspace(s, t)
  {
    match t
    case RoomTopic(r) => s.home[r]
    case WorkspaceTopic(w) => w
  }

  predicate IsSubscribing(op: Op) {
    op.Authorizing? || op.Authorized? || op.Acquiring?
  }

  predicate IsRevalidating(op: Op) {
    op.Collected? || op.ReadRooms? || op.ReadBoth?
  }

  /** The reference an operation in flight holds, if any. */
  predicate OpHolds(op: Op, ch: Channel) {
    match op
    case Acquiring(_, _, t, _, _) => ch == ChannelOf(t)
    case Entering(_, user, _) => ch == UserChannel(user)
    case _ => false
  }

  ghost predicate HasConn(s: State, user: Ulid) {
    exists c :: c in s.conns && s.conns[c].user == user
  }

  predicate TopicInScope(home: map<Ulid, Ulid>, t: Topic, scope: Option<Ulid>) {
    scope.Some? ==>
      match t
      case RoomTopic(r) => r in home && home[r] == scope.value
      case WorkspaceTopic(w) => w == scope.value
  }

  /** A topic of a connection that a revalidation of the given scope looks at: rooms count by their recorded workspace. */
  predicate Scoped(info: Info, t: Topic, scope: Option<Ulid>) {
    && Subscribed(info, t)
    && (scope.Some? ==>
          match t
          case RoomTopic(r) => info.rooms[r] == scope.value
          case WorkspaceTopic(w) => w == scope.value)
  }

  ghost predicate Collects(s: State, user: Ulid, scope: Option<Ulid>, rooms: set<Ulid>, workspaces: set<Ulid>) {
    forall t {:trigger Among(t, rooms, workspaces)} ::
      Among(t, rooms, workspaces) <==> exists c :: c in s.conns && s.conns[c].user == user && Scoped(s.conns[c], t, scope)
  }

  /** A Release is owed for every reference the connections gave up. */
  ghost predicate OwesLost(s: State, n: State) {
    forall ch {:trigger n.owed[ch]} {:trigger Lost(s.conns, n.conns, ch)} :: n.owed[ch] == s.owed[ch] + Lost(s.conns, n.conns, ch)
  }

  /** An operation ends and owes back the reference on a channel. */
  function GiveUp(s: State, o: Ulid, ch: Channel): State {
    s.(ops := s.ops - {o}, owed := s.owed + multiset{ch})
  }

  ghost predicate Next(s: State, step: Step, n: State) {
    match step
    case RegisterBegin(o, c, user, session) =>
      && o !in s.ops && c !in s.used && !s.shuttingDown
      && n == s.(ops := s.ops[o := Entering(c, user, session)], used := s.used + {c}, refs := s.refs + multiset{UserChannel(user)})
    case RegisterEnd(o) =>
      && o in s.ops && s.ops[o].Entering?
      && var op := s.ops[o];
         n == if s.shuttingDown then GiveUp(s, o, UserChannel(op.user))
              else s.(ops := s.ops - {o}, conns := s.conns[op.c := Info(op.user, op.session, map[], {}, false)])
    case Unregister(c) =>
      && c in s.conns
      && OwesLost(s, n)
      && var user := s.conns[c].user;
         n == s.(conns := s.conns - {c}, owed := n.owed, epochs := if HasConn(n, user) then s.epochs else s.epochs - {user})
    case Unsubscribe(c, t) =>
      && c in s.conns
      && OwesLost(s, n) && n == s.(conns := s.conns[c := Drop(s.conns[c], t)], owed := n.owed)
    case SubscribeBegin(o, c, t) =>
      && o !in s.ops && c in s.conns && !Subscribed(s.conns[c], t) && Size(s.conns[c]) < MAX_SUBSCRIPTIONS
      && var user := s.conns[c].user;
         n == s.(ops := s.ops[o := Authorizing(c, user, t, Epoch(s, user))])
    case Authorize(o) =>
      && o in s.ops && s.ops[o].Authorizing?
      && var op := s.ops[o];
         n == if (op.user, op.t) in s.perms && HasWorkspace(s, op.t)
              then s.(ops := s.ops[o := Authorized(op.c, op.user, op.t, op.epoch, WorkspaceOf(s, op.t))])
              else s.(ops := s.ops - {o})
    case Acquire(o) =>
      && o in s.ops && s.ops[o].Authorized?
      && var op := s.ops[o];
         n == s.(ops := s.ops[o := Acquiring(op.c, op.user, op.t, op.epoch, op.workspace)], refs := s.refs + multiset{ChannelOf(op.t)})
    case AcquireFail(o) =>
      && o in s.ops && (s.ops[o].Acquiring? || s.ops[o].Entering?)
      && n == GiveUp(s, o, if s.ops[o].Acquiring? then ChannelOf(s.ops[o].t) else UserChannel(s.ops[o].user))
    case SubscribeEnd(o) =>
      && o in s.ops && s.ops[o].Acquiring?
      && var op := s.ops[o];
         n == if Epoch(s, op.user) == op.epoch && op.c in s.conns && !Subscribed(s.conns[op.c], op.t)
              then s.(ops := s.ops - {o}, conns := s.conns[op.c := Add(s.conns[op.c], op.t, op.workspace)])
              else GiveUp(s, o, ChannelOf(op.t))
    case RevalidateBegin(o, user, scope) =>
      && o !in s.ops
      && if HasConn(s, user) then
           var moved := s.(epochs := EpochMoved(s.epochs, user));
           exists rooms, workspaces :: Collects(s, user, scope, rooms, workspaces)
             && n == if rooms == {} && workspaces == {} then moved
                     else moved.(ops := s.ops[o := Collected(user, rooms, workspaces)])
         else n == s
    case AllowRooms(o) =>
      && o in s.ops && s.ops[o].Collected?
      && var op := s.ops[o];
         var allowed := set r | r in op.rooms && (op.user, RoomTopic(r)) in s.perms;
         n == s.(ops := s.ops[o := ReadRooms(op.user, op.rooms, op.workspaces, allowed)])
    case AllowWorkspaces(o) =>
      && o in s.ops && s.ops[o].ReadRooms?
      && var op := s.ops[o];
         var allowed := set w | w in op.workspaces && (op.user, WorkspaceTopic(w)) in s.perms;
         n == s.(ops := s.ops[o := ReadBoth(op.user, op.rooms, op.workspaces, op.allowedRooms, allowed)])
    case RevalidateEnd(o) =>
      && o in s.ops && s.ops[o].ReadBoth?
      && var op := s.ops[o];
         && OwesLost(s, n) && n == s.(conns := n.conns, owed := n.owed, ops := s.ops - {o})
         && Trimmed(s.conns, n.conns, Some(op.user), op.rooms - op.allowedRooms, op.workspaces - op.allowedWorkspaces)
    case RevalidateFail(o) => o in s.ops && (s.ops[o].Collected? || s.ops[o].ReadRooms?) && n == s.(ops := s.ops - {o})
    case CloseRooms(rooms) => OwesLost(s, n) && n == s.(conns := n.conns, owed := n.owed) && Trimmed(s.conns, n.conns, None, rooms, {})
    case Release(ch) => ch in s.owed && n == s.(owed := s.owed - multiset{ch}, refs := s.refs - multiset{ch})
    case Grant(user, t) => n == s.(perms := s.perms + {(user, t)})
    case Revoke(user, t) => n == s.(perms := s.perms - {(user, t)})
    case CreateRoom(room, workspace) => room !in s.home && n == s.(home := s.home[room := workspace])
    case Shutdown => n == s.(shuttingDown := true)
  }

  ghost predicate IsRun(states: seq<State>, steps: seq<Step>) {
    IsPath(Next, states, steps) && states[0] == INITIAL
  }
}
