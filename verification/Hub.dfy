/** The Hub over its indexes, one method per region it runs under its mutex.

    `conns` is the one map all indexes project. Every method is proved to be a change of that map, to keep every index an
    exact inverse without empty entries, and to hand back exactly the channel references its change gave up. */
module Hub {
  import opened Common
  import opened HubModel

  class Client {
    const user: Ulid
    const session: Ulid
    var rooms: map<Ulid, Ulid>
    var workspaces: set<Ulid>
    var registered: bool
    var active: bool

    constructor (user: Ulid, session: Ulid)
      ensures this.user == user && this.session == session && Info() == HubModel.Info(user, session, map[], {}, false)
      ensures !registered
    {
      this.user, this.session := user, session;
      rooms, workspaces, registered, active := map[], {}, false, false;
    }

    function Info(): Info
      reads this
    {
      HubModel.Info(user, session, rooms, workspaces, active)
    }

    predicate Subscribed(t: Topic)
      reads this
    {
      match t
      case RoomTopic(r) => r in rooms
      case WorkspaceTopic(w) => w in workspaces
    }
  }

  type Index = map<Ulid, set<Client>>

  datatype Kind = ByUser | BySession | ByRoom | ByWorkspace

  predicate Has(info: Info, kind: Kind, key: Ulid) {
    match kind
    case ByUser => info.user == key
    case BySession => info.session == key
    case ByRoom => key in info.rooms
    case ByWorkspace => key in info.workspaces
  }

  /** The index lists, under each key, exactly the registered connections that have it; no empty entry is kept. */
  ghost predicate Inverse(index: Index, conns: map<Client, Info>, kind: Kind) {
    && (forall k :: k in index ==> index[k] != {})
    && (forall k, c {:trigger c in MembersOf(index, k)} :: c in MembersOf(index, k) ==> c in conns && Has(conns[c], kind, k))
    && (forall k, c {:trigger Has(conns[c], kind, k)} :: c in conns && Has(conns[c], kind, k) ==> c in MembersOf(index, k))
  }

  lemma AddedKey(index: Index, conns: map<Client, Info>, kind: Kind, c: Client, info: Info, key: Ulid)
    requires Inverse(index, conns, kind)
    requires forall k :: Has(info, kind, k) <==> (c in conns && Has(conns[c], kind, k)) || k == key
    ensures Inverse(AddMember(index, key, c), conns[c := info], kind)
  {
    var next := AddMember(index, key, c);
    assert forall k :: MembersOf(next, k) == if k == key then MembersOf(index, k) + {c} else MembersOf(index, k);
    forall k | k in next ensures next[k] != {} {
      assert k == key ==> c in next[k];
    }
  }

  lemma DroppedKey(index: Index, conns: map<Client, Info>, kind: Kind, c: Client, info: Info, key: Ulid)
    requires Inverse(index, conns, kind) && c in conns
    requires forall k :: Has(info, kind, k) <==> Has(conns[c], kind, k) && k != key
    ensures Inverse(DropMember(index, key, c), conns[c := info], kind)
  {
    var next := DropMember(index, key, c);
    assert forall k :: MembersOf(next, k) == if k == key then MembersOf(index, k) - {c} else MembersOf(index, k);
  }

  lemma SameKeys(index: Index, conns: map<Client, Info>, kind: Kind, c: Client, info: Info)
    requires Inverse(index, conns, kind)
    requires forall k :: Has(info, kind, k) <==> c in conns && Has(conns[c], kind, k)
    ensures Inverse(index, conns[c := info], kind)
  {
  }

  /** A connection without keys of a kind can leave the map. */
  lemma Forget(index: Index, conns: map<Client, Info>, kind: Kind, c: Client)
    requires Inverse(index, conns, kind)
    requires c in conns ==> forall k :: !Has(conns[c], kind, k)
    ensures Inverse(index, conns - {c}, kind)
  {
  }

  /** A connection whose only key of a kind goes leaves the map. */
  lemma LastKey(index: Index, conns: map<Client, Info>, kind: Kind, c: Client, key: Ulid)
    requires Inverse(index, conns, kind) && c in conns
    requires forall k :: Has(conns[c], kind, k) <==> k == key
    ensures Inverse(DropMember(index, key, c), conns - {c}, kind)
  {
    var next := DropMember(index, key, c);
    assert forall k :: MembersOf(next, k) == if k == key then MembersOf(index, k) - {c} else MembersOf(index, k);
    assert Has(conns[c], kind, key);
  }

  ghost predicate IndexesMatch(byUser: Index, bySession: Index, roomSubs: Index, workspaceSubs: Index, conns: map<Client, Info>) {
    && Inverse(byUser, conns, ByUser)
    && Inverse(bySession, conns, BySession)
    && Inverse(roomSubs, conns, ByRoom)
    && Inverse(workspaceSubs, conns, ByWorkspace)
  }

  /** A connection with no subscription. */
  function Bare(info: Info): Info {
    info.(rooms := map[], workspaces := {})
  }

  /** The loop step of Unregister on one index. */
  lemma LeaveKey(index: Index, conns: map<Client, Info>, kind: Kind, c: Client, info: Info, next: Info, key: Ulid)
    requires Inverse(index, conns[c := info], kind)
    requires forall k :: Has(next, kind, k) <==> Has(info, kind, k) && k != key
    ensures Inverse(DropMember(index, key, c), conns[c := next], kind)
  {
    DroppedKey(index, conns[c := info], kind, c, next, key);
    assert conns[c := info][c := next] == conns[c := next];
  }

  /** What else a record says does not matter to an index. */
  lemma Swap(index: Index, conns: map<Client, Info>, kind: Kind, c: Client, info: Info, next: Info)
    requires Inverse(index, conns[c := info], kind) || (c in conns && conns[c] == info && Inverse(index, conns, kind))
    requires forall k :: Has(next, kind, k) <==> Has(info, kind, k)
    ensures Inverse(index, conns[c := next], kind)
  {
    if Inverse(index, conns[c := info], kind) {
      SameKeys(index, conns[c := info], kind, c, next);
      assert conns[c := info][c := next] == conns[c := next];
    } else {
      SameKeys(index, conns, kind, c, next);
    }
  }

  /** The connection is out of the index for all its rooms but some, and the channels of the others are listed for release. */
  ghost predicate RoomsLeaving(index: Index, conns: map<Client, Info>, c: Client, todo: set<Ulid>, channels: seq<Channel>)
    requires c in conns
  {
    var left := conns[c].rooms.Keys - todo;
    Inverse(index, conns[c := Trim(conns[c], left, {})], ByRoom) && Lists(channels, conns[c].user, left, {})
  }

  /** The same for its workspaces, once it is out of its rooms. */
  ghost predicate WorkspacesLeaving(index: Index, conns: map<Client, Info>, c: Client, todo: set<Ulid>, channels: seq<Channel>)
    requires c in conns
  {
    var left := conns[c].workspaces - todo;
    Inverse(index, conns[c := Trim(conns[c], {}, left)], ByWorkspace) && Lists(channels, conns[c].user, conns[c].rooms.Keys, left)
  }

  lemma NoRoomLeft(index: Index, conns: map<Client, Info>, c: Client)
    requires c in conns && Inverse(index, conns, ByRoom)
    ensures RoomsLeaving(index, conns, c, conns[c].rooms.Keys, [UserChannel(conns[c].user)])
  {
    Swap(index, conns, ByRoom, c, conns[c], Trim(conns[c], {}, {}));
    assert conns[c].rooms.Keys - conns[c].rooms.Keys == {};
  }

  lemma NoWorkspaceLeft(index: Index, conns: map<Client, Info>, c: Client, channels: seq<Channel>)
    requires c in conns && Inverse(index, conns, ByWorkspace) && Lists(channels, conns[c].user, conns[c].rooms.Keys, {})
    ensures WorkspacesLeaving(index, conns, c, conns[c].workspaces, channels)
  {
    Swap(index, conns, ByWorkspace, c, conns[c], Trim(conns[c], {}, {}));
    assert conns[c].workspaces - conns[c].workspaces == {};
  }

  lemma LeaveRoom(index: Index, conns: map<Client, Info>, c: Client, todo: set<Ulid>, channels: seq<Channel>, r: Ulid)
    requires c in conns && RoomsLeaving(index, conns, c, todo, channels) && r in todo && r in conns[c].rooms
    ensures RoomsLeaving(DropMember(index, r, c), conns, c, todo - {r}, channels + [RoomChannel(r)])
  {
    var left := conns[c].rooms.Keys - todo;
    assert conns[c].rooms.Keys - (todo - {r}) == left + {r};
    LeaveKey(index, conns, ByRoom, c, Trim(conns[c], left, {}), Trim(conns[c], left + {r}, {}), r);
    ListsMore(channels, conns[c].user, left, {}, RoomTopic(r));
  }

  lemma LeaveWorkspace(index: Index, conns: map<Client, Info>, c: Client, todo: set<Ulid>, channels: seq<Channel>, w: Ulid)
    requires c in conns && WorkspacesLeaving(index, conns, c, todo, channels) && w in todo && w in conns[c].workspaces
    ensures WorkspacesLeaving(DropMember(index, w, c), conns, c, todo - {w}, channels + [WorkspaceChannel(w)])
  {
    var left := conns[c].workspaces - todo;
    assert conns[c].workspaces - (todo - {w}) == left + {w};
    LeaveKey(index, conns, ByWorkspace, c, Trim(conns[c], {}, left), Trim(conns[c], {}, left + {w}), w);
    ListsMore(channels, conns[c].user, conns[c].rooms.Keys, left, WorkspaceTopic(w));
  }

  function WithoutRoom(roomSubs: Index, c: Client, t: Topic): Index {
    if t.RoomTopic? then DropMember(roomSubs, t.room, c) else roomSubs
  }

  function WithoutWorkspace(workspaceSubs: Index, c: Client, t: Topic): Index {
    if t.WorkspaceTopic? then DropMember(workspaceSubs, t.workspace, c) else workspaceSubs
  }

  /** A topic of a registered connection goes. */
  lemma DropKeepsIndexes(byUser: Index, bySession: Index, roomSubs: Index, workspaceSubs: Index, conns: map<Client, Info>,
                         c: Client, t: Topic)
    requires IndexesMatch(byUser, bySession, roomSubs, workspaceSubs, conns) && c in conns
    ensures IndexesMatch(byUser, bySession, WithoutRoom(roomSubs, c, t), WithoutWorkspace(workspaceSubs, c, t),
                         conns[c := Drop(conns[c], t)])
    ensures !Subscribed(conns[c], t) ==> conns[c := Drop(conns[c], t)] == conns
  {
    var info := Drop(conns[c], t);
    DropNothing(conns[c], t);
    SameKeys(byUser, conns, ByUser, c, info);
    SameKeys(bySession, conns, BySession, c, info);
    match t
    case RoomTopic(r) =>
      DroppedKey(roomSubs, conns, ByRoom, c, info, r);
      SameKeys(workspaceSubs, conns, ByWorkspace, c, info);
    case WorkspaceTopic(w) =>
      SameKeys(roomSubs, conns, ByRoom, c, info);
      DroppedKey(workspaceSubs, conns, ByWorkspace, c, info, w);
  }

  function WithRoom(roomSubs: Index, c: Client, t: Topic): Index {
    if t.RoomTopic? then AddMember(roomSubs, t.room, c) else roomSubs
  }

  function WithWorkspace(workspaceSubs: Index, c: Client, t: Topic): Index {
    if t.WorkspaceTopic? then AddMember(workspaceSubs, t.workspace, c) else workspaceSubs
  }

  /** A topic of a registered connection comes. */
  lemma AddKeepsIndexes(byUser: Index, bySession: Index, roomSubs: Index, workspaceSubs: Index, conns: map<Client, Info>,
                        c: Client, t: Topic, workspace: Ulid)
    requires IndexesMatch(byUser, bySession, roomSubs, workspaceSubs, conns) && c in conns
    ensures IndexesMatch(byUser, bySession, WithRoom(roomSubs, c, t), WithWorkspace(workspaceSubs, c, t),
                         conns[c := Add(conns[c], t, workspace)])
  {
    var info := Add(conns[c], t, workspace);
    SameKeys(byUser, conns, ByUser, c, info);
    SameKeys(bySession, conns, BySession, c, info);
    match t
    case RoomTopic(r) =>
      AddedKey(roomSubs, conns, ByRoom, c, info, r);
      SameKeys(workspaceSubs, conns, ByWorkspace, c, info);
    case WorkspaceTopic(w) =>
      SameKeys(roomSubs, conns, ByRoom, c, info);
      AddedKey(workspaceSubs, conns, ByWorkspace, c, info, w);
  }

  lemma RegisterKeepsIndexes(byUser: Index, bySession: Index, roomSubs: Index, workspaceSubs: Index, conns: map<Client, Info>,
                             c: Client, user: Ulid, session: Ulid)
    requires IndexesMatch(byUser, bySession, roomSubs, workspaceSubs, conns) && c !in conns
    ensures IndexesMatch(AddMember(byUser, user, c), AddMember(bySession, session, c), roomSubs, workspaceSubs,
                         conns[c := Info(user, session, map[], {}, false)])
  {
    var info := Info(user, session, map[], {}, false);
    AddedKey(byUser, conns, ByUser, c, info, user);
    AddedKey(bySession, conns, BySession, c, info, session);
    SameKeys(roomSubs, conns, ByRoom, c, info);
    SameKeys(workspaceSubs, conns, ByWorkspace, c, info);
  }

  /** A connection leaves once its rooms and workspaces are out of the indexes. */
  lemma UnregisterKeepsIndexes(byUser: Index, bySession: Index, roomSubs: Index, workspaceSubs: Index, conns: map<Client, Info>,
                               trimmed: map<Client, Info>, c: Client)
    requires c in conns && trimmed == conns[c := conns[c].(rooms := map[], workspaces := {})]
    requires Inverse(byUser, conns, ByUser) && Inverse(bySession, conns, BySession)
    requires Inverse(roomSubs, trimmed, ByRoom) && Inverse(workspaceSubs, trimmed, ByWorkspace)
    ensures IndexesMatch(DropMember(byUser, conns[c].user, c), DropMember(bySession, conns[c].session, c), roomSubs, workspaceSubs,
                         conns - {c})
  {
    LastKey(byUser, conns, ByUser, c, conns[c].user);
    LastKey(bySession, conns, BySession, c, conns[c].session);
    Forget(roomSubs, trimmed, ByRoom, c);
    Forget(workspaceSubs, trimmed, ByWorkspace, c);
    assert trimmed - {c} == conns - {c};
  }

  datatype Begin = Nothing | TooMany | Proceed(epoch: nat)

  datatype Finish = Retry | Added | NotAdded

  class Hub {
    var clients: set<Client>
    var byUser: Index
    var bySession: Index
    var roomSubs: Index
    var workspaceSubs: Index
    var epochs: map<Ulid, nat>
    var shuttingDown: bool
    var unregistering: nat
    var drained: bool
    /** Every connection this Hub ever registered, and the ones registered now. */
    ghost var known: set<Client>
    ghost var conns: map<Client, Info>

    ghost predicate Valid()
      reads this, known
    {
      && ClientsMatch()
      && IndexesMatch(byUser, bySession, roomSubs, workspaceSubs, conns)
      && (forall u :: u in epochs ==> u in byUser)
      && (drained <==> shuttingDown && clients == {} && unregistering == 0)
    }

    /** The registered clients are those of the map, each as the map says. */
    ghost predicate ClientsMatch()
      reads this, known
    {
      && (forall c :: c in clients ==> c in known && c in conns) && (forall c :: c in conns ==> c in clients)
      && (forall c {:trigger c in known} :: c in known ==> c.registered == (c in conns))
      && (forall c {:trigger conns[c]} :: c in conns ==> conns[c] == c.Info())
    }

    constructor ()
      ensures Valid() && conns == map[] && known == {} && epochs == map[] && !shuttingDown
    {
      clients, byUser, bySession, roomSubs, workspaceSubs, epochs := {}, map[], map[], map[], map[], map[];
      shuttingDown, unregistering, drained := false, 0, false;
      known, conns := {}, map[];
    }

    /** Register, after its user channel is acquired. Refused once the Hub is shutting down; the reference goes back. */
    method Register(user: Ulid, session: Ulid) returns (c: Client, released: seq<Channel>)
      requires Valid()
      modifies this
      ensures Valid() && fresh(c)
      ensures known == old(known) + {c} && epochs == old(epochs)
      ensures shuttingDown == old(shuttingDown) && unregistering == old(unregistering)
      ensures shuttingDown ==> conns == old(conns) && released == [UserChannel(user)]
      ensures !shuttingDown ==> conns == old(conns)[c := Info(user, session, map[], {}, false)] && released == []
    {
      c := new Client(user, session);
      known := known + {c};
      released := [UserChannel(user)];
      if !shuttingDown {
        released := [];
        Enter(c);
      }
    }

    method Enter(c: Client)
      requires Valid() && c in known && c !in conns && !shuttingDown
      requires c.Info() == Info(c.user, c.session, map[], {}, false)
      modifies this, c`registered
      ensures Valid() && known == old(known) && epochs == old(epochs)
      ensures !shuttingDown && unregistering == old(unregistering)
      ensures conns == old(conns)[c := c.Info()]
    {
      RegisterKeepsIndexes(byUser, bySession, roomSubs, workspaceSubs, conns, c, c.user, c.session);
      ghost var next := conns[c := c.Info()];
      Link(c);
      assert conns == next;
    }

    method Link(c: Client)
      requires ClientsMatch() && c in known && c !in conns
      modifies this`clients, this`byUser, this`bySession, this`conns, c`registered
      ensures ClientsMatch() && clients != {} && conns == old(conns)[c := c.Info()]
      ensures byUser == AddMember(old(byUser), c.user, c) && bySession == AddMember(old(bySession), c.session, c)
    {
      c.registered := true;
      clients := clients + {c};
      byUser := AddMember(byUser, c.user, c);
      bySession := AddMember(bySession, c.session, c);
      conns := conns[c := c.Info()];
      assert c in clients;
    }

    /** unsubscribeLocked, on a registered connection. */
    method UnsubscribeLocked(c: Client, t: Topic) returns (removed: bool)
      requires Valid() && c in conns
      modifies this`roomSubs, this`workspaceSubs, this`conns, c`rooms, c`workspaces
      ensures Valid()
      ensures removed == Subscribed(old(conns)[c], t)
      ensures conns == old(conns)[c := Drop(old(conns)[c], t)]
    {
      assert conns[c] == c.Info();
      removed := c.Subscribed(t);
      if removed {
        UnsubscribeNow(c, t);
      } else {
        DropNothing(conns[c], t);
        assert conns[c := conns[c]] == conns;
      }
    }

    method UnsubscribeNow(c: Client, t: Topic)
      requires Valid() && c in conns
      modifies this`roomSubs, this`workspaceSubs, this`conns, c`rooms, c`workspaces
      ensures Valid()
      ensures conns == old(conns)[c := Drop(old(conns)[c], t)]
    {
      DropKeepsIndexes(byUser, bySession, roomSubs, workspaceSubs, conns, c, t);
      assert conns[c] == c.Info();
      ghost var next := conns[c := Drop(conns[c], t)];
      Unlink(c, t);
      assert IndexesMatch(byUser, bySession, roomSubs, workspaceSubs, next);
      conns := next;
    }

    method Unlink(c: Client, t: Topic)
      modifies this`roomSubs, this`workspaceSubs, c`rooms, c`workspaces
      ensures c.Info() == Drop(old(c.Info()), t)
      ensures roomSubs == WithoutRoom(old(roomSubs), c, t) && workspaceSubs == WithoutWorkspace(old(workspaceSubs), c, t)
    {
      match t
      case RoomTopic(r) =>
        c.rooms := c.rooms - {r};
        roomSubs := DropMember(roomSubs, r, c);
      case WorkspaceTopic(w) =>
        c.workspaces := c.workspaces - {w};
        workspaceSubs := DropMember(workspaceSubs, w, c);
    }

    /** Unsubscribe. On a registered connection it releases exactly what it gives up. On one that is gone already it still
        releases the channel of a topic the connection had when it left, although nobody gives it up. */
    method Unsubscribe(c: Client, t: Topic) returns (released: seq<Channel>)
      requires Valid() && c in known
      modifies this`roomSubs, this`workspaceSubs, this`conns, c`rooms, c`workspaces
      ensures Valid()
      ensures old(c.registered) ==> conns == old(conns)[c := Drop(old(conns)[c], t)]
      ensures !old(c.registered) ==> conns == old(conns)
      ensures released == if old(c.Subscribed(t)) then [ChannelOf(t)] else []
      ensures GivesBack(released, old(conns), conns) <==> c.registered || !old(c.Subscribed(t))
    {
      released := if c.Subscribed(t) then [ChannelOf(t)] else [];
      if c.registered {
        DropLosesOne(conns, c, t);
        var removed := UnsubscribeLocked(c, t);
      } else {
        NothingLost(conns);
        NothingToRelease(conns, ChannelOf(t));
        UnsubscribeGone(c, t);
      }
    }

    /** unsubscribeLocked on a connection that left: only its own sets, which nobody reads, change. */
    method UnsubscribeGone(c: Client, t: Topic)
      requires Valid() && c in known && !c.registered
      modifies this`roomSubs, this`workspaceSubs, c`rooms, c`workspaces
      ensures Valid()
    {
      AbsentMember(roomSubs, workspaceSubs, byUser, bySession, conns, c, t);
      if c.Subscribed(t) {
        Unlink(c, t);
      }
    }

    /** Subscribe, first region: nothing to do, too many subscriptions, or the epoch to authorize under. */
    method SubscribeBegin(c: Client, t: Topic) returns (r: Begin)
      requires Valid() && c in known
      ensures r == Nothing <==> !c.registered || c.Subscribed(t)
      ensures r == TooMany <==> c.registered && !c.Subscribed(t) && Size(c.Info()) >= MAX_SUBSCRIPTIONS
      ensures r.Proceed? ==> r.epoch == EpochOf(epochs, c.user)
    {
      if !c.registered || c.Subscribed(t) { return Nothing; }
      if |c.rooms| + |c.workspaces| >= MAX_SUBSCRIPTIONS { return TooMany; }
      r := Proceed(EpochOf(epochs, c.user));
    }

    /** Subscribe, last region, after authorization and Acquire: a moved epoch means to try again. The reference is kept
        exactly if the topic was added. */
    method SubscribeEnd(c: Client, t: Topic, workspace: Ulid, epoch: nat) returns (r: Finish, released: seq<Channel>)
      requires Valid() && c in known
      modifies this`roomSubs, this`workspaceSubs, this`conns, c`rooms, c`workspaces
      ensures Valid()
      ensures r == Retry <==> EpochOf(epochs, c.user) != epoch
      ensures r == Added <==> EpochOf(epochs, c.user) == epoch && c.registered && !old(c.Subscribed(t))
      ensures r == Added ==> conns == old(conns)[c := Add(old(conns)[c], t, workspace)] && released == []
      ensures r != Added ==> conns == old(conns) && released == [ChannelOf(t)]
    {
      released := [ChannelOf(t)];
      if EpochOf(epochs, c.user) != epoch {
        r := Retry;
      } else if c.registered && !c.Subscribed(t) {
        SubscribeNow(c, t, workspace);
        r, released := Added, [];
      } else {
        r := NotAdded;
      }
    }

    method SubscribeNow(c: Client, t: Topic, workspace: Ulid)
      requires Valid() && c in conns
      modifies this`roomSubs, this`workspaceSubs, this`conns, c`rooms, c`workspaces
      ensures Valid()
      ensures conns == old(conns)[c := Add(old(conns)[c], t, workspace)]
    {
      AddKeepsIndexes(byUser, bySession, roomSubs, workspaceSubs, conns, c, t, workspace);
      assert conns[c] == c.Info();
      ghost var next := conns[c := Add(conns[c], t, workspace)];
      LinkTopic(c, t, workspace);
      assert IndexesMatch(byUser, bySession, roomSubs, workspaceSubs, next);
      conns := next;
    }

    method LinkTopic(c: Client, t: Topic, workspace: Ulid)
      modifies this`roomSubs, this`workspaceSubs, c`rooms, c`workspaces
      ensures c.Info() == Add(old(c.Info()), t, workspace)
      ensures roomSubs == WithRoom(old(roomSubs), c, t) && workspaceSubs == WithWorkspace(old(workspaceSubs), c, t)
    {
      match t
      case RoomTopic(r) =>
        c.rooms := c.rooms[r := workspace];
        roomSubs := AddMember(roomSubs, r, c);
      case WorkspaceTopic(w) =>
        c.workspaces := c.workspaces + {w};
        workspaceSubs := AddMember(workspaceSubs, w, c);
    }

    /** The loops of Unregister: the connection leaves the indexes of its rooms and workspaces; its own sets stay. */
    method LeaveRooms(c: Client) returns (channels: seq<Channel>)
      requires c in conns && conns[c] == c.Info() && Inverse(roomSubs, conns, ByRoom)
      modifies this`roomSubs
      ensures RoomsLeaving(roomSubs, conns, c, {}, channels)
    {
      channels := [UserChannel(c.user)];
      var todo := c.rooms.Keys;
      NoRoomLeft(roomSubs, conns, c);
      while todo != {}
        invariant todo <= c.rooms.Keys && RoomsLeaving(roomSubs, conns, c, todo, channels)
        decreases |todo|
      {
        var r :| r in todo;
        LeaveRoom(roomSubs, conns, c, todo, channels, r);
        roomSubs, channels, todo := DropMember(roomSubs, r, c), channels + [RoomChannel(r)], todo - {r};
      }
    }

    method LeaveWorkspaces(c: Client, before: seq<Channel>) returns (channels: seq<Channel>)
      requires c in conns && conns[c] == c.Info() && Inverse(workspaceSubs, conns, ByWorkspace)
      requires Lists(before, c.user, c.rooms.Keys, {})
      modifies this`workspaceSubs
      ensures WorkspacesLeaving(workspaceSubs, conns, c, {}, channels)
    {
      channels := before;
      var todo := c.workspaces;
      NoWorkspaceLeft(workspaceSubs, conns, c, before);
      while todo != {}
        invariant todo <= c.workspaces && WorkspacesLeaving(workspaceSubs, conns, c, todo, channels)
        decreases |todo|
      {
        var w :| w in todo;
        LeaveWorkspace(workspaceSubs, conns, c, todo, channels, w);
        workspaceSubs, channels, todo := DropMember(workspaceSubs, w, c), channels + [WorkspaceChannel(w)], todo - {w};
      }
    }

    method LeaveTopics(c: Client) returns (channels: seq<Channel>)
      requires c in conns && conns[c] == c.Info() && IndexesMatch(byUser, bySession, roomSubs, workspaceSubs, conns)
      modifies this`roomSubs, this`workspaceSubs
      ensures GivesBack(channels, conns, conns - {c})
      ensures IndexesMatch(DropMember(byUser, c.user, c), DropMember(bySession, c.session, c), roomSubs, workspaceSubs, conns - {c})
    {
      ghost var info := conns[c];
      channels := LeaveRooms(c);
      assert info.rooms.Keys - {} == info.rooms.Keys && info.workspaces - {} == info.workspaces;
      channels := LeaveWorkspaces(c, channels);
      LeaveLosesAll(conns, c, channels);
      Swap(roomSubs, conns, ByRoom, c, Trim(info, info.rooms.Keys, {}), Bare(info));
      Swap(workspaceSubs, conns, ByWorkspace, c, Trim(info, {}, info.workspaces), Bare(info));
      UnregisterKeepsIndexes(byUser, bySession, roomSubs, workspaceSubs, conns, conns[c := Bare(conns[c])], c);
    }

    /** Unregister, first region. The user's epoch goes with the last connection. Calling it again does nothing. */
    method UnregisterBegin(c: Client) returns (channels: seq<Channel>)
      requires Valid() && c in known
      modifies this, c`registered
      ensures Valid() && known == old(known) && shuttingDown == old(shuttingDown)
      ensures GivesBack(channels, old(conns), conns)
      ensures !old(c.registered) ==> conns == old(conns) && epochs == old(epochs) && unregistering == old(unregistering)
      ensures old(c.registered) ==>
                && conns == old(conns) - {c} && unregistering == old(unregistering) + 1
                && epochs == if c.user in byUser then old(epochs) else old(epochs) - {c.user}
    {
      if c.registered {
        channels := UnregisterNow(c);
      } else {
        channels := [];
        NothingLost(conns);
      }
    }

    method UnregisterNow(c: Client) returns (channels: seq<Channel>)
      requires Valid() && c in conns
      modifies this, c`registered
      ensures Valid() && known == old(known) && shuttingDown == old(shuttingDown)
      ensures GivesBack(channels, old(conns), conns)
      ensures conns == old(conns) - {c} && unregistering == old(unregistering) + 1
      ensures epochs == if c.user in byUser then old(epochs) else old(epochs) - {c.user}
    {
      ghost var next := conns - {c};
      channels := LeaveTopics(c);
      Quit(c);
      assert conns == next;
    }

    method Quit(c: Client)
      requires ClientsMatch() && c in conns
      modifies this`clients, this`byUser, this`bySession, this`conns, this`epochs, this`unregistering, c`registered
      ensures ClientsMatch() && conns == old(conns) - {c} && unregistering == old(unregistering) + 1
      ensures byUser == DropMember(old(byUser), c.user, c) && bySession == DropMember(old(bySession), c.session, c)
      ensures epochs == if c.user in byUser then old(epochs) else old(epochs) - {c.user}
    {
      c.registered := false;
      clients := clients - {c};
      byUser := DropMember(byUser, c.user, c);
      bySession := DropMember(bySession, c.session, c);
      if c.user !in byUser {
        epochs := epochs - {c.user};
      }
      unregistering := unregistering + 1;
      conns := conns - {c};
    }

    /** Unregister, last region, after the channels are released and presence is updated. */
    method UnregisterEnd()
      requires Valid() && unregistering > 0
      modifies this`unregistering, this`drained
      ensures Valid() && unregistering == old(unregistering) - 1
    {
      unregistering := unregistering - 1;
      CloseDrained();
    }

    method CloseDrained()
      modifies this`drained
      ensures drained <==> old(drained) || (shuttingDown && clients == {} && unregistering == 0)
    {
      if shuttingDown && !drained && |clients| == 0 && unregistering == 0 {
        drained := true;
      }
    }

    /** Shutdown, its region: no connection is registered any more. */
    method Shutdown()
      requires Valid()
      modifies this`shuttingDown, this`drained
      ensures Valid() && shuttingDown
    {
      shuttingDown := true;
      CloseDrained();
    }

    /** SetActivity, its region: presence is synced only after a change on a registered connection. */
    method SetActivity(c: Client, active: bool) returns (changed: bool)
      requires Valid() && c in known
      modifies this`conns, c`active
      ensures Valid()
      ensures changed == (c.registered && old(c.active) != active)
      ensures conns == if changed then old(conns)[c := old(conns)[c].(active := active)] else old(conns)
    {
      changed := c.registered && c.active != active;
      if changed {
        ghost var info := conns[c].(active := active);
        SameKeys(byUser, conns, ByUser, c, info);
        SameKeys(bySession, conns, BySession, c, info);
        SameKeys(roomSubs, conns, ByRoom, c, info);
        SameKeys(workspaceSubs, conns, ByWorkspace, c, info);
        assert conns[c] == c.Info();
        c.active := active;
        conns := conns[c := info];
      }
    }

    /** countsLocked: how many connections of a user are registered, and how many of them are viewing. */
    method Counts(user: Ulid) returns (total: nat, viewing: nat)
      requires Valid()
      ensures total == |set c | c in conns && conns[c].user == user|
      ensures viewing == |set c | c in conns && conns[c].user == user && conns[c].active|
    {
      var members := MembersOf(byUser, user);
      UserHolders(byUser, conns, user);
      total, viewing := CountIn(members);
      forall c | c in members ensures c.active == conns[c].active {
        assert conns[c] == c.Info();
      }
      assert members == set c | c in conns && conns[c].user == user;
      assert (set c | c in members && c.active) == set c | c in conns && conns[c].user == user && conns[c].active;
    }

    static method CountIn(members: set<Client>) returns (total: nat, viewing: nat)
      ensures total == |members| && viewing == |set c | c in members && c.active|
    {
      total, viewing := 0, 0;
      var todo := members;
      ghost var seen: set<Client> := {};
      while todo != {}
        invariant todo <= members && total + |todo| == |members|
        invariant seen == (set c | c in members && c.active) - todo && viewing == |seen|
        decreases |todo|
      {
        var c :| c in todo;
        todo, total := todo - {c}, total + 1;
        if c.active { viewing, seen := viewing + 1, seen + {c}; }
      }
      assert seen == set c | c in members && c.active;
    }

    /** CloseSessions: the connections to close for one session, or for a whole user. */
    method CloseSessions(user: Ulid, session: Ulid, all: bool) returns (targets: set<Client>)
      requires Valid()
      ensures forall c :: c in targets <==> c in conns && if all then conns[c].user == user else conns[c].session == session
    {
      targets := if all then MembersOf(byUser, user) else MembersOf(bySession, session);
      forall c | c in conns && (if all then conns[c].user == user else conns[c].session == session) ensures c in targets {
        assert all ==> Has(conns[c], ByUser, user);
        assert !all ==> Has(conns[c], BySession, session);
      }
    }

    /** Everyone listed under one of the keys. */
    static method Gather(index: Index, keys: seq<Ulid>) returns (found: set<Client>)
      ensures forall c :: c in found <==> exists k :: k in keys && c in MembersOf(index, k)
    {
      found := {};
      for i := 0 to |keys|
        invariant forall c :: c in found <==> exists k :: k in keys[..i] && c in MembersOf(index, k)
      {
        assert keys[..i + 1] == keys[..i] + [keys[i]];
        found := found + MembersOf(index, keys[i]);
      }
    }

    /** DeliverLocal, the region that picks the connections: every addressed one except those of `except`. */
    method Targets(rooms: seq<Ulid>, workspaces: seq<Ulid>, users: seq<Ulid>, except: Option<Ulid>) returns (targets: set<Client>)
      requires Valid()
      ensures forall c :: c in targets <==>
                && c in conns && except != Some(conns[c].user)
                && ((exists r :: r in rooms && r in conns[c].rooms) || (exists w :: w in workspaces && w in conns[c].workspaces)
                    || conns[c].user in users)
    {
      var inRooms := Gather(roomSubs, rooms);
      var inWorkspaces := Gather(workspaceSubs, workspaces);
      var ofUsers := Gather(byUser, users);
      forall c | c in conns
        ensures c in inRooms + inWorkspaces + ofUsers <==> Addressed(conns[c], rooms, workspaces, users)
      {
        Reached(byUser, roomSubs, workspaceSubs, conns, c, rooms, workspaces, users);
      }
      targets := inRooms + inWorkspaces + ofUsers;
      if except.Some? {
        targets := targets - MembersOf(byUser, except.value);
        UserHolders(byUser, conns, except.value);
      }
    }

    /** DeliverLocal, after the revalidations: the event is offered to each target once, and a connection whose send queue is full
        is told to close instead; then the closed rooms are left. */
    method Deliver(rooms: seq<Ulid>, workspaces: seq<Ulid>, users: seq<Ulid>, except: Option<Ulid>, closed: seq<Ulid>, full: set<Client>)
      returns (sent: seq<Client>, closing: seq<Client>, released: seq<Channel>)
      requires Valid()
      modifies this`roomSubs, this`workspaceSubs, this`conns, known
      ensures Valid()
      ensures Distinct(sent + closing) && Elements(sent) !! full && Elements(closing) <= full
      ensures forall c :: c in Elements(sent + closing) <==>
                && c in old(conns) && except != Some(old(conns)[c].user)
                && ((exists r :: r in rooms && r in old(conns)[c].rooms) || (exists w :: w in workspaces && w in old(conns)[c].workspaces)
                    || old(conns)[c].user in users)
      ensures Trimmed(old(conns), conns, None, Elements(closed), {}) && GivesBack(released, old(conns), conns)
    {
      var targets := Targets(rooms, workspaces, users, except);
      sent, closing := SendAll(targets, full);
      released := CloseRooms(closed);
    }

    static method SendAll(targets: set<Client>, full: set<Client>) returns (sent: seq<Client>, closing: seq<Client>)
      ensures Distinct(sent + closing) && Elements(sent + closing) == targets
      ensures Elements(sent) !! full && Elements(closing) <= full
    {
      sent, closing := [], [];
      var todo := targets;
      while todo != {}
        invariant todo <= targets && Offered(sent, closing, targets - todo, full)
        decreases |todo|
      {
        var c :| c in todo;
        OfferedMore(sent, closing, targets - todo, full, c);
        assert targets - (todo - {c}) == (targets - todo) + {c};
        todo := todo - {c};
        if c in full { closing := closing + [c]; } else { sent := sent + [c]; }
      }
      BothDistinct(sent, closing);
      assert targets - todo == targets == (targets - full) + targets * full;
    }

    /** closeRooms: no connection keeps any of the rooms. */
    method CloseRooms(rooms: seq<Ulid>) returns (released: seq<Channel>)
      requires Valid()
      modifies this`roomSubs, this`workspaceSubs, this`conns, known
      ensures Valid()
      ensures Trimmed(old(conns), conns, None, Elements(rooms), {}) && GivesBack(released, old(conns), conns)
    {
      released := [];
      ghost var was := conns;
      NothingLost(conns);
      NothingTrimmed(conns, None);
      for i := 0 to |rooms|
        invariant Valid()
        invariant Trimmed(was, conns, None, Elements(rooms[..i]), {}) && GivesBack(released, was, conns)
      {
        ghost var mid := conns;
        var more := CloseRoom(rooms[i]);
        TrimmedTwice(was, mid, conns, None, Elements(rooms[..i]), {}, {rooms[i]}, {});
        assert Elements(rooms[..i + 1]) == Elements(rooms[..i]) + {rooms[i]};
        TrimmedShrinks(was, mid, None, Elements(rooms[..i]), {});
        TrimmedShrinks(mid, conns, None, {rooms[i]}, {});
        GivesBackAdds(released, more, was, mid, conns);
        released := released + more;
      }
    }

    method CloseRoom(room: Ulid) returns (released: seq<Channel>)
      requires Valid()
      modifies this`roomSubs, this`workspaceSubs, this`conns, known
      ensures Valid()
      ensures Trimmed(old(conns), conns, None, {room}, {}) && GivesBack(released, old(conns), conns)
    {
      released := [];
      ghost var was := conns;
      NothingLost(conns);
      var todo := MembersOf(roomSubs, room);
      RoomHolders(roomSubs, conns, room);
      while todo != {}
        invariant Valid() && todo <= Holders(was, RoomChannel(room))
        invariant Leaving(was, conns, todo, room, released)
        decreases |todo|
      {
        var c :| c in todo;
        released := CloseRoomOne(c, room, released, was, todo);
        todo := todo - {c};
      }
      RoomLeft(was, conns, room, released);
    }

    method CloseRoomOne(c: Client, room: Ulid, before: seq<Channel>, ghost was: map<Client, Info>, ghost todo: set<Client>)
      returns (released: seq<Channel>)
      requires Valid() && Leaving(was, conns, todo, room, before) && c in todo && c in Holders(was, RoomChannel(room))
      modifies this`roomSubs, this`workspaceSubs, this`conns, c
      ensures Valid()
      ensures Leaving(was, conns, todo - {c}, room, released)
    {
      LeaveRoomOne(was, conns, todo, room, c, before);
      ghost var next := conns[c := Drop(conns[c], RoomTopic(room))];
      var removed := UnsubscribeLocked(c, RoomTopic(room));
      assert conns == next;
      released := if removed then before + [RoomChannel(room)] else before;
    }

    /** revalidateUser, first region: the epoch moves and the topics in scope of the user's connections are collected. */
    method RevalidateBegin(user: Ulid, scope: Option<Ulid>) returns (r: Option<(set<Ulid>, set<Ulid>)>)
      requires Valid()
      modifies this`epochs
      ensures Valid()
      ensures r.Some? <==> HasUser(conns, user)
      ensures epochs == if r.None? then old(epochs) else EpochMoved(old(epochs), user)
      ensures r.Some? ==> AllInScope(conns, user, scope, r.value.0, r.value.1)
    {
      ListedUsers(byUser, conns, user);
      if user !in byUser { return None; }
      UserHolders(byUser, conns, user);
      epochs := EpochMoved(epochs, user);
      var rooms, workspaces: set<Ulid> := {}, {};
      var todo := byUser[user];
      while todo != {}
        invariant todo <= Holders(conns, UserChannel(user))
        invariant forall x :: x in rooms <==> exists c :: c in Holders(conns, UserChannel(user)) - todo && RoomInScope(conns[c], x, scope)
        invariant forall w :: w in workspaces <==>
                    exists c :: c in Holders(conns, UserChannel(user)) - todo && WorkspaceInScope(conns[c], w, scope)
        decreases |todo|
      {
        var c :| c in todo;
        assert conns[c] == c.Info();
        var moreRooms := set x | x in c.rooms && RoomInScope(c.Info(), x, scope);
        var moreWorkspaces := set w | w in c.workspaces && WorkspaceInScope(c.Info(), w, scope);
        rooms, workspaces := rooms + moreRooms, workspaces + moreWorkspaces;
        todo := todo - {c};
      }
      r := Some((rooms, workspaces));
    }

    /** revalidateUser, last region: of what was collected, the user's connections lose what is no longer allowed. */
    method RevalidateEnd(user: Ulid, rooms: set<Ulid>, workspaces: set<Ulid>, allowedRooms: set<Ulid>, allowedWorkspaces: set<Ulid>)
      returns (removals: seq<Removal>, released: seq<Channel>)
      requires Valid()
      modifies this`roomSubs, this`workspaceSubs, this`conns, known
      ensures Valid()
      ensures Trimmed(old(conns), conns, Some(user), rooms - allowedRooms, workspaces - allowedWorkspaces)
      ensures GivesBack(released, old(conns), conns) && released == Channels(TopicsOf(removals))
      ensures Distinct(removals)
      ensures forall c, t :: Removal(c, t) in removals <==>
                c in old(conns) && old(conns)[c].user == user && Subscribed(old(conns)[c], t)
                && Among(t, rooms - allowedRooms, workspaces - allowedWorkspaces)
    {
      removals := [];
      ghost var was := conns;
      NothingLost(conns);
      UserHolders(byUser, conns, user);
      var todo := MembersOf(byUser, user);
      assert TopicsOf([]) == [] && Channels([]) == [];
      while todo != {}
        invariant Valid() && todo <= Holders(was, UserChannel(user))
        invariant Pruning(was, conns, todo, user, rooms - allowedRooms, workspaces - allowedWorkspaces, removals)
        decreases |todo|
      {
        var c :| c in todo;
        removals := RevalidateOne(c, user, rooms - allowedRooms, workspaces - allowedWorkspaces, removals, was, todo);
        todo := todo - {c};
      }
      released := Channels(TopicsOf(removals));
      PruneDone(was, conns, user, rooms - allowedRooms, workspaces - allowedWorkspaces, removals);
    }

    method RevalidateOne(c: Client, user: Ulid, rooms: set<Ulid>, workspaces: set<Ulid>, before: seq<Removal>,
                         ghost was: map<Client, Info>, ghost todo: set<Client>) returns (removals: seq<Removal>)
      requires Valid() && Pruning(was, conns, todo, user, rooms, workspaces, before)
      requires c in todo && c in Holders(was, UserChannel(user))
      modifies this`roomSubs, this`workspaceSubs, this`conns, c
      ensures Valid()
      ensures Pruning(was, conns, todo - {c}, user, rooms, workspaces, removals)
    {
      ghost var mid := conns;
      var gone := DropTopics(c, rooms, workspaces);
      removals := before + seq(|gone|, i requires 0 <= i < |gone| => Removal(c, gone[i]));
      PruneMore(was, mid, conns, todo, user, rooms, workspaces, before, c, gone, removals);
    }

    /** The inner loops of revalidateUser, over one connection. */
    method DropTopics(c: Client, rooms: set<Ulid>, workspaces: set<Ulid>) returns (gone: seq<Topic>)
      requires Valid() && c in conns
      modifies this`roomSubs, this`workspaceSubs, this`conns, c
      ensures Valid()
      ensures conns == old(conns)[c := Trim(old(conns)[c], rooms, workspaces)]
      ensures Distinct(gone)
      ensures forall t :: t in gone <==> Subscribed(old(conns)[c], t) && Among(t, rooms, workspaces)
      ensures Shrinks(old(conns), conns) && GivesBack(Channels(gone), old(conns), conns)
    {
      ghost var was := conns;
      assert conns[c] == c.Info();
      var topics := (set r | r in c.rooms && r in rooms :: RoomTopic(r)) + set w | w in c.workspaces && w in workspaces :: WorkspaceTopic(w);
      assert forall t :: t in topics <==> Subscribed(was[c], t) && Among(t, rooms, workspaces);
      TrimSubscribed(was[c], topics, rooms, workspaces);
      gone := DropEach(c, topics);
    }

    method DropEach(c: Client, topics: set<Topic>) returns (gone: seq<Topic>)
      requires Valid() && c in conns && forall t :: t in topics ==> Subscribed(conns[c], t)
      modifies this`roomSubs, this`workspaceSubs, this`conns, c
      ensures Valid()
      ensures Elements(gone) == topics && Dropping(old(conns), conns, c, gone)
    {
      ghost var was := conns;
      gone := [];
      DroppingNone(was, c);
      var todo := topics;
      while todo != {}
        invariant Valid() && todo <= topics && Elements(gone) == topics - todo
        invariant Dropping(was, conns, c, gone)
        decreases |todo|
      {
        var t :| t in todo;
        gone := DropOne(c, t, gone, was);
        todo := todo - {t};
      }
    }

    method DropOne(c: Client, t: Topic, before: seq<Topic>, ghost was: map<Client, Info>) returns (gone: seq<Topic>)
      requires Valid() && c in conns && c in was && Dropping(was, conns, c, before) && t !in Elements(before) && Subscribed(was[c], t)
      modifies this`roomSubs, this`workspaceSubs, this`conns, c
      ensures Valid() && c in conns
      ensures Dropping(was, conns, c, gone) && Elements(gone) == Elements(before) + {t}
    {
      DropMore(was, conns, c, before, t);
      ghost var next := conns[c := Drop(conns[c], t)];
      var removed := UnsubscribeLocked(c, t);
      assert conns == next;
      gone := before + [t];
      assert Elements(gone) == Elements(before) + {t};
    }
  }

  datatype Removal = Removal(c: Client, t: Topic)

  function TopicsOf(removals: seq<Removal>): seq<Topic> {
    seq(|removals|, i requires 0 <= i < |removals| => removals[i].t)
  }

  /** The connections dealt with, each once: those with a full queue are to close, the others have the event. */
  ghost predicate Offered(sent: seq<Client>, closing: seq<Client>, done: set<Client>, full: set<Client>) {
    && Distinct(sent) && Elements(sent) == done - full
    && Distinct(closing) && Elements(closing) == done * full
  }

  lemma OfferedMore(sent: seq<Client>, closing: seq<Client>, done: set<Client>, full: set<Client>, c: Client)
    requires Offered(sent, closing, done, full) && c !in done
    ensures if c in full then Offered(sent, closing + [c], done + {c}, full) else Offered(sent + [c], closing, done + {c}, full)
  {
    if c in full {
      DistinctMore(closing, c);
      assert Elements(closing + [c]) == Elements(closing) + {c};
    } else {
      DistinctMore(sent, c);
      assert Elements(sent + [c]) == Elements(sent) + {c};
    }
  }

  predicate RoomInScope(info: Info, room: Ulid, scope: Option<Ulid>) {
    room in info.rooms && (scope.Some? ==> info.rooms[room] == scope.value)
  }

  predicate WorkspaceInScope(info: Info, workspace: Ulid, scope: Option<Ulid>) {
    workspace in info.workspaces && (scope.Some? ==> workspace == scope.value)
  }

  ghost predicate HasUser(conns: map<Client, Info>, user: Ulid) {
    exists c :: c in conns && conns[c].user == user
  }

  /** Exactly the rooms and workspaces in scope that the user's connections are subscribed to. */
  ghost predicate AllInScope(conns: map<Client, Info>, user: Ulid, scope: Option<Ulid>, rooms: set<Ulid>, workspaces: set<Ulid>) {
    && (forall x :: x in rooms <==> exists c :: c in conns && conns[c].user == user && RoomInScope(conns[c], x, scope))
    && (forall w :: w in workspaces <==> exists c :: c in conns && conns[c].user == user && WorkspaceInScope(conns[c], w, scope))
  }

  /** One connection has lost the listed topics, each once. */
  ghost predicate Dropping(was: map<Client, Info>, now: map<Client, Info>, c: Client, gone: seq<Topic>)
    requires c in was
  {
    && now == was[c := TrimTopics(was[c], Elements(gone))]
    && Distinct(gone) && Shrinks(was, now) && GivesBack(Channels(gone), was, now)
  }

  lemma DroppingNone(was: map<Client, Info>, c: Client)
    requires c in was
    ensures Dropping(was, was, c, [])
  {
    TrimOneMore(was[c], {}, RoomTopic(was[c].user));
    assert Elements<Topic>([]) == {};
    assert Channels([]) == [];
    NothingLost(was);
  }

  lemma DropMore(was: map<Client, Info>, now: map<Client, Info>, c: Client, gone: seq<Topic>, t: Topic)
    requires c in was && Dropping(was, now, c, gone) && t !in gone && Subscribed(was[c], t)
    ensures Dropping(was, now[c := Drop(now[c], t)], c, gone + [t])
  {
    TrimOneMore(was[c], Elements(gone), t);
    assert Elements(gone + [t]) == Elements(gone) + {t};
    DropLosesOne(now, c, t);
    GivesBackAdds(Channels(gone), [ChannelOf(t)], was, now, now[c := Drop(now[c], t)]);
    assert Channels(gone + [t]) == Channels(gone) + [ChannelOf(t)];
  }

  /** Of the user's connections all but those in `todo` were pruned, and `removals` lists each loss once. */
  ghost predicate Pruning(was: map<Client, Info>, now: map<Client, Info>, todo: set<Client>, user: Ulid,
                          rooms: set<Ulid>, workspaces: set<Ulid>, removals: seq<Removal>) {
    && now.Keys == was.Keys
    && (forall c :: c in was ==>
          now[c] == if c in Holders(was, UserChannel(user)) && c !in todo then Trim(was[c], rooms, workspaces) else was[c])
    && Shrinks(was, now) && GivesBack(Channels(TopicsOf(removals)), was, now)
    && Distinct(removals)
    && (forall e :: e in removals ==> RemovedRightly(e, was, todo, user, rooms, workspaces))
    && (forall c, t :: c in was && RemovedRightly(Removal(c, t), was, todo, user, rooms, workspaces) ==> Removal(c, t) in removals)
  }

  predicate RemovedRightly(e: Removal, was: map<Client, Info>, todo: set<Client>, user: Ulid, rooms: set<Ulid>, workspaces: set<Ulid>) {
    && e.c in was && was[e.c].user == user && e.c !in todo
    && Subscribed(was[e.c], e.t) && Among(e.t, rooms, workspaces)
  }

  lemma PruneDone(was: map<Client, Info>, now: map<Client, Info>, user: Ulid, rooms: set<Ulid>, workspaces: set<Ulid>, removals: seq<Removal>)
    requires Pruning(was, now, {}, user, rooms, workspaces, removals)
    ensures Trimmed(was, now, Some(user), rooms, workspaces)
    ensures forall c, t :: Removal(c, t) in removals <==>
              c in was && was[c].user == user && Subscribed(was[c], t) && Among(t, rooms, workspaces)
  {
    forall c, t ensures Removal(c, t) in removals <==>
                          c in was && was[c].user == user && Subscribed(was[c], t) && Among(t, rooms, workspaces) {
      if Removal(c, t) in removals {
        assert RemovedRightly(Removal(c, t), was, {}, user, rooms, workspaces);
      }
      if c in was && was[c].user == user && Subscribed(was[c], t) && Among(t, rooms, workspaces) {
        assert RemovedRightly(Removal(c, t), was, {}, user, rooms, workspaces);
      }
    }
  }

  lemma PruneMore(was: map<Client, Info>, mid: map<Client, Info>, now: map<Client, Info>, todo: set<Client>, user: Ulid,
                  rooms: set<Ulid>, workspaces: set<Ulid>, before: seq<Removal>, c: Client, gone: seq<Topic>, removals: seq<Removal>)
    requires Pruning(was, mid, todo, user, rooms, workspaces, before) && c in todo && c in Holders(was, UserChannel(user))
    requires now == mid[c := Trim(mid[c], rooms, workspaces)]
    requires Distinct(gone) && forall t :: t in gone <==> Subscribed(mid[c], t) && Among(t, rooms, workspaces)
    requires Shrinks(mid, now) && GivesBack(Channels(gone), mid, now)
    requires removals == before + seq(|gone|, i requires 0 <= i < |gone| => Removal(c, gone[i]))
    ensures Pruning(was, now, todo - {c}, user, rooms, workspaces, removals)
  {
    GivesBackAdds(Channels(TopicsOf(before)), Channels(gone), was, mid, now);
    assert Channels(TopicsOf(removals)) == Channels(TopicsOf(before)) + Channels(gone);
    forall i, j | 0 <= i < j < |removals| ensures removals[i] != removals[j] {
      if i < |before| <= j {
        assert removals[i] in before && RemovedRightly(removals[i], was, todo, user, rooms, workspaces);
      }
    }
    forall e | e in removals ensures RemovedRightly(e, was, todo - {c}, user, rooms, workspaces) {
      if e in before {
        assert RemovedRightly(e, was, todo, user, rooms, workspaces);
      } else {
        assert e.c == c && e.t in gone;
      }
    }
    forall x, t | x in was && RemovedRightly(Removal(x, t), was, todo - {c}, user, rooms, workspaces) ensures Removal(x, t) in removals {
      if x == c {
        assert t in gone;
        var i :| 0 <= i < |gone| && gone[i] == t;
        assert removals[|before| + i] == Removal(c, t);
      } else {
        assert RemovedRightly(Removal(x, t), was, todo, user, rooms, workspaces);
      }
    }
  }

  /** Of the connections holding the room only those still in `todo` have it; the others are as before. */
  ghost predicate Leaving(was: map<Client, Info>, now: map<Client, Info>, todo: set<Client>, room: Ulid, released: seq<Channel>) {
    && now.Keys == was.Keys
    && (forall c :: c in was ==>
          now[c] == if c in Holders(was, RoomChannel(room)) && c !in todo then Drop(was[c], RoomTopic(room)) else was[c])
    && Shrinks(was, now) && GivesBack(released, was, now)
  }

  lemma LeaveRoomOne(was: map<Client, Info>, mid: map<Client, Info>, todo: set<Client>, room: Ulid, c: Client, released: seq<Channel>)
    requires Leaving(was, mid, todo, room, released) && c in todo && c in Holders(was, RoomChannel(room))
    ensures Subscribed(mid[c], RoomTopic(room))
    ensures Leaving(was, mid[c := Drop(mid[c], RoomTopic(room))], todo - {c}, room, released + [RoomChannel(room)])
  {
    DropLosesOne(mid, c, RoomTopic(room));
    GivesBackAdds(released, [RoomChannel(room)], was, mid, mid[c := Drop(mid[c], RoomTopic(room))]);
  }

  lemma RoomLeft(was: map<Client, Info>, now: map<Client, Info>, room: Ulid, released: seq<Channel>)
    requires Leaving(was, now, {}, room, released)
    ensures Trimmed(was, now, None, {room}, {})
  {
    forall c | c in was ensures now[c] == Trim(was[c], {room}, {}) {
      DropNothing(was[c], RoomTopic(room));
      assert Drop(was[c], RoomTopic(room)) == Trim(was[c], {room}, {});
    }
  }

  lemma RoomHolders(roomSubs: Index, conns: map<Client, Info>, room: Ulid)
    requires Inverse(roomSubs, conns, ByRoom)
    ensures MembersOf(roomSubs, room) == Holders(conns, RoomChannel(room))
  {
    forall c | c in Holders(conns, RoomChannel(room)) ensures c in MembersOf(roomSubs, room) {
      assert Has(conns[c], ByRoom, room);
    }
  }

  /** The union of the people in the rooms, in the workspaces, and the users named. */
  predicate Addressed(info: Info, rooms: seq<Ulid>, workspaces: seq<Ulid>, users: seq<Ulid>) {
    (exists r :: r in rooms && r in info.rooms) || (exists w :: w in workspaces && w in info.workspaces) || info.user in users
  }

  lemma Reached(byUser: Index, roomSubs: Index, workspaceSubs: Index, conns: map<Client, Info>, c: Client,
                rooms: seq<Ulid>, workspaces: seq<Ulid>, users: seq<Ulid>)
    requires Inverse(byUser, conns, ByUser) && Inverse(roomSubs, conns, ByRoom) && Inverse(workspaceSubs, conns, ByWorkspace)
    requires c in conns
    ensures Addressed(conns[c], rooms, workspaces, users) <==>
              || (exists k :: k in rooms && c in MembersOf(roomSubs, k))
              || (exists k :: k in workspaces && c in MembersOf(workspaceSubs, k))
              || (exists k :: k in users && c in MembersOf(byUser, k))
  {
    forall k ensures k in conns[c].rooms <==> c in MembersOf(roomSubs, k) { assert Has(conns[c], ByRoom, k) <==> k in conns[c].rooms; }
    forall k ensures k in conns[c].workspaces <==> c in MembersOf(workspaceSubs, k) {
      assert Has(conns[c], ByWorkspace, k) <==> k in conns[c].workspaces;
    }
    forall k ensures conns[c].user == k <==> c in MembersOf(byUser, k) { assert Has(conns[c], ByUser, k) <==> conns[c].user == k; }
  }

  lemma UserHolders(byUser: Index, conns: map<Client, Info>, user: Ulid)
    requires Inverse(byUser, conns, ByUser)
    ensures MembersOf(byUser, user) == Holders(conns, UserChannel(user))
  {
    forall c | c in Holders(conns, UserChannel(user)) ensures c in MembersOf(byUser, user) {
      assert Has(conns[c], ByUser, user);
    }
  }

  /** A user is listed exactly while one of the user's connections is registered. */
  lemma ListedUsers(byUser: Index, conns: map<Client, Info>, user: Ulid)
    requires Inverse(byUser, conns, ByUser)
    ensures user in byUser <==> HasUser(conns, user)
  {
    if c :| c in conns && conns[c].user == user {
      assert Has(conns[c], ByUser, user);
    } else if user in byUser {
      var c :| c in byUser[user];
      assert c in MembersOf(byUser, user);
    }
  }

  /** A connection that is not registered is in no set of the indexes. */
  lemma AbsentMember(roomSubs: Index, workspaceSubs: Index, byUser: Index, bySession: Index, conns: map<Client, Info>, c: Client, t: Topic)
    requires IndexesMatch(byUser, bySession, roomSubs, workspaceSubs, conns) && c !in conns
    ensures WithoutRoom(roomSubs, c, t) == roomSubs && WithoutWorkspace(workspaceSubs, c, t) == workspaceSubs
  {
    match t
    case RoomTopic(r) =>
      assert c !in MembersOf(roomSubs, r);
      if r in roomSubs { assert roomSubs[r] - {c} == roomSubs[r]; }
    case WorkspaceTopic(w) =>
      assert c !in MembersOf(workspaceSubs, w);
      if w in workspaceSubs { assert workspaceSubs[w] - {c} == workspaceSubs[w]; }
  }
}
