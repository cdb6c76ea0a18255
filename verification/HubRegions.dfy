/** Each region the Hub runs under its mutex is a step of HubProtocol.

    Connections of the protocol are names; a naming pairs them with Client objects. A region's method is run on a Hub that
    shows the same connections and epochs as a state `s`, and afterwards the Hub shows the next state `n`; what it hands back
    for release is what `n` owes more than `s`. */
module HubRegions {
  import opened Common
  import opened HubModel
  import H = Hub
  import opened HubProtocol

  type Conns = map<H.Client, Info>

  /** Names of Client objects, both ways. */
  datatype Naming = Naming(id: map<H.Client, Ulid>, client: map<Ulid, H.Client>)

  ghost predicate Proper(names: Naming) {
    && (forall c :: c in names.id ==> names.id[c] in names.client && names.client[names.id[c]] == c)
    && (forall x :: x in names.client ==> names.client[x] in names.id && names.id[names.client[x]] == x)
  }

  /** The same connections, by object and by name. */
  ghost predicate Named(names: Naming, conns: Conns, named: map<Ulid, Info>) {
    && (forall c :: c in conns ==> c in names.id && names.id[c] in named && named[names.id[c]] == conns[c])
    && (forall x :: x in named ==> x in names.client && names.client[x] in conns)
  }

  ghost predicate Shows(names: Naming, conns: Conns, known: set<H.Client>, epochs: map<Ulid, nat>, shuttingDown: bool, s: State) {
    && Proper(names) && names.id.Keys <= known && Named(names, conns, s.conns)
    && epochs == s.epochs && shuttingDown == s.shuttingDown
  }

  // ---- renaming ----

  lemma {:induction false} SameSize(names: Naming, objects: set<H.Client>, ids: set<Ulid>)
    requires Proper(names)
    requires forall c :: c in objects ==> c in names.id && names.id[c] in ids
    requires forall x :: x in ids ==> x in names.client && names.client[x] in objects
    ensures |objects| == |ids|
    decreases |objects|
  {
    if c :| c in objects {
      SameSize(names, objects - {c}, ids - {names.id[c]});
    } else if x :| x in ids {
      assert names.client[x] in objects;
    }
  }

  /** Renaming keeps what a change gives up, channel by channel. */
  lemma SameLost(names: Naming, before: Conns, after: Conns, was: map<Ulid, Info>, now: map<Ulid, Info>, ch: Channel)
    requires Proper(names) && Named(names, before, was) && Named(names, after, now)
    ensures Lost(before, after, ch) == Lost(was, now, ch)
  {
    var objects, ids := Holders(before, ch) - Holders(after, ch), Holders(was, ch) - Holders(now, ch);
    forall c | c in objects ensures c in names.id && names.id[c] in ids {
      assert names.client[names.id[c]] == c;
    }
    forall x | x in ids ensures x in names.client && names.client[x] in objects {
      assert names.id[names.client[x]] == x;
    }
    SameSize(names, objects, ids);
  }

  lemma OwesReleased(names: Naming, before: Conns, after: Conns, released: seq<Channel>, s: State, n: State)
    requires Proper(names) && Named(names, before, s.conns) && Named(names, after, n.conns)
    requires GivesBack(released, before, after) && n.owed == s.owed + multiset(released)
    ensures OwesLost(s, n)
  {
    forall ch ensures n.owed[ch] == s.owed[ch] + Lost(s.conns, n.conns, ch) {
      SameLost(names, before, after, s.conns, n.conns, ch);
      assert multiset(released)[ch] == Lost(before, after, ch);
    }
  }

  lemma NamedSet(names: Naming, conns: Conns, named: map<Ulid, Info>, c: H.Client, info: Info)
    requires Proper(names) && Named(names, conns, named) && c in names.id
    ensures Named(names, conns[c := info], named[names.id[c] := info])
  {
  }

  lemma NamedGone(names: Naming, conns: Conns, named: map<Ulid, Info>, c: H.Client)
    requires Proper(names) && Named(names, conns, named) && c in conns
    ensures Named(names, conns - {c}, named - {names.id[c]})
  {
  }

  lemma NamedConn(names: Naming, conns: Conns, named: map<Ulid, Info>, user: Ulid)
    requires Proper(names) && Named(names, conns, named)
    ensures H.HasUser(conns, user) <==> exists x :: x in named && named[x].user == user
  {
    if c :| c in conns && conns[c].user == user { assert named[names.id[c]].user == user; }
    if x :| x in named && named[x].user == user { assert conns[names.client[x]].user == user; }
  }

  /** The records that Client objects have after a change, under their names. */
  ghost function Renamed(names: Naming, conns: Conns, named: map<Ulid, Info>, after: Conns): (now: map<Ulid, Info>)
    requires Proper(names) && Named(names, conns, named) && after.Keys == conns.Keys
    ensures Named(names, after, now) && now.Keys == named.Keys
    ensures forall x :: x in named ==> now[x] == after[names.client[x]]
  {
    map x | x in named :: after[names.client[x]]
  }

  lemma RenamedTrims(names: Naming, conns: Conns, named: map<Ulid, Info>, after: Conns, only: Option<Ulid>,
                     rooms: set<Ulid>, workspaces: set<Ulid>)
    requires Proper(names) && Named(names, conns, named) && Trimmed(conns, after, only, rooms, workspaces)
    ensures Trimmed(named, Renamed(names, conns, named, after), only, rooms, workspaces)
  {
    forall x | x in named ensures names.id[names.client[x]] == x && conns[names.client[x]] == named[x] {}
  }

  // ---- the regions ----

  method Start() returns (h: H.Hub, ghost names: Naming)
    ensures h.Valid() && fresh(h) && names == Naming(map[], map[])
    ensures Shows(names, h.conns, h.known, h.epochs, h.shuttingDown, INITIAL)
  {
    h := new H.Hub();
    names := Naming(map[], map[]);
  }

  lemma ProperMore(names: Naming, c: H.Client, id: Ulid)
    requires Proper(names) && c !in names.id && id !in names.client
    ensures Proper(Naming(names.id[c := id], names.client[id := c]))
  {
  }

  lemma NamedMore(names: Naming, conns: Conns, named: map<Ulid, Info>, c: H.Client, id: Ulid)
    requires Proper(names) && Named(names, conns, named) && c !in names.id && id !in names.client
    ensures Named(Naming(names.id[c := id], names.client[id := c]), conns, named)
  {
  }

  ghost function Entered(s: State, o: Ulid): (n: State)
    requires o in s.ops && s.ops[o].Entering?
    ensures Next(s, RegisterEnd(o), n)
  {
    var op := s.ops[o];
    if s.shuttingDown then GiveUp(s, o, UserChannel(op.user))
    else s.(ops := s.ops - {o}, conns := s.conns[op.c := Info(op.user, op.session, map[], {}, false)])
  }

  /** The last region of Register: the connection gets the name it was announced under. */
  method RegisterRegion(h: H.Hub, ghost names: Naming, ghost s: State, user: Ulid, session: Ulid, ghost o: Ulid)
    returns (c: H.Client, released: seq<Channel>, ghost more: Naming, ghost n: State)
    requires h.Valid() && Shows(names, h.conns, h.known, h.epochs, h.shuttingDown, s)
    requires o in s.ops && s.ops[o].Entering? && s.ops[o].user == user && s.ops[o].session == session && s.ops[o].c !in names.client
    modifies h
    ensures h.Valid() && Next(s, RegisterEnd(o), n) && Shows(more, h.conns, h.known, h.epochs, h.shuttingDown, n)
    ensures n.owed == s.owed + multiset(released) && more == Naming(names.id[c := s.ops[o].c], names.client[s.ops[o].c := c])
  {
    ghost var was := h.conns;
    c, released := h.Register(user, session);
    more := Naming(names.id[c := s.ops[o].c], names.client[s.ops[o].c := c]);
    n := Entered(s, o);
    ProperMore(names, c, s.ops[o].c);
    NamedMore(names, was, s.conns, c, s.ops[o].c);
    NamedSet(more, was, s.conns, c, Info(user, session, map[], {}, false));
  }

  method UnregisterRegion(h: H.Hub, c: H.Client, ghost names: Naming, ghost s: State) returns (released: seq<Channel>, ghost n: State)
    requires h.Valid() && Shows(names, h.conns, h.known, h.epochs, h.shuttingDown, s) && c in h.conns && c in h.known
    modifies h, c`registered
    ensures h.Valid() && c in names.id && Next(s, Unregister(names.id[c]), n) && Shows(names, h.conns, h.known, h.epochs, h.shuttingDown, n)
    ensures n.owed == s.owed + multiset(released)
  {
    ghost var was := h.conns;
    released := h.UnregisterBegin(c);
    n := s.(conns := s.conns - {names.id[c]}, owed := s.owed + multiset(released), epochs := h.epochs);
    NamedGone(names, was, s.conns, c);
    OwesReleased(names, was, h.conns, released, s, n);
    H.ListedUsers(h.byUser, h.conns, c.user);
    NamedConn(names, h.conns, n.conns, c.user);
  }

  lemma UnsubscribeNamed(names: Naming, conns: Conns, s: State, c: H.Client, t: Topic, released: seq<Channel>) returns (n: State)
    requires Proper(names) && Named(names, conns, s.conns) && c in conns
    requires GivesBack(released, conns, conns[c := Drop(conns[c], t)])
    ensures c in names.id && Next(s, Unsubscribe(names.id[c], t), n) && Named(names, conns[c := Drop(conns[c], t)], n.conns)
    ensures n == s.(conns := n.conns, owed := s.owed + multiset(released))
  {
    n := s.(conns := s.conns[names.id[c] := Drop(conns[c], t)], owed := s.owed + multiset(released));
    NamedSet(names, conns, s.conns, c, Drop(conns[c], t));
    OwesReleased(names, conns, conns[c := Drop(conns[c], t)], released, s, n);
  }

  method UnsubscribeRegion(h: H.Hub, c: H.Client, t: Topic, ghost names: Naming, ghost s: State)
    returns (released: seq<Channel>, ghost n: State)
    requires h.Valid() && Shows(names, h.conns, h.known, h.epochs, h.shuttingDown, s) && c in h.conns && c in h.known
    modifies h`roomSubs, h`workspaceSubs, h`conns, c`rooms, c`workspaces
    ensures h.Valid() && c in names.id && Next(s, Unsubscribe(names.id[c], t), n) && Shows(names, h.conns, h.known, h.epochs, h.shuttingDown, n)
    ensures n.owed == s.owed + multiset(released)
  {
    ghost var was := h.conns;
    released := h.Unsubscribe(c, t);
    ghost var now := was[c := Drop(was[c], t)];
    assert h.conns == now;
    n := UnsubscribeNamed(names, was, s, c, t, released);
  }

  /** The first region of Subscribe goes on exactly when the protocol's step can be taken. */
  method SubscribeBeginRegion(h: H.Hub, c: H.Client, t: Topic, ghost names: Naming, ghost s: State, ghost o: Ulid)
    returns (r: H.Begin, ghost n: State)
    requires h.Valid() && Shows(names, h.conns, h.known, h.epochs, h.shuttingDown, s) && c in h.known && c in names.id && o !in s.ops
    ensures r.Proceed? ==> Next(s, SubscribeBegin(o, names.id[c], t), n) && Shows(names, h.conns, h.known, h.epochs, h.shuttingDown, n) && n.ops[o].epoch == r.epoch
    ensures !r.Proceed? ==> !Next(s, SubscribeBegin(o, names.id[c], t), s.(ops := s.ops[o := Authorizing(names.id[c], c.user, t, EpochOf(h.epochs, c.user))]))
  {
    r := h.SubscribeBegin(c, t);
    n := s.(ops := s.ops[o := Authorizing(names.id[c], c.user, t, EpochOf(h.epochs, c.user))]);
    if c in h.conns { assert h.conns[c] == c.Info(); }
    NamedRecord(names, h.conns, s.conns, c);
  }

  ghost function Finished(s: State, o: Ulid, added: bool): State
    requires o in s.ops && s.ops[o].Acquiring? && (added ==> s.ops[o].c in s.conns)
  {
    var op := s.ops[o];
    if added then s.(ops := s.ops - {o}, conns := s.conns[op.c := Add(s.conns[op.c], op.t, op.workspace)])
    else GiveUp(s, o, ChannelOf(op.t))
  }

  /** A named connection is registered under its name, with its record. */
  lemma NamedRecord(names: Naming, conns: Conns, named: map<Ulid, Info>, c: H.Client)
    requires Proper(names) && Named(names, conns, named) && c in names.id
    ensures c in conns <==> names.id[c] in named
    ensures c in conns ==> named[names.id[c]] == conns[c]
  {
    assert names.client[names.id[c]] == c;
  }

  lemma FinishNamed(names: Naming, conns: Conns, s: State, o: Ulid, c: H.Client, added: bool, released: seq<Channel>) returns (n: State)
    requires Proper(names) && Named(names, conns, s.conns) && c in names.id
    requires o in s.ops && s.ops[o].Acquiring? && s.ops[o].c == names.id[c]
    requires released == if added then [] else [ChannelOf(s.ops[o].t)]
    requires var op := s.ops[o];
             added <==> HubProtocol.Epoch(s, op.user) == op.epoch && c in conns && !Subscribed(conns[c], op.t)
    ensures var op := s.ops[o];
            && Next(s, SubscribeEnd(o), n)
            && Named(names, if added then conns[c := Add(conns[c], op.t, op.workspace)] else conns, n.conns)
            && n.epochs == s.epochs && n.shuttingDown == s.shuttingDown && n.owed == s.owed + multiset(released)
  {
    NamedRecord(names, conns, s.conns, c);
    n := Finished(s, o, added);
    if added { NamedSet(names, conns, s.conns, c, Add(conns[c], s.ops[o].t, s.ops[o].workspace)); }
  }

  /** The last region of Subscribe. */
  method SubscribeEndRegion(h: H.Hub, c: H.Client, t: Topic, workspace: Ulid, epoch: nat,
                            ghost names: Naming, ghost s: State, ghost o: Ulid)
    returns (r: H.Finish, released: seq<Channel>, ghost n: State)
    requires h.Valid() && Shows(names, h.conns, h.known, h.epochs, h.shuttingDown, s) && c in h.known && c in names.id
    requires o in s.ops && s.ops[o] == Acquiring(names.id[c], c.user, t, epoch, workspace)
    modifies h`roomSubs, h`workspaceSubs, h`conns, c`rooms, c`workspaces
    ensures h.Valid() && Next(s, SubscribeEnd(o), n) && Shows(names, h.conns, h.known, h.epochs, h.shuttingDown, n)
    ensures n.owed == s.owed + multiset(released)
  {
    ghost var was := h.conns;
    ghost var added := EpochOf(h.epochs, c.user) == epoch && c.registered && !c.Subscribed(t);
    assert c in was ==> was[c] == c.Info();
    assert added <==> EpochOf(h.epochs, c.user) == epoch && c in was && !Subscribed(was[c], t);
    r, released := h.SubscribeEnd(c, t, workspace, epoch);
    n := FinishNamed(names, was, s, o, c, added, released);
  }

  /** Connections lost topics; nothing else happened to them. */
  lemma TrimNamed(names: Naming, was: Conns, now: Conns, s: State, only: Option<Ulid>, rooms: set<Ulid>, workspaces: set<Ulid>,
                  released: seq<Channel>) returns (n: State)
    requires Proper(names) && Named(names, was, s.conns)
    requires Trimmed(was, now, only, rooms, workspaces) && GivesBack(released, was, now)
    ensures n == s.(conns := n.conns, owed := s.owed + multiset(released)) && Named(names, now, n.conns)
    ensures Trimmed(s.conns, n.conns, only, rooms, workspaces) && OwesLost(s, n)
  {
    n := s.(conns := Renamed(names, was, s.conns, now), owed := s.owed + multiset(released));
    RenamedTrims(names, was, s.conns, now, only, rooms, workspaces);
    OwesReleased(names, was, now, released, s, n);
  }

  method CloseRoomsRegion(h: H.Hub, rooms: seq<Ulid>, ghost names: Naming, ghost s: State)
    returns (released: seq<Channel>, ghost n: State)
    requires h.Valid() && Shows(names, h.conns, h.known, h.epochs, h.shuttingDown, s)
    modifies h`roomSubs, h`workspaceSubs, h`conns, h.known
    ensures h.Valid() && Next(s, CloseRooms(Elements(rooms)), n) && Shows(names, h.conns, h.known, h.epochs, h.shuttingDown, n)
    ensures n.owed == s.owed + multiset(released)
  {
    ghost var was := h.conns;
    released := h.CloseRooms(rooms);
    n := TrimNamed(names, was, h.conns, s, None, Elements(rooms), {}, released);
  }

  /** The first region of revalidateUser; without anything collected there is no operation to go on with. */
  method RevalidateBeginRegion(h: H.Hub, user: Ulid, scope: Option<Ulid>, ghost names: Naming, ghost s: State, ghost o: Ulid)
    returns (r: Option<(set<Ulid>, set<Ulid>)>, ghost n: State)
    requires h.Valid() && Shows(names, h.conns, h.known, h.epochs, h.shuttingDown, s) && o !in s.ops
    modifies h`epochs
    ensures h.Valid() && Next(s, RevalidateBegin(o, user, scope), n) && Shows(names, h.conns, h.known, h.epochs, h.shuttingDown, n)
    ensures n.ops == if r.Some? && r.value != ({}, {}) then s.ops[o := Collected(user, r.value.0, r.value.1)] else s.ops
  {
    ghost var conns := h.conns;
    r := h.RevalidateBegin(user, scope);
    n := s.(epochs := h.epochs, ops := if r.Some? && r.value != ({}, {}) then s.ops[o := Collected(user, r.value.0, r.value.1)] else s.ops);
    RevalidateNamed(names, conns, s, o, user, scope, r, n);
  }

  lemma RevalidateNamed(names: Naming, conns: Conns, s: State, o: Ulid, user: Ulid, scope: Option<Ulid>,
                        r: Option<(set<Ulid>, set<Ulid>)>, n: State)
    requires Proper(names) && Named(names, conns, s.conns) && o !in s.ops
    requires r.Some? <==> H.HasUser(conns, user)
    requires r.Some? ==> H.AllInScope(conns, user, scope, r.value.0, r.value.1)
    requires n == s.(epochs := n.epochs, ops := n.ops)
    requires n.epochs == if r.None? then s.epochs else EpochMoved(s.epochs, user)
    requires n.ops == if r.Some? && r.value != ({}, {}) then s.ops[o := Collected(user, r.value.0, r.value.1)] else s.ops
    ensures Next(s, RevalidateBegin(o, user, scope), n)
  {
    if r.Some? {
      var m := BeginNamed(names, conns, s, o, user, scope, r.value.0, r.value.1);
      assert m == n;
    } else {
      NobodyNamed(names, conns, s, o, user, scope);
      assert s == n;
    }
  }

  lemma BeginNamed(names: Naming, conns: Conns, s: State, o: Ulid, user: Ulid, scope: Option<Ulid>, rooms: set<Ulid>, workspaces: set<Ulid>)
    returns (n: State)
    requires Proper(names) && Named(names, conns, s.conns) && o !in s.ops && H.HasUser(conns, user)
    requires H.AllInScope(conns, user, scope, rooms, workspaces)
    ensures Next(s, RevalidateBegin(o, user, scope), n)
    ensures n == s.(epochs := EpochMoved(s.epochs, user), ops := n.ops)
    ensures n.ops == if rooms == {} && workspaces == {} then s.ops else s.ops[o := Collected(user, rooms, workspaces)]
  {
    NamedConn(names, conns, s.conns, user);
    CollectsNamed(names, conns, s, user, scope, rooms, workspaces);
    n := Begun(s, o, user, scope, rooms, workspaces);
  }

  lemma NobodyNamed(names: Naming, conns: Conns, s: State, o: Ulid, user: Ulid, scope: Option<Ulid>)
    requires Proper(names) && Named(names, conns, s.conns) && o !in s.ops && !H.HasUser(conns, user)
    ensures Next(s, RevalidateBegin(o, user, scope), s)
  {
    NamedConn(names, conns, s.conns, user);
  }

  ghost function Begun(s: State, o: Ulid, user: Ulid, scope: Option<Ulid>, rooms: set<Ulid>, workspaces: set<Ulid>): (n: State)
    requires o !in s.ops && HasConn(s, user) && Collects(s, user, scope, rooms, workspaces)
    ensures Next(s, RevalidateBegin(o, user, scope), n)
  {
    var moved := s.(epochs := EpochMoved(s.epochs, user));
    if rooms == {} && workspaces == {} then moved else moved.(ops := s.ops[o := Collected(user, rooms, workspaces)])
  }

  lemma CollectsNamed(names: Naming, conns: Conns, s: State, user: Ulid, scope: Option<Ulid>, rooms: set<Ulid>, workspaces: set<Ulid>)
    requires Proper(names) && Named(names, conns, s.conns)
    requires H.AllInScope(conns, user, scope, rooms, workspaces)
    ensures Collects(s, user, scope, rooms, workspaces)
  {
    forall t ensures Among(t, rooms, workspaces) <==> exists x :: x in s.conns && s.conns[x].user == user && Scoped(s.conns[x], t, scope) {
      assert forall info :: Scoped(info, t, scope) <==>
          if t.RoomTopic? then H.RoomInScope(info, t.room, scope) else H.WorkspaceInScope(info, t.workspace, scope);
      if x :| x in s.conns && s.conns[x].user == user && Scoped(s.conns[x], t, scope) {
        assert conns[names.client[x]] == s.conns[x];
      }
      if Among(t, rooms, workspaces) {
        var c :| c in conns && conns[c].user == user && Scoped(conns[c], t, scope);
        assert s.conns[names.id[c]] == conns[c];
      }
    }
  }

  /** The last region of revalidateUser. */
  method RevalidateEndRegion(h: H.Hub, ghost names: Naming, ghost s: State, ghost o: Ulid,
                             user: Ulid, rooms: set<Ulid>, workspaces: set<Ulid>, allowedRooms: set<Ulid>, allowedWorkspaces: set<Ulid>)
    returns (released: seq<Channel>, ghost n: State)
    requires h.Valid() && Shows(names, h.conns, h.known, h.epochs, h.shuttingDown, s)
    requires o in s.ops && s.ops[o] == ReadBoth(user, rooms, workspaces, allowedRooms, allowedWorkspaces)
    modifies h`roomSubs, h`workspaceSubs, h`conns, h.known
    ensures h.Valid() && Next(s, RevalidateEnd(o), n) && Shows(names, h.conns, h.known, h.epochs, h.shuttingDown, n)
    ensures n.owed == s.owed + multiset(released)
  {
    ghost var was := h.conns;
    var removals;
    removals, released := h.RevalidateEnd(user, rooms, workspaces, allowedRooms, allowedWorkspaces);
    n := TrimNamed(names, was, h.conns, s, Some(user), rooms - allowedRooms, workspaces - allowedWorkspaces, released);
    n := n.(ops := s.ops - {o});
  }

  method ShutdownRegion(h: H.Hub, ghost names: Naming, ghost s: State) returns (ghost n: State)
    requires h.Valid() && Shows(names, h.conns, h.known, h.epochs, h.shuttingDown, s)
    modifies h`shuttingDown, h`drained
    ensures h.Valid() && Next(s, Shutdown, n) && Shows(names, h.conns, h.known, h.epochs, h.shuttingDown, n)
  {
    h.Shutdown();
    n := s.(shuttingDown := true);
  }

  // ---- a topic released twice ----

  /** Unsubscribing after leaving gives a channel back a second time: leaving released it, and so does this. */
  method UnsubscribeAfterLeaving(h: H.Hub, c: H.Client, t: Topic) returns (leaving: seq<Channel>, late: seq<Channel>)
    requires h.Valid() && c in h.conns && c in h.known && Subscribed(h.conns[c], t)
    modifies h, c
    ensures h.Valid() && h.conns == old(h.conns) - {c}
    ensures GivesBack(leaving, old(h.conns), h.conns) && ChannelOf(t) in leaving
    ensures late == [ChannelOf(t)] && !GivesBack(leaving + late, old(h.conns), h.conns)
  {
    assert h.conns[c] == c.Info();
    ghost var was := h.conns;
    leaving := h.UnregisterBegin(c);
    assert c in Holders(was, ChannelOf(t)) - Holders(h.conns, ChannelOf(t));
    assert multiset(leaving)[ChannelOf(t)] == Lost(was, h.conns, ChannelOf(t));
    late := h.Unsubscribe(c, t);
    assert multiset(leaving + late)[ChannelOf(t)] == multiset(leaving)[ChannelOf(t)] + 1;
  }
}
