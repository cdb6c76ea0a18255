/** The registered connections of one instance and what they are subscribed to.

    The six indexes of internal/chat/realtime/hub.go are projections of this one map (module Hub proves it), and the
    interleavings of module HubProtocol act on it. The type parameter names connections. */
module HubModel {
  import opened Common

  /** Most subscriptions of one connection, rooms and workspaces together. */
  const MAX_SUBSCRIPTIONS := 500

  datatype Topic = RoomTopic(room: Ulid) | WorkspaceTopic(workspace: Ulid)

  /** `rooms` maps a subscribed room to its workspace. */
  datatype Info = Info(user: Ulid, session: Ulid, rooms: map<Ulid, Ulid>, workspaces: set<Ulid>, active: bool)

  /** The epoch of a user; users without a recorded one are at zero. */
  function EpochOf(epochs: map<Ulid, nat>, user: Ulid): nat {
    if user in epochs then epochs[user] else 0
  }

  function EpochMoved(epochs: map<Ulid, nat>, user: Ulid): map<Ulid, nat> {
    epochs[user := EpochOf(epochs, user) + 1]
  }

  function ChannelOf(t: Topic): Channel {
    match t
    case RoomTopic(r) => RoomChannel(r)
    case WorkspaceTopic(w) => WorkspaceChannel(w)
  }

  /** A connection holds one reference on its user's channel and one on each topic. */
  predicate Holds(info: Info, ch: Channel) {
    match ch
    case RoomChannel(r) => r in info.rooms
    case WorkspaceChannel(w) => w in info.workspaces
    case UserChannel(u) => info.user == u
  }

  predicate Subscribed(info: Info, t: Topic) {
    Holds(info, ChannelOf(t))
  }

  function Size(info: Info): nat {
    |info.rooms| + |info.workspaces|
  }

  function Add(info: Info, t: Topic, workspace: Ulid): Info {
    match t
    case RoomTopic(r) => info.(rooms := info.rooms[r := workspace])
    case WorkspaceTopic(w) => info.(workspaces := info.workspaces + {w})
  }

  function Drop(info: Info, t: Topic): Info {
    match t
    case RoomTopic(r) => info.(rooms := info.rooms - {r})
    case WorkspaceTopic(w) => info.(workspaces := info.workspaces - {w})
  }

  /** Without the given rooms and workspaces. */
  function Trim(info: Info, rooms: set<Ulid>, workspaces: set<Ulid>): Info {
    info.(rooms := info.rooms - rooms, workspaces := info.workspaces - workspaces)
  }

  /** Every connection, or only those of one user, lost the given rooms and workspaces; nothing else changed. */
  ghost predicate Trimmed<C>(before: map<C, Info>, after: map<C, Info>, only: Option<Ulid>, rooms: set<Ulid>, workspaces: set<Ulid>) {
    && after.Keys == before.Keys
    && forall c :: c in before ==>
         after[c] == if only.None? || only.value == before[c].user then Trim(before[c], rooms, workspaces) else before[c]
  }

  function Holders<C>(conns: map<C, Info>, ch: Channel): set<C> {
    set c | c in conns && Holds(conns[c], ch)
  }

  function Held<C>(conns: map<C, Info>, ch: Channel): nat {
    |Holders(conns, ch)|
  }

  /** How many references on a channel a change gives back. */
  function Lost<C>(before: map<C, Info>, after: map<C, Info>, ch: Channel): nat {
    |Holders(before, ch) - Holders(after, ch)|
  }

  /** Nobody gains a channel. */
  ghost predicate Shrinks<C>(before: map<C, Info>, after: map<C, Info>) {
    forall c :: c in after ==> c in before && forall ch :: Holds(after[c], ch) ==> Holds(before[c], ch)
  }

  /** What shrinking connections give back is exactly what they held before less what they hold after. */
  lemma LostIsHeldLess<C>(before: map<C, Info>, after: map<C, Info>, ch: Channel)
    requires Shrinks(before, after)
    ensures Held(before, ch) == Held(after, ch) + Lost(before, after, ch)
  {
    assert Holders(after, ch) <= Holders(before, ch);
    SplitSize(Holders(before, ch), Holders(after, ch));
  }

  /** Consecutive losses add up. */
  lemma LostAdds<C>(a: map<C, Info>, b: map<C, Info>, c: map<C, Info>, ch: Channel)
    requires Shrinks(a, b) && Shrinks(b, c)
    ensures Lost(a, c, ch) == Lost(a, b, ch) + Lost(b, c, ch)
  {
    var x, y, z := Holders(a, ch), Holders(b, ch), Holders(c, ch);
    assert x - z == (x - y) + (y - z);
    assert (x - y) !! (y - z);
  }

  lemma TrimmedShrinks<C>(before: map<C, Info>, after: map<C, Info>, only: Option<Ulid>, rooms: set<Ulid>, workspaces: set<Ulid>)
    requires Trimmed(before, after, only, rooms, workspaces)
    ensures Shrinks(before, after)
  {
  }

  /** A topic more: its channel gains one holder, no other channel changes. */
  lemma AddHolds(info: Info, t: Topic, workspace: Ulid, ch: Channel)
    ensures Holds(Add(info, t, workspace), ch) <==> Holds(info, ch) || ch == ChannelOf(t)
  {
  }

  lemma DropHolds(info: Info, t: Topic, ch: Channel)
    ensures Holds(Drop(info, t), ch) <==> Holds(info, ch) && ch != ChannelOf(t)
  {
  }

  lemma DropNothing(info: Info, t: Topic)
    ensures !Subscribed(info, t) ==> Drop(info, t) == info
  {
    if !Subscribed(info, t) {
      match t
      case RoomTopic(r) => assert info.rooms - {r} == info.rooms;
      case WorkspaceTopic(w) => assert info.workspaces - {w} == info.workspaces;
    }
  }

  /** A list of releases gives back exactly what a change lost, channel by channel. */
  ghost predicate GivesBack<C>(released: seq<Channel>, before: map<C, Info>, after: map<C, Info>) {
    forall ch {:trigger Lost(before, after, ch)} {:trigger multiset(released)[ch]} :: multiset(released)[ch] == Lost(before, after, ch)
  }

  lemma NothingLost<C>(conns: map<C, Info>)
    ensures GivesBack([], conns, conns)
  {
    forall ch ensures Lost(conns, conns, ch) == 0 {
      assert Holders(conns, ch) - Holders(conns, ch) == {};
    }
  }

  /** A release nobody's loss asks for is one too many. */
  lemma NothingToRelease<C>(conns: map<C, Info>, ch: Channel)
    ensures !GivesBack([ch], conns, conns)
  {
    assert multiset([ch])[ch] == 1;
    assert Holders(conns, ch) - Holders(conns, ch) == {};
    assert Lost(conns, conns, ch) == 0;
  }

  /** Giving up one topic loses its channel once. */
  lemma DropLosesOne<C>(conns: map<C, Info>, c: C, t: Topic)
    requires c in conns
    ensures var after := conns[c := Drop(conns[c], t)];
            Shrinks(conns, after) && GivesBack(if Subscribed(conns[c], t) then [ChannelOf(t)] else [], conns, after)
  {
    var after := conns[c := Drop(conns[c], t)];
    forall ch ensures Lost(conns, after, ch) == if Subscribed(conns[c], t) && ch == ChannelOf(t) then 1 else 0 {
      DropHolds(conns[c], t, ch);
      assert Holders(conns, ch) - Holders(after, ch) == if Subscribed(conns[c], t) && ch == ChannelOf(t) then {c} else {};
    }
    forall ch ensures Holds(after[c], ch) ==> Holds(conns[c], ch) {
      DropHolds(conns[c], t, ch);
    }
  }

  /** A connection that leaves loses each of its channels once. */
  lemma LeaveLosesAll<C>(conns: map<C, Info>, c: C, released: seq<Channel>)
    requires c in conns
    requires Lists(released, conns[c].user, conns[c].rooms.Keys, conns[c].workspaces)
    ensures Shrinks(conns, conns - {c}) && GivesBack(released, conns, conns - {c})
  {
    forall ch ensures Lost(conns, conns - {c}, ch) == if Holds(conns[c], ch) then 1 else 0 {
      assert Holders(conns, ch) - Holders(conns - {c}, ch) == if Holds(conns[c], ch) then {c} else {};
    }
  }

  /** Losses and releases of consecutive changes add up. */
  lemma GivesBackAdds<C>(r: seq<Channel>, q: seq<Channel>, a: map<C, Info>, b: map<C, Info>, c: map<C, Info>)
    requires Shrinks(a, b) && Shrinks(b, c) && GivesBack(r, a, b) && GivesBack(q, b, c)
    ensures Shrinks(a, c) && GivesBack(r + q, a, c)
  {
    forall ch ensures multiset(r + q)[ch] == Lost(a, c, ch) {
      LostAdds(a, b, c, ch);
      assert multiset(r + q) == multiset(r) + multiset(q);
    }
  }

  /** The list names, once each, a user's channel and those of the given rooms and workspaces, and no other. */
  ghost predicate Lists(channels: seq<Channel>, user: Ulid, rooms: set<Ulid>, workspaces: set<Ulid>) {
    forall ch :: multiset(channels)[ch] == if OneOf(ch, user, rooms, workspaces) then 1 else 0
  }

  predicate OneOf(ch: Channel, user: Ulid, rooms: set<Ulid>, workspaces: set<Ulid>) {
    match ch
    case RoomChannel(r) => r in rooms
    case WorkspaceChannel(w) => w in workspaces
    case UserChannel(u) => u == user
  }

  lemma ListsMore(channels: seq<Channel>, user: Ulid, rooms: set<Ulid>, workspaces: set<Ulid>, t: Topic)
    requires Lists(channels, user, rooms, workspaces) && !OneOf(ChannelOf(t), user, rooms, workspaces)
    ensures t.RoomTopic? ==> Lists(channels + [ChannelOf(t)], user, rooms + {t.room}, workspaces)
    ensures t.WorkspaceTopic? ==> Lists(channels + [ChannelOf(t)], user, rooms, workspaces + {t.workspace})
  {
    assert multiset(channels + [ChannelOf(t)]) == multiset(channels) + multiset{ChannelOf(t)};
  }

  lemma NothingTrimmed<C>(conns: map<C, Info>, only: Option<Ulid>)
    ensures Trimmed(conns, conns, only, {}, {})
  {
    forall c | c in conns ensures Trim(conns[c], {}, {}) == conns[c] {
      assert conns[c].rooms - {} == conns[c].rooms;
    }
  }

  lemma TrimmedTwice<C>(a: map<C, Info>, b: map<C, Info>, c: map<C, Info>, only: Option<Ulid>,
                        rooms: set<Ulid>, workspaces: set<Ulid>, rooms': set<Ulid>, workspaces': set<Ulid>)
    requires Trimmed(a, b, only, rooms, workspaces) && Trimmed(b, c, only, rooms', workspaces')
    ensures Trimmed(a, c, only, rooms + rooms', workspaces + workspaces')
  {
    forall x | x in a ensures Trim(Trim(a[x], rooms, workspaces), rooms', workspaces') == Trim(a[x], rooms + rooms', workspaces + workspaces') {
      TrimTwice(a[x], rooms, workspaces, rooms', workspaces');
    }
  }

  lemma TrimTwice(info: Info, rooms: set<Ulid>, workspaces: set<Ulid>, rooms': set<Ulid>, workspaces': set<Ulid>)
    ensures Trim(Trim(info, rooms, workspaces), rooms', workspaces') == Trim(info, rooms + rooms', workspaces + workspaces')
  {
    assert info.rooms - rooms - rooms' == info.rooms - (rooms + rooms');
    assert info.workspaces - workspaces - workspaces' == info.workspaces - (workspaces + workspaces');
  }

  function RoomsOf(topics: set<Topic>): set<Ulid> {
    set t | t in topics && t.RoomTopic? :: t.room
  }

  function WorkspacesOf(topics: set<Topic>): set<Ulid> {
    set t | t in topics && t.WorkspaceTopic? :: t.workspace
  }

  function TrimTopics(info: Info, topics: set<Topic>): Info {
    Trim(info, RoomsOf(topics), WorkspacesOf(topics))
  }

  lemma TrimOneMore(info: Info, topics: set<Topic>, t: Topic)
    ensures Drop(TrimTopics(info, topics), t) == TrimTopics(info, topics + {t})
    ensures TrimTopics(info, {}) == info
    ensures t !in topics ==> (Subscribed(TrimTopics(info, topics), t) <==> Subscribed(info, t))
  {
    assert info.rooms - RoomsOf({}) == info.rooms && info.workspaces - WorkspacesOf({}) == info.workspaces;
    match t
    case RoomTopic(r) =>
      assert RoomsOf(topics + {t}) == RoomsOf(topics) + {r} && WorkspacesOf(topics + {t}) == WorkspacesOf(topics);
      assert info.rooms - RoomsOf(topics) - {r} == info.rooms - (RoomsOf(topics) + {r});
    case WorkspaceTopic(w) =>
      assert WorkspacesOf(topics + {t}) == WorkspacesOf(topics) + {w} && RoomsOf(topics + {t}) == RoomsOf(topics);
      assert info.workspaces - WorkspacesOf(topics) - {w} == info.workspaces - (WorkspacesOf(topics) + {w});
  }

  /** Trimming by subscribed topics of the given rooms and workspaces is trimming by all of them. */
  lemma TrimSubscribed(info: Info, topics: set<Topic>, rooms: set<Ulid>, workspaces: set<Ulid>)
    requires forall t :: t in topics <==> Subscribed(info, t) && Among(t, rooms, workspaces)
    ensures TrimTopics(info, topics) == Trim(info, rooms, workspaces)
  {
    forall r | r in info.rooms ensures r in RoomsOf(topics) <==> r in rooms {
      assert RoomTopic(r) in topics <==> r in rooms;
    }
    forall w | w in info.workspaces ensures w in WorkspacesOf(topics) <==> w in workspaces {
      assert WorkspaceTopic(w) in topics <==> w in workspaces;
    }
    assert info.rooms - RoomsOf(topics) == info.rooms - rooms;
    assert info.workspaces - WorkspacesOf(topics) == info.workspaces - workspaces;
  }

  predicate Among(t: Topic, rooms: set<Ulid>, workspaces: set<Ulid>) {
    match t
    case RoomTopic(r) => r in rooms
    case WorkspaceTopic(w) => w in workspaces
  }

  function Channels(topics: seq<Topic>): seq<Channel> {
    seq(|topics|, i requires 0 <= i < |topics| => ChannelOf(topics[i]))
  }
}
