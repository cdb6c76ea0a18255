/** Publishing to several channels and receiving each event once. */
module Wire {
  import opened Common
  import HubModel
  import Hub

  // ---- which channels an event goes to ----

  function ChannelsNamed(rooms: seq<Ulid>, workspaces: seq<Ulid>, users: seq<Ulid>, changed: seq<Ulid>): seq<Channel> {
    seq(|rooms|, i requires 0 <= i < |rooms| => RoomChannel(rooms[i]))
    + seq(|workspaces|, i requires 0 <= i < |workspaces| => WorkspaceChannel(workspaces[i]))
    + seq(|users|, i requires 0 <= i < |users| => UserChannel(users[i]))
    + seq(|changed|, i requires 0 <= i < |changed| => UserChannel(changed[i]))
  }

  lemma OneMore(named: seq<Channel>, ch: Channel)
    ensures Elements(named + [ch]) == Elements(named) + {ch}
    ensures Firsts(named + [ch]) == if ch in Elements(named) then Firsts(named) else Firsts(named) + [ch]
  {
    var more := named + [ch];
    FirstsMore(more, |named|);
    assert more[..|named|] == named && more[..|named| + 1] == more;
  }

  ghost predicate Named(rooms: seq<Ulid>, workspaces: seq<Ulid>, users: seq<Ulid>, changed: seq<Ulid>, ch: Channel) {
    match ch
    case RoomChannel(r) => r in rooms
    case WorkspaceChannel(w) => w in workspaces
    case UserChannel(u) => u in users || u in changed
  }

  lemma NamedExactly(rooms: seq<Ulid>, workspaces: seq<Ulid>, users: seq<Ulid>, changed: seq<Ulid>, ch: Channel)
    ensures ch in ChannelsNamed(rooms, workspaces, users, changed) <==> Named(rooms, workspaces, users, changed, ch)
  {
    var all := ChannelsNamed(rooms, workspaces, users, changed);
    var r, w, u := |rooms|, |workspaces|, |users|;
    match ch
    case RoomChannel(x) => if i :| 0 <= i < r && rooms[i] == x { assert all[i] == ch; }
    case WorkspaceChannel(x) => if i :| 0 <= i < w && workspaces[i] == x { assert all[r + i] == ch; }
    case UserChannel(x) =>
      if i :| 0 <= i < u && users[i] == x { assert all[r + w + i] == ch; }
      if i :| 0 <= i < |changed| && changed[i] == x { assert all[r + w + u + i] == ch; }
  }

  class Channels {
    var seen: set<Channel>
    var out: seq<Channel>

    constructor ()
      ensures seen == {} && out == []
    {
      seen, out := {}, [];
    }

    method Add(ch: Channel, ghost named: seq<Channel>)
      requires seen == Elements(named) && out == Firsts(named)
      modifies this
      ensures seen == Elements(named + [ch]) && out == Firsts(named + [ch])
    {
      OneMore(named, ch);
      if ch !in seen {
        seen := seen + {ch};
        out := out + [ch];
      }
    }

    method AddAll(chs: seq<Channel>, ghost named: seq<Channel>)
      requires seen == Elements(named) && out == Firsts(named)
      modifies this
      ensures seen == Elements(named + chs) && out == Firsts(named + chs)
    {
      assert named + chs[..0] == named;
      for i := 0 to |chs|
        invariant seen == Elements(named + chs[..i]) && out == Firsts(named + chs[..i])
      {
        Add(chs[i], named + chs[..i]);
        assert named + chs[..i] + [chs[i]] == named + chs[..i + 1];
      }
      assert chs[..|chs|] == chs;
    }
  }

  /** channelsFor: every channel once, the addressed ones first. */
  method ChannelsFor(rooms: seq<Ulid>, workspaces: seq<Ulid>, users: seq<Ulid>, changed: seq<Ulid>) returns (out: seq<Channel>)
    ensures out == Firsts(ChannelsNamed(rooms, workspaces, users, changed))
  {
    var acc := new Channels();
    var r := seq(|rooms|, i requires 0 <= i < |rooms| => RoomChannel(rooms[i]));
    var w := seq(|workspaces|, i requires 0 <= i < |workspaces| => WorkspaceChannel(workspaces[i]));
    var u := seq(|users|, i requires 0 <= i < |users| => UserChannel(users[i]));
    var c := seq(|changed|, i requires 0 <= i < |changed| => UserChannel(changed[i]));
    assert [] + r == r && ChannelsNamed(rooms, workspaces, users, changed) == r + w + u + c;
    acc.AddAll(r, []);
    acc.AddAll(w, r);
    acc.AddAll(u, r + w);
    acc.AddAll(c, r + w + u);
    out := acc.out;
  }

  /** The channels are, each once, those of the addressed rooms, workspaces and users and of the users whose access changed. */
  lemma ChannelsAreThose(rooms: seq<Ulid>, workspaces: seq<Ulid>, users: seq<Ulid>, changed: seq<Ulid>, ch: Channel)
    ensures var out := Firsts(ChannelsNamed(rooms, workspaces, users, changed));
            Distinct(out) && (ch in out <==> Named(rooms, workspaces, users, changed, ch))
  {
    var all := ChannelsNamed(rooms, workspaces, users, changed);
    FirstsKeepOrder(all);
    NamedExactly(rooms, workspaces, users, changed, ch);
    assert ch in all <==> ch in Elements(all);
    assert ch in Firsts(all) <==> ch in Elements(Firsts(all));
  }

  /** An instance with a connection that the event addresses, or of a user whose access changed, listens to one of its channels. */
  lemma AddressedInstancesHear(info: HubModel.Info, rooms: seq<Ulid>, workspaces: seq<Ulid>, users: seq<Ulid>, changed: seq<Ulid>)
    requires Hub.Addressed(info, rooms, workspaces, users) || info.user in changed
    ensures exists ch :: ch in Firsts(ChannelsNamed(rooms, workspaces, users, changed)) && HubModel.Holds(info, ch)
  {
    var ch :| HubModel.Holds(info, ch) && Named(rooms, workspaces, users, changed, ch) by {
      if x :| x in rooms && x in info.rooms {
        assert HubModel.Holds(info, RoomChannel(x)) && Named(rooms, workspaces, users, changed, RoomChannel(x));
      } else if x :| x in workspaces && x in info.workspaces {
        assert HubModel.Holds(info, WorkspaceChannel(x)) && Named(rooms, workspaces, users, changed, WorkspaceChannel(x));
      } else {
        assert HubModel.Holds(info, UserChannel(info.user)) && Named(rooms, workspaces, users, changed, UserChannel(info.user));
      }
    }
    ChannelsAreThose(rooms, workspaces, users, changed, ch);
  }

  // ---- recent events ----

  /** The window after one more id: the oldest goes when it is full. */
  function Slide(window: seq<Ulid>, id: Ulid, size: nat): seq<Ulid> {
    if |window| < size then window + [id] else if window == [] then [] else window[1..] + [id]
  }

  /** A ring of the last ids received, with a set beside it for looking them up. */
  class RecentIds {
    const ring: array<Option<Ulid>>
    var next: nat
    var ids: set<Ulid>
    /** The remembered ids, oldest first. */
    ghost var window: seq<Ulid>

    ghost predicate Valid()
      reads this, ring
    {
      && ring.Length >= 1 && next < ring.Length && |window| <= ring.Length
      && Distinct(window) && ids == Elements(window)
      && (|window| < ring.Length ==> next == |window|)
      && forall k :: 0 <= k < ring.Length ==> ring[k] == SlotOf(window, next, ring.Length, k)
    }

    constructor (size: nat)
      requires size >= 1
      ensures Valid() && fresh(ring) && ring.Length == size && window == []
    {
      ring := new Option<Ulid>[size](_ => None);
      next, ids, window := 0, {}, [];
      new;
      assert Elements<Ulid>([]) == {};
    }

    /** seen: an id of the window is a copy; another one is remembered. */
    method Seen(id: Ulid) returns (r: bool)
      requires Valid()
      modifies this, ring
      ensures Valid()
      ensures r <==> id in old(window)
      ensures window == if r then old(window) else Slide(old(window), id, ring.Length)
    {
      r := id in ids;
      assert id in Elements(window) <==> id in window;
      if !r {
        var oldest := ring[next];
        SlideFacts(window, id, next, ring.Length);
        Wraps(next, ring.Length);
        if oldest.Some? {
          ids := ids - {oldest.value};
        }
        ring[next] := Some(id);
        ids := ids + {id};
        window := Slide(window, id, ring.Length);
        next := (next + 1) % ring.Length;
      }
    }
  }

  /** Where a remembered id lies in the ring. */
  ghost function SlotOf(window: seq<Ulid>, next: nat, size: nat, k: nat): Option<Ulid>
    requires next < size && k < size && |window| <= size && (|window| < size ==> next == |window|)
  {
    if |window| < size then (if k < next then Some(window[k]) else None)
    else if k >= next then Some(window[k - next]) else Some(window[k + size - next])
  }

  function After(next: nat, size: nat): nat {
    if next + 1 < size then next + 1 else 0
  }

  lemma SlideFacts(window: seq<Ulid>, id: Ulid, next: nat, size: nat)
    requires next < size && |window| <= size && (|window| < size ==> next == |window|)
    requires Distinct(window) && id !in Elements(window)
    ensures var after := Slide(window, id, size);
            var gone := SlotOf(window, next, size, next);
            && Distinct(after) && |after| <= size
            && Elements(after) == (if gone.Some? then Elements(window) - {gone.value} else Elements(window)) + {id}
            && (|after| < size ==> After(next, size) == |after|)
            && forall k :: 0 <= k < size ==>
                 SlotOf(after, After(next, size), size, k) == if k == next then Some(id) else SlotOf(window, next, size, k)
  {
    var after := Slide(window, id, size);
    if |window| < size {
      DistinctMore(window, id);
      assert Elements(after) == Elements(window) + {id};
    } else {
      assert window == [window[0]] + window[1..];
      assert Elements(window) == {window[0]} + Elements(window[1..]);
      assert window[0] !in Elements(window[1..]);
      DistinctMore(window[1..], id);
      assert Elements(after) == Elements(window[1..]) + {id};
    }
  }

  lemma Wraps(next: nat, size: nat)
    requires next < size
    ensures (next + 1) % size == After(next, size)
  {
  }

  // ---- streams of ids ----

  /** The window after a stream of ids. */
  function Fed(window: seq<Ulid>, stream: seq<Ulid>, size: nat): seq<Ulid>
    decreases |stream|
  {
    if stream == [] then window
    else
      var before := Fed(window, stream[..|stream| - 1], size);
      if stream[|stream| - 1] in before then before else Slide(before, stream[|stream| - 1], size)
  }

  /** The ids of a stream that were new. */
  function Accepted(window: seq<Ulid>, stream: seq<Ulid>, size: nat): seq<Ulid>
    decreases |stream|
  {
    if stream == [] then []
    else
      var n := |stream| - 1;
      Accepted(window, stream[..n], size) + if stream[n] in Fed(window, stream[..n], size) then [] else [stream[n]]
  }

  function LastOf(xs: seq<Ulid>, size: nat): seq<Ulid> {
    if |xs| <= size then xs else xs[|xs| - size..]
  }

  lemma SlideKeepsLast(xs: seq<Ulid>, x: Ulid, size: nat)
    requires size >= 1
    ensures LastOf(xs + [x], size) == Slide(LastOf(xs, size), x, size)
  {
    if |xs| >= size {
      var window := LastOf(xs, size);
      assert window == xs[|xs| - size..];
      assert window[1..] == xs[|xs| - size + 1..];
      assert LastOf(xs + [x], size) == xs[|xs| - size + 1..] + [x];
    }
  }

  /** The window is always the last `size` accepted ids. */
  lemma {:induction false} WindowIsLastAccepted(stream: seq<Ulid>, size: nat)
    requires size >= 1
    ensures Fed([], stream, size) == LastOf(Accepted([], stream, size), size)
    decreases |stream|
  {
    if stream != [] {
      var n := |stream| - 1;
      WindowIsLastAccepted(stream[..n], size);
      SlideKeepsLast(Accepted([], stream[..n], size), stream[n], size);
    }
  }

  /** A second copy is suppressed as long as fewer than `size` new ids came in between. */
  lemma {:induction false} CopiesAreSuppressed(window: seq<Ulid>, id: Ulid, between: seq<Ulid>, size: nat)
    requires size >= 1 && |window| <= size && id in window && window[|window| - 1] == id
    requires |Accepted(window, between, size)| < size
    ensures id in Fed(window, between, size)
  {
    LastStaysNear(window, between, size);
  }

  /** The newest id of a window moves back by one for every id accepted after it. */
  lemma {:induction false} LastStaysNear(window: seq<Ulid>, between: seq<Ulid>, size: nat)
    requires size >= 1 && 0 < |window| <= size && |Accepted(window, between, size)| < size
    ensures var after := Fed(window, between, size);
            var back := |Accepted(window, between, size)|;
            back < |after| <= size && after[|after| - 1 - back] == window[|window| - 1]
    decreases |between|
  {
    if between != [] {
      LastStaysNear(window, between[..|between| - 1], size);
    }
  }
}
