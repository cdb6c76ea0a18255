/** The huddle store over its Redis keys, one method per Lua script.

    The keys are kept exactly as the scripts keep them; `st` is the one map they all project (module HuddleModel).
    Every method is proved to be the transition of that map and to leave all keys in agreement with it. */
module HuddleStore {
  import opened Common
  import opened HuddleModel
  import opened HuddleKeys
  import HuddleRuns

  datatype Swept = Swept(who: Participant, version: nat, remaining: nat)

  lemma AddBack(workspaces: map<Ulid, set<Ulid>>, w: Ulid, user: Ulid)
    requires user in MembersOf(workspaces, w)
    ensures AddMember(DropMember(workspaces, w, user), w, user) == workspaces
  {
    assert workspaces[w] - {user} + {user} == workspaces[w];
  }

  /** The keys after joinScript, by way of the seat given up. */
  lemma JoinKeepsAll(members: Members, deadlines: Deadlines, userKeys: UserKeys, status: map<Ulid, StatusHash>,
                     workspaces: map<Ulid, set<Ulid>>, s: State, p: Participant, deadline: int, limit: int, to: Status)
    requires HuddleModel.Valid(s) && KeysMatch(members, deadlines, userKeys, status, workspaces, s.seats)
    requires NewSeat(s, p) && |Occupants(s, p.huddle) - {p.user}| < limit
    ensures HuddleModel.Join(s, p, deadline, limit, to).1
            == Joined(VersionIn(HuddleModel.Join(s, p, deadline, limit, to).0.versions, p.huddle),
                      if p.user !in s.seats then None
                      else Some(Removed(s.seats[p.user].who,
                                        VersionIn(Bump(s.versions, s.seats[p.user].who.huddle), s.seats[p.user].who.huddle))))
    ensures var next := HuddleModel.Join(s, p, deadline, limit, to).0;
            var mark := StatusHash(to.workspace, to.channels, to.left);
            && HuddleModel.Valid(next)
            && next.soon == DropField(s.soon, p.huddle, p.user)
            && (p.user !in s.seats ==>
                  next.versions == Bump(s.versions, p.huddle)
                  && next.log == s.log + PublishAll(to.channels, to.joined))
            && (p.user in s.seats ==>
                  var seat := s.seats[p.user];
                  next.versions == Bump(Bump(s.versions, seat.who.huddle), p.huddle)
                  && next.log == s.log + (if seat.workspace != to.workspace then PublishAll(seat.channels, seat.left) else [])
                                 + if seat.workspace == to.workspace then [] else PublishAll(to.channels, to.joined))
            && (p.user !in s.seats ==>
                  KeysMatch(PutField(members, p.huddle, p.id, p), deadlines[(p.huddle, p.id) := deadline],
                            userKeys[p.user := (p.huddle, p.id)], status[p.user := mark],
                            AddMember(workspaces, to.workspace, p.user), next.seats))
            && (p.user in s.seats ==>
                  var seat := s.seats[p.user];
                  KeysMatch(PutField(DropField(members, seat.who.huddle, seat.who.id), p.huddle, p.id, p),
                            (deadlines - {(seat.who.huddle, seat.who.id)})[(p.huddle, p.id) := deadline],
                            (userKeys - {p.user})[p.user := (p.huddle, p.id)], status[p.user := mark],
                            AddMember(DropMember(workspaces, seat.workspace, p.user), to.workspace, p.user), next.seats))
  {
    HuddleRuns.JoinKeepsValid(s, p, deadline, limit, to);
    HuddleRuns.JoinSeats(s, p, deadline, limit, to);
    assert s.log + [] == s.log;
    var seat := Seat(p, deadline, to.workspace, to.channels, to.left);
    if p.user in s.seats {
      KeysAfterMoving(members, deadlines, userKeys, status, workspaces, s.seats, seat);
    } else {
      KeysAfterArriving(members, deadlines, userKeys, status, workspaces, s.seats, seat);
    }
  }

  ghost function Users(out: seq<Swept>): seq<Ulid> {
    seq(|out|, i requires 0 <= i < |out| => out[i].who.user)
  }

  /** A reported participation is one that was there, under the given key. */
  ghost predicate LeftAs(s: State, left: Swept, key: (Ulid, Ulid)) {
    && left.who.user in s.seats && s.seats[left.who.user].who == left.who
    && left.who.huddle == key.0 && left.who.id == key.1
  }

  /** Each report carries the version and head count right after that departure. */
  ghost predicate ReportAt(s: State, out: seq<Swept>, key: (Ulid, Ulid), j: nat)
    requires j < |out|
  {
    var past := VacateAll(s, Users(out)[..j + 1]);
    LeftAs(s, out[j], key) && out[j].version == Version(past, key.0) && out[j].remaining == |Occupants(past, key.0)|
  }

  ghost predicate Reported(s: State, out: seq<Swept>, keys: seq<(Ulid, Ulid)>) {
    |out| <= |keys| && forall j :: 0 <= j < |out| ==> ReportAt(s, out, keys[j], j)
  }

  lemma ReportMore(s: State, out: seq<Swept>, keys: seq<(Ulid, Ulid)>, left: Swept)
    requires Reported(s, out, keys) && |out| < |keys| && LeftAs(s, left, keys[|out|])
    requires var past := VacateAll(s, Users(out) + [left.who.user]);
             left.version == Version(past, left.who.huddle) && left.remaining == |Occupants(past, left.who.huddle)|
    ensures Users(out + [left]) == Users(out) + [left.who.user]
    ensures Reported(s, out + [left], keys)
  {
    var more := out + [left];
    assert Users(more) == Users(out) + [left.who.user];
    forall j | 0 <= j < |more| ensures ReportAt(s, more, keys[j], j) {
      if j < |out| {
        assert ReportAt(s, out, keys[j], j);
        assert Users(more)[..j + 1] == Users(out)[..j + 1];
      } else {
        assert Users(more)[..j + 1] == Users(out) + [left.who.user];
      }
    }
  }

  ghost predicate SitsAt(s: State, u: Ulid, key: (Ulid, Ulid)) {
    u in Holders(s, key.0, key.1)
  }

  /** The people holding the listed participations: distinct participations, distinct people. */
  ghost function Owners(members: Members, s: State, keys: seq<(Ulid, Ulid)>): (owners: seq<Ulid>)
    requires HuddleModel.Valid(s) && MembersMatch(members, s.seats) && Distinct(keys)
    requires forall k :: k in keys ==> k.1 in Row(members, k.0)
    ensures |owners| == |keys| && Distinct(owners)
    ensures forall i :: 0 <= i < |keys| ==> SitsAt(s, owners[i], keys[i])
  {
    var owners := seq(|keys|, i requires 0 <= i < |keys| && keys[i].1 in Row(members, keys[i].0) =>
                        Row(members, keys[i].0)[keys[i].1].user);
    assert forall i :: 0 <= i < |keys| ==> SitsAt(s, owners[i], keys[i]) by {
      forall i | 0 <= i < |keys| ensures SitsAt(s, owners[i], keys[i]) {
        assert IsSeated(members, keys[i].0, keys[i].1, s.seats);
      }
    }
    owners
  }

  /** Somebody whose turn has come still holds the listed participation, alone. */
  lemma Turn(was: State, owners: seq<Ulid>, keys: seq<(Ulid, Ulid)>, i: nat)
    requires HuddleModel.Valid(was) && Distinct(owners) && i < |owners| == |keys| && SitsAt(was, owners[i], keys[i])
    ensures var now := VacateAll(was, owners[..i]);
            Holders(now, keys[i].0, keys[i].1) == {owners[i]} && now.seats[owners[i]] == was.seats[owners[i]]
  {
    var now := VacateAll(was, owners[..i]);
    HuddleRuns.VacateAllKeepsValid(was, owners[..i]);
    assert owners[i] !in Elements(owners[..i]);
    HuddleRuns.TheHolder(now, keys[i].0, keys[i].1, owners[i]);
  }

  /** One more departure, reported with the state it leaves. */
  lemma NextReport(was: State, out: seq<Swept>, owners: seq<Ulid>, keys: seq<(Ulid, Ulid)>, left: Swept)
    requires HuddleModel.Valid(was) && Distinct(owners) && |out| < |owners| == |keys|
    requires Users(out) == owners[..|out|] && Reported(was, out, keys) && SitsAt(was, owners[|out|], keys[|out|])
    requires var now := VacateAll(was, Users(out));
             var u := left.who.user;
             && Holders(now, keys[|out|].0, keys[|out|].1) == {u} && now.seats[u].who == left.who
             && left.version == Version(Vacate(now, u), keys[|out|].0)
             && left.remaining == |Occupants(Vacate(now, u), keys[|out|].0)|
    ensures Reported(was, out + [left], keys)
    ensures Users(out + [left]) == owners[..|out| + 1]
    ensures VacateAll(was, owners[..|out| + 1]) == Vacate(VacateAll(was, Users(out)), left.who.user)
  {
    var i := |out|;
    Turn(was, owners, keys, i);
    assert left.who.user in Holders(VacateAll(was, Users(out)), keys[i].0, keys[i].1);
    HuddleRuns.VacateAllAppend(was, Users(out), owners[i]);
    assert owners[..i + 1] == owners[..i] + [owners[i]];
    ReportMore(was, out, keys, left);
  }

  class Store {
    var members: Members
    var version: map<Ulid, nat>
    var soon: map<Ulid, map<Ulid, int>>
    var userKeys: UserKeys
    var deadlines: Deadlines
    var status: map<Ulid, StatusHash>
    var workspaces: map<Ulid, set<Ulid>>
    var log: seq<Published>
    ghost var st: State

    ghost predicate Valid()
      reads this
    {
      && HuddleModel.Valid(st)
      && KeysMatch(members, deadlines, userKeys, status, workspaces, st.seats)
      && version == st.versions && soon == st.soon && log == st.log
    }

    constructor ()
      ensures Valid() && st == EMPTY
    {
      members, version, soon, userKeys, deadlines := map[], map[], map[], map[], map[];
      status, workspaces, log := map[], map[], [];
      st := EMPTY;
    }

    // ---- the Lua helpers ----

    method Publish(channels: seq<Channel>, payload: Payload)
      modifies `log
      ensures log == old(log) + PublishAll(channels, payload)
    {
      if payload == Silent { return; }
      for i := 0 to |channels|
        invariant log == old(log) + PublishAll(channels, payload)[..i]
      {
        log := log + [Published(channels[i], payload)];
      }
    }

    /** statusOff: the mark goes, and its departure is published if the user was in the workspace's set. */
    method StatusOff(user: Ulid)
      modifies `status, `workspaces, `log
      ensures status == old(status) - {user}
      ensures user !in old(status) ==> workspaces == old(workspaces) && log == old(log)
      ensures user in old(status) ==>
                var mark := old(status)[user];
                && workspaces == (if user in MembersOf(old(workspaces), mark.workspace)
                                  then DropMember(old(workspaces), mark.workspace, user) else old(workspaces))
                && log == old(log) + if user in MembersOf(old(workspaces), mark.workspace)
                                     then PublishAll(mark.channels, mark.left) else []
    {
      if user !in status { return; }
      var mark := status[user];
      if user in MembersOf(workspaces, mark.workspace) {
        workspaces := DropMember(workspaces, mark.workspace, user);
        Publish(mark.channels, mark.left);
      }
      status := status - {user};
    }

    /** remove: takes one participation out of its keys; with `moving` the in-huddle mark stays for the join to decide. */
    method Detach(huddle: Ulid, id: Ulid, moving: bool) returns (json: Option<Participant>)
      requires Linked(members, userKeys, status, workspaces, huddle, id)
      modifies `members, `deadlines, `userKeys, `status, `workspaces, `version, `log
      ensures id !in Row(old(members), huddle) ==>
                json == None && members == old(members) && deadlines == old(deadlines) && userKeys == old(userKeys)
                && status == old(status) && workspaces == old(workspaces) && version == old(version) && log == old(log)
      ensures id in Row(old(members), huddle) ==>
                var who := Row(old(members), huddle)[id];
                && json == Some(who)
                && members == DropField(old(members), huddle, id)
                && deadlines == old(deadlines) - {(huddle, id)}
                && userKeys == old(userKeys) - {who.user}
                && version == Bump(old(version), huddle)
                && (moving ==> status == old(status) && workspaces == old(workspaces) && log == old(log))
                && (!moving ==> var mark := old(status)[who.user];
                                && status == old(status) - {who.user}
                                && workspaces == DropMember(old(workspaces), mark.workspace, who.user)
                                && log == old(log) + PublishAll(mark.channels, mark.left))
    {
      if id !in Row(members, huddle) { return None; }
      var who := members[huddle][id];
      members := DropField(members, huddle, id);
      deadlines := deadlines - {(huddle, id)};
      if who.user in userKeys && userKeys[who.user] == (huddle, id) {
        userKeys := userKeys - {who.user};
        if !moving {
          StatusOff(who.user);
        }
      }
      version := Bump(version, huddle);
      json := Some(who);
    }

    /** One participation leaves for good. */
    method Evict(huddle: Ulid, id: Ulid) returns (json: Option<Participant>)
      requires Valid()
      modifies this
      ensures Valid()
      ensures json.None? ==> Holders(old(st), huddle, id) == {} && st == old(st)
      ensures json.Some? ==> Holders(old(st), huddle, id) == {json.value.user}
                             && old(st).seats[json.value.user].who == json.value && st == Vacate(old(st), json.value.user)
    {
      FieldsAreLinked(members, deadlines, userKeys, status, workspaces, st, huddle, id);
      json := Detach(huddle, id, false);
      if json.Some? {
        ghost var u := json.value.user;
        KeysAfterLeaving(old(members), old(deadlines), old(userKeys), old(status), old(workspaces), st.seats, u);
        HuddleRuns.VacateKeepsValid(st, u);
        st := Vacate(st, u);
      }
    }

    // ---- the scripts ----

    /** removeScript. Calling it again finds nothing and changes nothing. */
    method Remove(huddle: Ulid, id: Ulid) returns (removed: Option<Removed>, remaining: nat)
      requires Valid()
      modifies this
      ensures Valid()
      ensures st == HuddleModel.Remove(old(st), huddle, id)
      ensures removed.None? <==> Holders(old(st), huddle, id) == {}
      ensures removed.Some? ==> removed.value.who.user in Holders(old(st), huddle, id)
                                && removed.value == Removed(old(st).seats[removed.value.who.user].who, Version(st, huddle))
      ensures Holders(st, huddle, id) == {}
      ensures remaining == |Occupants(st, huddle)|
    {
      var json := Evict(huddle, id);
      removed := if json.Some? then Some(Removed(json.value, VersionIn(version, huddle))) else None;
      HashSize(members, st, huddle);
      remaining := |Row(members, huddle)|;
    }

    /** heartbeatScript: only the deadline moves, and only while this is the user's current participation. */
    method Heartbeat(user: Ulid, huddle: Ulid, id: Ulid, deadline: int) returns (ok: bool)
      requires Valid()
      modifies this
      ensures Valid()
      ensures ok <==> user in old(st).seats && old(st).seats[user].who.huddle == huddle && old(st).seats[user].who.id == id
      ensures if ok then user in st.seats && st.seats[user].deadline == deadline && deadlines == old(deadlines)[(huddle, id) := deadline]
              else st == old(st) && deadlines == old(deadlines)
      ensures (st, ok) == HuddleModel.Heartbeat(old(st), user, huddle, id, deadline)
    {
      ok := user in userKeys && userKeys[user] == (huddle, id);
      if ok {
        KeysAfterHeartbeat(members, deadlines, userKeys, status, workspaces, st.seats, user, deadline);
        HuddleRuns.HeartbeatKeepsValid(st, user, huddle, id, deadline);
        if (huddle, id) in deadlines {
          deadlines := deadlines[(huddle, id) := deadline];
        }
        st := st.(seats := st.seats[user := st.seats[user].(deadline := deadline)]);
      }
    }

    /** HSET of a participant's record and INCR of the version. */
    method WriteRecord(who: Participant)
      requires Valid()
      requires who.user in st.seats && SameSeat(who, st.seats[who.user].who)
      modifies this
      ensures Valid()
      ensures st == Rewrite(old(st), who.user, who)
      ensures version == Bump(old(version), who.huddle)
    {
      ghost var next := Rewrite(st, who.user, who);
      RewriteKeepsAll(who, next);
      members := PutField(members, who.huddle, who.id, who);
      version := Bump(version, who.huddle);
      st := next;
    }

    lemma RewriteKeepsAll(who: Participant, next: State)
      requires Valid()
      requires who.user in st.seats && SameSeat(who, st.seats[who.user].who)
      requires next == Rewrite(st, who.user, who)
      ensures HuddleModel.Valid(next)
      ensures next.soon == soon && next.log == log && next.versions == Bump(version, who.huddle)
      ensures KeysMatch(PutField(members, who.huddle, who.id, who), deadlines, userKeys, status, workspaces, next.seats)
    {
      KeysAfterRewrite(members, deadlines, userKeys, status, workspaces, st.seats, who.user, who);
      HuddleRuns.RewriteKeepsValid(st, who.user, who);
    }

    /** The record of a participation, if somebody holds it. */
    method Participant(huddle: Ulid, id: Ulid) returns (r: Option<Participant>)
      requires Valid()
      ensures r.None? ==> Holders(st, huddle, id) == {}
      ensures r.Some? ==> Holders(st, huddle, id) == {r.value.user} && st.seats[r.value.user].who == r.value
    {
      FieldsAreLinked(members, deadlines, userKeys, status, workspaces, st, huddle, id);
      r := if id in Row(members, huddle) then Some(Row(members, huddle)[id]) else None;
    }

    /** setMutedScript. */
    method SetMuted(huddle: Ulid, id: Ulid, muted: bool) returns (v: Option<nat>)
      requires Valid()
      modifies this
      ensures Valid()
      ensures (st, v) == HuddleModel.SetMuted(old(st), huddle, id, muted)
    {
      var json := Participant(huddle, id);
      if json.None? { return None; }
      var u := json.value.user;
      WriteRecord(json.value.(muted := muted));
      v := Some(VersionIn(version, huddle));
      HuddleRuns.MutedOf(old(st), huddle, id, u, muted);
    }

    /** setTrackScript. A new screen is written only after the huddle's sharers are counted. */
    method SetTrack(huddle: Ulid, id: Ulid, kind: TrackKind, mid: string, limit: int) returns (r: TrackResult)
      requires Valid()
      modifies this
      ensures Valid()
      ensures (st, r) == HuddleModel.SetTrack(old(st), huddle, id, kind, mid, limit)
    {
      var json := Participant(huddle, id);
      if json.None? { return Gone; }
      var u := json.value.user;
      var previous := Mid(json.value, kind);
      if previous == mid {
        HuddleRuns.TrackOf(st, huddle, id, u, kind, mid, limit);
        return Stored(VersionIn(version, huddle), previous);
      }
      if kind == Screen && mid != "" && previous == "" {
        var sharing := CountSharers(huddle);
        if sharing >= limit {
          HuddleRuns.TrackOf(st, huddle, id, u, kind, mid, limit);
          return ShareFull;
        }
      }
      WriteRecord(WithMid(json.value, kind, mid));
      r := Stored(VersionIn(version, huddle), previous);
      HuddleRuns.TrackOf(old(st), huddle, id, u, kind, mid, limit);
    }

    method CountSharers(huddle: Ulid) returns (sharing: nat)
      requires Valid()
      ensures sharing == |Sharers(st, huddle)|
    {
      var row := Row(members, huddle);
      var todo := row.Keys;
      ghost var counted: set<Ulid> := {};
      sharing := 0;
      while todo != {}
        invariant todo <= row.Keys
        invariant forall i :: i in counted <==> i in row.Keys - todo && row[i].screen != ""
        invariant sharing == |counted|
        decreases |todo|
      {
        var i :| i in todo;
        todo := todo - {i};
        if row[i].screen != "" {
          sharing := sharing + 1;
          counted := counted + {i};
        }
      }
      SharerCount(members, st, huddle, counted);
    }

    /** joiningSoonScript. */
    method JoiningSoon(huddle: Ulid, user: Ulid, until: int, now: int) returns (v: int)
      requires Valid()
      modifies this
      ensures Valid()
      ensures st == HuddleModel.JoiningSoon(old(st), huddle, user, until, now)
      ensures v == Version(st, huddle)
    {
      ghost var next := HuddleModel.JoiningSoon(st, huddle, user, until, now);
      HuddleRuns.JoiningSoonKeepsValid(st, huddle, user, until, now);
      var added := PutField(soon, huddle, user, until);
      var pending := After(added[huddle], now);
      soon := if pending == map[] then added - {huddle} else added[huddle := pending];
      assert soon == next.soon;
      version := Bump(version, huddle);
      v := version[huddle];
      st := next;
    }

    /** The first half of joinScript: an earlier seat of the user goes, its in-huddle mark stays for now. */
    method GiveUp(user: Ulid) returns (evicted: Option<Removed>)
      requires Valid()
      modifies `members, `deadlines, `userKeys, `status, `workspaces, `version, `log
      ensures status == old(status) && workspaces == old(workspaces) && log == old(log)
      ensures user !in st.seats ==>
                evicted == None && members == old(members) && deadlines == old(deadlines)
                && userKeys == old(userKeys) && version == old(version)
      ensures user in st.seats ==>
                var who := st.seats[user].who;
                && evicted == Some(Removed(who, VersionIn(Bump(old(version), who.huddle), who.huddle)))
                && members == DropField(old(members), who.huddle, who.id)
                && deadlines == old(deadlines) - {(who.huddle, who.id)}
                && userKeys == old(userKeys) - {user}
                && version == Bump(old(version), who.huddle)
    {
      evicted := None;
      if user in userKeys {
        var key := userKeys[user];
        assert HasField(members, user, st.seats);
        FieldsAreLinked(members, deadlines, userKeys, status, workspaces, st, key.0, key.1);
        var json := Detach(key.0, key.1, true);
        if json.Some? {
          evicted := Some(Removed(json.value, VersionIn(version, key.0)));
        }
      }
    }

    /** The last part of joinScript: the mark moves to the new workspace and is announced where it is new. */
    method Mark(user: Ulid, to: Status)
      requires user in status ==> user in MembersOf(workspaces, status[user].workspace)
      requires forall w {:trigger user in MembersOf(workspaces, w)} ::
                 user in MembersOf(workspaces, w) ==> user in status && status[user].workspace == w
      modifies `status, `workspaces, `log
      ensures status == old(status)[user := StatusHash(to.workspace, to.channels, to.left)]
      ensures workspaces == AddMember(if user in old(status) then DropMember(old(workspaces), old(status)[user].workspace, user)
                                      else old(workspaces), to.workspace, user)
      ensures log == old(log)
                     + (if user in old(status) && old(status)[user].workspace != to.workspace
                        then PublishAll(old(status)[user].channels, old(status)[user].left) else [])
                     + if user in old(status) && old(status)[user].workspace == to.workspace
                       then [] else PublishAll(to.channels, to.joined)
    {
      ghost var went := if user in status && status[user].workspace != to.workspace
                        then PublishAll(status[user].channels, status[user].left) else [];
      if user in status && status[user].workspace != to.workspace {
        StatusOff(user);
      }
      assert log == old(log) + went;
      status := status[user := StatusHash(to.workspace, to.channels, to.left)];
      if user in MembersOf(workspaces, to.workspace) {
        AddBack(workspaces, to.workspace, user);
      }
      assert log + [] == log;
      assert user in MembersOf(workspaces, to.workspace) ==> user in MembersOf(old(workspaces), to.workspace);
      if user !in MembersOf(workspaces, to.workspace) {
        workspaces := AddMember(workspaces, to.workspace, user);
        Publish(to.channels, to.joined);
      }
    }

    /** The keys of a new seat, written after GiveUp. */
    method TakeSeat(p: Participant, deadline: int)
      modifies `members, `deadlines, `userKeys, `soon, `version
      ensures members == PutField(old(members), p.huddle, p.id, p)
      ensures deadlines == old(deadlines)[(p.huddle, p.id) := deadline]
      ensures userKeys == old(userKeys)[p.user := (p.huddle, p.id)]
      ensures soon == DropField(old(soon), p.huddle, p.user)
      ensures version == Bump(old(version), p.huddle)
    {
      members := PutField(members, p.huddle, p.id, p);
      deadlines := deadlines[(p.huddle, p.id) := deadline];
      userKeys := userKeys[p.user := (p.huddle, p.id)];
      soon := DropField(soon, p.huddle, p.user);
      version := Bump(version, p.huddle);
    }

    /** The head count the script compares with the limit leaves the joining user's own seat out. */
    method CountOthers(p: Participant) returns (count: int)
      requires Valid()
      ensures count == |Occupants(st, p.huddle) - {p.user}|
    {
      count := |Row(members, p.huddle)|;
      if p.user in userKeys && userKeys[p.user].0 == p.huddle && userKeys[p.user].1 in Row(members, p.huddle) {
        count := count - 1;
      }
      HashSize(members, st, p.huddle);
      if p.user in st.seats {
        assert HasField(members, p.user, st.seats);
        if p.user in Occupants(st, p.huddle) { SplitSize(Occupants(st, p.huddle), {p.user}); }
      }
      if p.user !in Occupants(st, p.huddle) {
        assert Occupants(st, p.huddle) - {p.user} == Occupants(st, p.huddle);
      }
    }

    /** joinScript past the capacity test: the earlier seat goes, the new one comes, the mark follows. */
    method Move(p: Participant, deadline: int, to: Status) returns (evicted: Option<Removed>)
      requires Valid()
      modifies `members, `deadlines, `userKeys, `status, `workspaces, `soon, `version, `log
      ensures soon == DropField(old(soon), p.huddle, p.user)
      ensures status == old(status)[p.user := StatusHash(to.workspace, to.channels, to.left)]
      ensures p.user !in st.seats ==>
                && evicted == None
                && members == PutField(old(members), p.huddle, p.id, p)
                && deadlines == old(deadlines)[(p.huddle, p.id) := deadline]
                && userKeys == old(userKeys)[p.user := (p.huddle, p.id)]
                && workspaces == AddMember(old(workspaces), to.workspace, p.user)
                && version == Bump(old(version), p.huddle)
                && log == old(log) + PublishAll(to.channels, to.joined)
      ensures p.user in st.seats ==>
                var seat := st.seats[p.user];
                var freed := Bump(old(version), seat.who.huddle);
                && evicted == Some(Removed(seat.who, VersionIn(freed, seat.who.huddle)))
                && members == PutField(DropField(old(members), seat.who.huddle, seat.who.id), p.huddle, p.id, p)
                && deadlines == (old(deadlines) - {(seat.who.huddle, seat.who.id)})[(p.huddle, p.id) := deadline]
                && userKeys == (old(userKeys) - {p.user})[p.user := (p.huddle, p.id)]
                && workspaces == AddMember(DropMember(old(workspaces), seat.workspace, p.user), to.workspace, p.user)
                && version == Bump(freed, p.huddle)
                && log == old(log) + (if seat.workspace != to.workspace then PublishAll(seat.channels, seat.left) else [])
                          + if seat.workspace == to.workspace then [] else PublishAll(to.channels, to.joined)
    {
      MarkIsLinked(p.user);
      evicted := GiveUp(p.user);
      TakeSeat(p, deadline);
      Mark(p.user, to);
    }

    /** joinScript: one seat per user. A full huddle changes nothing; otherwise an earlier seat of the same user is given
        up and the in-huddle mark moves only if the workspace changes. */
    method Join(p: Participant, deadline: int, limit: int, to: Status) returns (r: JoinResult)
      requires Valid() && NewSeat(st, p)
      modifies this
      ensures Valid()
      ensures (st, r) == HuddleModel.Join(old(st), p, deadline, limit, to)
    {
      var count := CountOthers(p);
      if count >= limit {
        r := Full;
      } else {
        ghost var next := HuddleModel.Join(st, p, deadline, limit, to);
        JoinKeepsAll(members, deadlines, userKeys, status, workspaces, st, p, deadline, limit, to);
        var evicted := Move(p, deadline, to);
        r := Joined(VersionIn(version, p.huddle), evicted);
        st := next.0;
      }
    }

    lemma MarkIsLinked(user: Ulid)
      requires Valid()
      ensures user in status <==> user in st.seats
      ensures user in status ==> status[user] == StatusHash(st.seats[user].workspace, st.seats[user].channels, st.seats[user].left)
      ensures user in status ==> user in MembersOf(workspaces, status[user].workspace)
      ensures forall w {:trigger user in MembersOf(workspaces, w)} ::
                user in MembersOf(workspaces, w) ==> user in status && status[user].workspace == w
    {
      if user in status {
        assert user in MembersOf(workspaces, st.seats[user].workspace);
      }
    }

    /** ZRANGEBYSCORE from minus infinity to `now`, LIMIT 0 `max`: the earliest deadlines that have passed. */
    method RangeByScore(now: int, max: nat) returns (keys: seq<(Ulid, Ulid)>)
      ensures Distinct(keys) && |keys| <= max
      ensures forall k :: k in keys ==> k in deadlines && deadlines[k] <= now
      ensures |keys| < max ==> forall k :: k in deadlines && deadlines[k] <= now ==> k in keys
      ensures forall k, other :: k in keys && other in deadlines && deadlines[other] <= now && other !in keys
                ==> deadlines[k] <= deadlines[other]
    {
      keys := [];
      var due := set k | k in deadlines && deadlines[k] <= now;
      while due != {} && |keys| < max
        invariant Distinct(keys) && |keys| <= max
        invariant forall k :: k in due || k in keys <==> k in deadlines && deadlines[k] <= now
        invariant forall k :: k in keys ==> k !in due
        invariant forall k, other :: k in keys && other in due ==> deadlines[k] <= deadlines[other]
        decreases |due|
      {
        var first := Earliest(due);
        keys := keys + [first];
        due := due - {first};
      }
    }

    method Earliest(due: set<(Ulid, Ulid)>) returns (first: (Ulid, Ulid))
      requires due != {} && due <= deadlines.Keys
      ensures first in due && forall k :: k in due ==> deadlines[first] <= deadlines[k]
    {
      first :| first in due;
      var todo := due - {first};
      while todo != {}
        invariant first in due && todo <= due
        invariant forall k :: k in due - todo ==> deadlines[first] <= deadlines[k]
        decreases |todo|
      {
        var k :| k in todo;
        todo := todo - {k};
        if deadlines[k] < deadlines[first] { first := k; }
      }
    }

    /** HKEYS: the fields of a huddle's hash in some order. */
    method HashKeys(huddle: Ulid) returns (keys: seq<(Ulid, Ulid)>)
      ensures Distinct(keys)
      ensures forall k :: k in keys <==> k.0 == huddle && k.1 in Row(members, huddle)
    {
      keys := [];
      var todo := Row(members, huddle).Keys;
      while todo != {}
        invariant todo <= Row(members, huddle).Keys
        invariant Distinct(keys)
        invariant forall k :: k in keys <==> k.0 == huddle && k.1 in Row(members, huddle).Keys - todo
        decreases |todo|
      {
        var id :| id in todo;
        todo := todo - {id};
        keys := keys + [(huddle, id)];
      }
    }

    /** Evict, with the version and head count the script reads right after. */
    method Leave(huddle: Ulid, id: Ulid) returns (left: Option<Swept>)
      requires Valid()
      modifies this
      ensures Valid()
      ensures left.None? ==> Holders(old(st), huddle, id) == {} && st == old(st)
      ensures left.Some? ==>
                var u := left.value.who.user;
                && Holders(old(st), huddle, id) == {u}
                && st == Vacate(old(st), u)
                && left.value == Swept(old(st).seats[u].who, Version(st, huddle), |Occupants(st, huddle)|)
    {
      var json := Evict(huddle, id);
      HashSize(members, st, huddle);
      left := if json.Some? then Some(Swept(json.value, VersionIn(version, huddle), |Row(members, huddle)|)) else None;
    }

    /** The loop of sweepScript and clearScript: each listed participation leaves, in order. */
    method EvictAll(keys: seq<(Ulid, Ulid)>) returns (out: seq<Swept>)
      requires Valid() && Distinct(keys)
      requires forall k :: k in keys ==> k.1 in Row(members, k.0)
      modifies this
      ensures Valid()
      ensures |out| == |keys| && Distinct(Users(out)) && Reported(old(st), out, keys)
      ensures st == VacateAll(old(st), Users(out))
    {
      out := [];
      ghost var was := st;
      ghost var owners := Owners(members, st, keys);
      for i := 0 to |keys|
        invariant Valid() && st == VacateAll(was, owners[..i])
        invariant |out| == i && Users(out) == owners[..i] && Reported(was, out, keys)
      {
        Turn(was, owners, keys, i);
        var left := Leave(keys[i].0, keys[i].1);
        if left.Some? {
          NextReport(was, out, owners, keys, left.value);
          out := out + [left.value];
        } else {
          assert false; // a deadline without a participation, which the script would only drop
        }
      }
    }

    lemma FieldOfDeadline(key: (Ulid, Ulid))
      requires Valid() && key in deadlines
      ensures key.1 in Row(members, key.0)
    {
    }

    /** sweepScript: the earliest overdue participations leave, at most `max` of them. */
    method Sweep(now: int, max: nat) returns (out: seq<Swept>)
      requires Valid()
      modifies this
      ensures Valid()
      ensures Legal(old(st), DoSweep(now, Users(out))) && st == VacateAll(old(st), Users(out))
      ensures |out| <= max && exists keys :: |keys| == |out| && Reported(old(st), out, keys)
      ensures |out| < max ==> forall u :: u in st.seats ==> st.seats[u].deadline > now
      ensures forall u, v :: u in Users(out) && v in st.seats && st.seats[v].deadline <= now
                ==> old(st).seats[u].deadline <= st.seats[v].deadline
    {
      ghost var was, due := st, deadlines;
      var keys := RangeByScore(now, max);
      forall k | k in keys ensures k.1 in Row(members, k.0) { FieldOfDeadline(k); }
      assert forall u {:trigger IsDue(due, u, was.seats)} :: u in was.seats ==> IsDue(due, u, was.seats);
      out := EvictAll(keys);
      SweptWereDue(was, out, keys, due, now);
      SweptEarliest(was, out, keys, due, now);
    }

    /** clearScript: everybody leaves and the huddle's version and announcements go. */
    method Clear(huddle: Ulid) returns (out: seq<Participant>)
      requires Valid()
      modifies this
      ensures Valid()
      ensures Legal(old(st), DoClear(huddle, UsersOf(out))) && st == HuddleModel.Clear(old(st), huddle, UsersOf(out))
      ensures forall i :: 0 <= i < |out| ==> out[i].user in old(st).seats && old(st).seats[out[i].user].who == out[i]
      ensures Occupants(st, huddle) == {} && Version(st, huddle) == 0
    {
      ghost var was := st;
      var keys := HashKeys(huddle);
      forall u | u in Occupants(st, huddle) ensures (huddle, st.seats[u].who.id) in keys {
        assert HasField(members, u, st.seats);
      }
      var left := EvictAll(keys);
      out := seq(|left|, i requires 0 <= i < |left| => left[i].who);
      assert UsersOf(out) == Users(left);
      ClearedAll(was, left, keys, huddle);
      DropVersion(huddle);
      HuddleRuns.ClearKeepsValid(was, huddle, Users(left));
    }

    /** DEL of the members, version and announcements of a huddle nobody is in. */
    method DropVersion(huddle: Ulid)
      requires Valid() && Occupants(st, huddle) == {}
      modifies this
      ensures Valid()
      ensures st == old(st).(versions := old(st).versions - {huddle}, soon := old(st).soon - {huddle})
    {
      EmptyHash(members, st, huddle);
      members := members - {huddle};
      version := version - {huddle};
      soon := soon - {huddle};
      st := st.(versions := version, soon := soon);
    }

    // ---- reading ----

    /** Where a user sits now. */
    method Current(user: Ulid) returns (key: Option<(Ulid, Ulid)>)
      requires Valid()
      ensures key.None? <==> user !in st.seats
      ensures key.Some? ==> Holders(st, key.value.0, key.value.1) == {user}
    {
      if user !in userKeys { return None; }
      key := Some(userKeys[user]);
      HuddleRuns.TheHolder(st, key.value.0, key.value.1, user);
    }

    /** What a snapshot shows of the people in a huddle, as far as ending it is concerned. */
    method IsEmpty(huddle: Ulid) returns (empty: bool)
      requires Valid()
      ensures empty <==> Occupants(st, huddle) == {}
    {
      HashSize(members, st, huddle);
      empty := |Row(members, huddle)| == 0;
    }

    /** Which of the given users are in a huddle of the workspace. */
    method InHuddle(workspace: Ulid, users: seq<Ulid>) returns (out: set<Ulid>)
      requires Valid()
      ensures forall u :: u in out <==> u in users && InWorkspace(st, workspace, u)
    {
      out := {};
      for i := 0 to |users|
        invariant forall u :: u in out <==> u in users[..i] && InWorkspace(st, workspace, u)
      {
        if users[i] in MembersOf(workspaces, workspace) {
          out := out + {users[i]};
        }
        assert users[..i + 1] == users[..i] + [users[i]];
      }
    }
  }

  ghost function UsersOf(out: seq<Participant>): seq<Ulid> {
    seq(|out|, i requires 0 <= i < |out| => out[i].user)
  }

  /** Everyone a sweep takes is overdue. */
  lemma SweptWereDue(was: State, out: seq<Swept>, keys: seq<(Ulid, Ulid)>, due: Deadlines, now: int)
    requires Reported(was, out, keys) && Distinct(Users(out))
    requires forall u {:trigger IsDue(due, u, was.seats)} :: u in was.seats ==> IsDue(due, u, was.seats)
    requires forall k :: k in keys ==> k in due && due[k] <= now
    ensures Legal(was, DoSweep(now, Users(out)))
  {
    forall u | u in Users(out) ensures u in was.seats && was.seats[u].deadline <= now {
      var j :| 0 <= j < |out| && out[j].who.user == u;
      assert ReportAt(was, out, keys[j], j);
      assert IsDue(due, u, was.seats);
    }
  }

  /** Whoever stays although overdue is no more overdue than anyone taken, and a short sweep leaves nobody overdue. */
  lemma SweptEarliest(was: State, out: seq<Swept>, keys: seq<(Ulid, Ulid)>, due: Deadlines, now: int)
    requires HuddleModel.Valid(was) && Reported(was, out, keys) && |out| == |keys|
    requires forall u {:trigger IsDue(due, u, was.seats)} :: u in was.seats ==> IsDue(due, u, was.seats)
    requires forall k :: k in keys ==> k in due && due[k] <= now
    requires forall k, other :: k in keys && other in due && due[other] <= now && other !in keys ==> due[k] <= due[other]
    ensures var left := VacateAll(was, Users(out)).seats;
            && (forall u, v :: u in Users(out) && v in left && left[v].deadline <= now ==>
                  u in was.seats && was.seats[u].deadline <= left[v].deadline)
            && ((forall k :: k in due && due[k] <= now ==> k in keys) ==> forall v :: v in left ==> left[v].deadline > now)
  {
    var left := VacateAll(was, Users(out)).seats;
    HuddleRuns.VacateAllKeepsValid(was, Users(out));
    forall v | v in left ensures v in was.seats && left[v] == was.seats[v] && (was.seats[v].who.huddle, was.seats[v].who.id) !in keys {
      KeyLeft(was, out, keys, v);
    }
    forall v | v in left ensures IsDue(due, v, was.seats) {
      assert v in was.seats;
    }
    forall u, v | u in Users(out) && v in left && left[v].deadline <= now
      ensures u in was.seats && was.seats[u].deadline <= left[v].deadline
    {
      var j :| 0 <= j < |out| && out[j].who.user == u;
      assert ReportAt(was, out, keys[j], j);
      assert keys[j] in keys;
      assert IsDue(due, u, was.seats) && IsDue(due, v, was.seats);
    }
  }

  /** Who is not among the reported holds none of the reported participations. */
  lemma KeyLeft(was: State, out: seq<Swept>, keys: seq<(Ulid, Ulid)>, v: Ulid)
    requires HuddleModel.Valid(was) && Reported(was, out, keys) && |out| == |keys|
    requires v in was.seats && v !in Users(out)
    ensures (was.seats[v].who.huddle, was.seats[v].who.id) !in keys
  {
    forall j | 0 <= j < |keys| ensures keys[j] != (was.seats[v].who.huddle, was.seats[v].who.id) {
      assert ReportAt(was, out, keys[j], j);
      assert Users(out)[j] == out[j].who.user;
      assert !SameSeat(was.seats[out[j].who.user].who, was.seats[v].who);
    }
  }

  /** The hash of a huddle nobody is in does not exist, and its version can go. */
  lemma EmptyHash(members: Members, s: State, huddle: Ulid)
    requires HuddleModel.Valid(s) && MembersMatch(members, s.seats) && Occupants(s, huddle) == {}
    ensures members - {huddle} == members
    ensures HuddleModel.Valid(s.(versions := s.versions - {huddle}, soon := s.soon - {huddle}))
  {
    HashSize(members, s, huddle);
    assert huddle !in members;
    forall u | u in s.seats ensures s.seats[u].who.huddle != huddle {
      assert u !in Occupants(s, huddle);
    }
  }

  /** Evicting every field of a huddle's hash takes exactly its people. */
  lemma ClearedAll(was: State, left: seq<Swept>, keys: seq<(Ulid, Ulid)>, huddle: Ulid)
    requires HuddleModel.Valid(was) && Reported(was, left, keys) && |left| == |keys|
    requires forall k :: k in keys ==> k.0 == huddle
    requires forall u :: u in Occupants(was, huddle) ==> (huddle, was.seats[u].who.id) in keys
    ensures Elements(Users(left)) == Occupants(was, huddle)
    ensures forall i :: 0 <= i < |left| ==> left[i].who.user in was.seats && was.seats[left[i].who.user].who == left[i].who
    ensures Occupants(VacateAll(was, Users(left)), huddle) == {}
  {
    forall i | 0 <= i < |left| ensures LeftAs(was, left[i], keys[i]) && keys[i].0 == huddle {
      assert ReportAt(was, left, keys[i], i);
    }
    forall u ensures u in Elements(Users(left)) <==> u in Occupants(was, huddle) {
      if u in Occupants(was, huddle) && u !in Users(left) { KeyLeft(was, left, keys, u); }
    }
    NobodyStays(was, Users(left), huddle);
  }

  lemma NobodyStays(was: State, users: seq<Ulid>, huddle: Ulid)
    requires HuddleModel.Valid(was) && Elements(users) == Occupants(was, huddle)
    ensures Occupants(VacateAll(was, users), huddle) == {}
  {
    HuddleRuns.VacateAllKeepsValid(was, users);
  }
}
