/** Presence in Redis: one hash per user, one field per instance holding how many of its connections are viewing. */
module Presence {
  import opened Common

  datatype State = Offline | Idle | Active

  datatype Notice = Notice(channel: Channel, user: Ulid, state: State)

  type Online = map<Ulid, map<Ulid, nat>>

  /** Offline without a field, active if some instance has a viewing connection, idle otherwise. */
  ghost function StateOf(fields: map<Ulid, nat>): State {
    if fields == map[] then Offline
    else if exists i :: i in fields && fields[i] > 0 then Active
    else Idle
  }

  /** A connected instance writes its field, one without connections deletes it. */
  function Written(online: Online, instance: Ulid, user: Ulid, total: nat, viewing: nat): Online {
    if total > 0 then PutField(online, user, instance, viewing) else DropField(online, user, instance)
  }

  /** What a change of state publishes: the new state, on every channel. */
  function Notices(channels: seq<Channel>, user: Ulid, state: State): seq<Notice> {
    seq(|channels|, i requires 0 <= i < |channels| => Notice(channels[i], user, state))
  }

  class Store {
    var online: Online
    var log: seq<Notice>

    constructor ()
      ensures online == map[] && log == []
    {
      online, log := map[], [];
    }

    /** state in syncScript: stop at the first field that is above zero. */
    method Measure(user: Ulid) returns (state: State)
      ensures state == StateOf(Row(online, user))
    {
      var fields := Row(online, user);
      if |fields| == 0 { return Offline; }
      var todo := fields.Keys;
      while todo != {}
        invariant todo <= fields.Keys
        invariant forall i :: i in fields && fields[i] > 0 ==> i in todo
        decreases |todo|
      {
        var i :| i in todo;
        if fields[i] > 0 { return Active; }
        todo := todo - {i};
      }
      state := Idle;
    }

    /** syncScript: the state is measured before and after the write, and a change is told in the same script. */
    method Sync(instance: Ulid, user: Ulid, total: nat, viewing: nat, channels: seq<Channel>) returns (state: State)
      modifies this
      ensures online == Written(old(online), instance, user, total, viewing)
      ensures state == StateOf(Row(online, user))
      ensures old(log) <= log && |log| == |old(log)| + if StateOf(Row(old(online), user)) == state then 0 else |channels|
      ensures forall k :: |old(log)| <= k < |log| ==> log[k] == Notice(channels[k - |old(log)|], user, StateOf(Row(online, user)))
    {
      var before := Measure(user);
      if total > 0 {
        online := PutField(online, user, instance, viewing);
      } else {
        online := DropField(online, user, instance);
      }
      state := Measure(user);
      if before != state {
        for i := 0 to |channels|
          invariant online == Written(old(online), instance, user, total, viewing)
          invariant old(log) <= log && |log| == |old(log)| + i
          invariant forall k :: |old(log)| <= k < |log| ==> log[k] == Notice(channels[k - |old(log)|], user, state)
        {
          log := log + [Notice(channels[i], user, state)];
        }
      }
    }

    /** refreshScript: the instance writes its fields again, telling nobody. */
    method Refresh(instance: Ulid, counts: map<Ulid, nat>)
      modifies this`online
      ensures online == Refreshed(old(online), instance, counts)
    {
      var todo := counts.Keys;
      ghost var was := online;
      while todo != {}
        invariant todo <= counts.Keys
        invariant RefreshedBut(was, online, instance, counts, todo)
        decreases |todo|
      {
        var u :| u in todo;
        online := PutField(online, u, instance, counts[u]);
        todo := todo - {u};
      }
      OneRefresh(was, online, Refreshed(was, instance, counts), instance, counts);
    }

    /** stateScript. */
    method States(users: seq<Ulid>) returns (states: seq<State>)
      ensures |states| == |users| && forall i :: 0 <= i < |users| ==> states[i] == StateOf(Row(online, users[i]))
    {
      states := [];
      for i := 0 to |users|
        invariant |states| == i && forall j :: 0 <= j < i ==> states[j] == StateOf(Row(online, users[j]))
      {
        var state := Measure(users[i]);
        states := states + [state];
      }
    }
  }

  /** The hash of every counted user has the instance's field set anew; nothing else changes. */
  ghost predicate RefreshedBut(was: Online, now: Online, instance: Ulid, counts: map<Ulid, nat>, todo: set<Ulid>) {
    && (forall u :: u in now <==> u in was || (u in counts && u !in todo))
    && forall u :: u in now ==> now[u] == if u in counts && u !in todo then Row(was, u)[instance := counts[u]] else was[u]
  }

  ghost function Refreshed(was: Online, instance: Ulid, counts: map<Ulid, nat>): (now: Online)
    ensures RefreshedBut(was, now, instance, counts, {})
  {
    map u | u in was.Keys + counts.Keys :: if u in counts then Row(was, u)[instance := counts[u]] else was[u]
  }

  lemma OneRefresh(was: Online, a: Online, b: Online, instance: Ulid, counts: map<Ulid, nat>)
    requires RefreshedBut(was, a, instance, counts, {}) && RefreshedBut(was, b, instance, counts, {})
    ensures a == b
  {
    assert a.Keys == b.Keys;
  }

  // ---- one script ----

  /** What a sync leaves in one field, and that it leaves every other field alone. */
  lemma WrittenFields(online: Online, instance: Ulid, user: Ulid, total: nat, viewing: nat)
    ensures var now := Written(online, instance, user, total, viewing);
            && (forall u :: u != user ==> Row(now, u) == Row(online, u))
            && Row(now, user) == if total > 0 then Row(online, user)[instance := viewing] else Row(online, user) - {instance}
  {
  }

  /** A user is active, idle or offline exactly as some instance counts a viewing connection, any connection, or none. */
  lemma StateMeans(fields: map<Ulid, nat>)
    ensures StateOf(fields) == Active <==> exists i :: i in fields && fields[i] > 0
    ensures StateOf(fields) == Idle <==> (exists i :: i in fields) && forall i :: i in fields ==> fields[i] == 0
    ensures StateOf(fields) == Offline <==> forall i :: i !in fields
  {
    if fields != map[] {
      assert fields.Keys != {};
      var i :| i in fields.Keys;
    }
  }
}
