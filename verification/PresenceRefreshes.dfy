/** What the periodic refresh can do: which refreshes make presence false, and two runs in which one does harm. */
module PresenceRefreshes {
  import opened Common
  import opened Presence
  import opened PresenceRuns
  import opened PresenceTold
  import opened Runs

  // ---- a refresh that is not harmless ----

  ghost predicate NoRefresh(steps: seq<Step>) {
    forall i :: 0 <= i < |steps| ==> !steps[i].Refresh?
  }

  /** Without another refresh the stored state is true whenever no sync of the user is under way. */
  ghost predicate StaysTruthful(w: World, user: Ulid) {
    forall states, steps {:trigger IsPath(IsStep, states, steps)} ::
      IsPath(IsStep, states, steps) && states[0] == w && NoRefresh(steps) && Quiet(states[|steps|], user)
      ==> Truthful(states[|steps|], user)
  }

  /** One field of a quiet user contradicts what its instance has announced; the others agree. */
  ghost predicate Lying(w: World, instance: Ulid, user: Ulid) {
    && Quiet(w, user) && NoneAnnounced(w)
    && (forall i :: Announced(w, i, user) == Tally(w.conns, i, user))
    && (forall i {:trigger FieldMatches(w, i, user, false)} :: i != instance ==> FieldMatches(w, i, user, false))
    && instance in Row(w.online, user) && !FieldMatches(w, instance, user, false)
  }

  function Elsewhere(conns: map<Ulid, Conn>, instance: Ulid, user: Ulid): set<Ulid> {
    set c | c in conns && conns[c].user == user && conns[c].instance != instance
  }

  /** A connection of another instance goes, and its sync runs. */
  lemma OneGoes(w: World, instance: Ulid, user: Ulid, o: Ulid, c: Ulid) returns (gone: World, compared: World, n: World)
    requires Lying(w, instance, user) && o !in w.ops && c in Elsewhere(w.conns, instance, user)
    ensures IsStep(w, Disconnect(c, o), gone) && IsStep(gone, Compare(o), compared) && IsStep(compared, Write(o, []), n)
    ensures Lying(n, instance, user) && o !in n.ops && n.conns == w.conns - {c}
  {
    var j := w.conns[c].instance;
    gone := Next(w, Disconnect(c, o));
    assert ConnsOf(gone.conns, j, user) == ConnsOf(w.conns, j, user) - {c} && c in ConnsOf(w.conns, j, user);
    assert FieldMatches(w, j, user, false) && Announced(w, j, user) == Tally(w.conns, j, user);
    SubsetSize(ViewersOf(gone.conns, j, user), ConnsOf(gone.conns, j, user));
    compared := Next(gone, Compare(o));
    n := Next(compared, Write(o, []));
    WrittenFields(w.online, j, user, compared.ops[o].counts.total, compared.ops[o].counts.viewing);
    forall i ensures Announced(n, i, user) == Tally(n.conns, i, user) {
      if i != j {
        TallyElsewhere(w.conns, n.conns, c, i, user);
        assert Announced(w, i, user) == Tally(w.conns, i, user);
      }
    }
    forall i | i != j ensures FieldMatches(n, i, user, false) == FieldMatches(w, i, user, false) {}
  }

  /** When only that instance has connections left, the stored state is false. */
  lemma {:induction false} LiesComeOut(states: seq<World>, steps: seq<Step>, instance: Ulid, user: Ulid, o: Ulid)
    returns (more: seq<World>, all: seq<Step>)
    requires IsPath(IsStep, states, steps) && NoRefresh(steps)
    requires Lying(states[|steps|], instance, user) && o !in states[|steps|].ops
    ensures IsPath(IsStep, more, all) && NoRefresh(all) && more[0] == states[0]
    ensures Quiet(more[|all|], user) && !Truthful(more[|all|], user)
    decreases |Elsewhere(states[|steps|].conns, instance, user)|
  {
    var w := states[|steps|];
    if c :| c in Elsewhere(w.conns, instance, user) {
      var gone, compared, n := OneGoes(w, instance, user, o, c);
      Longer(IsStep, states, steps, Disconnect(c, o), gone);
      Longer(IsStep, states + [gone], steps + [Disconnect(c, o)], Compare(o), compared);
      Longer(IsStep, states + [gone] + [compared], steps + [Disconnect(c, o)] + [Compare(o)], Write(o, []), n);
      assert Elsewhere(n.conns, instance, user) == Elsewhere(w.conns, instance, user) - {c};
      more, all := LiesComeOut(states + [gone] + [compared] + [n], steps + [Disconnect(c, o)] + [Compare(o)] + [Write(o, [])],
                               instance, user, o);
    } else {
      more, all := states, steps;
      LoneLie(w, instance, user);
    }
  }

  lemma LoneLie(w: World, instance: Ulid, user: Ulid)
    requires Lying(w, instance, user) && Elsewhere(w.conns, instance, user) == {}
    ensures !Truthful(w, user)
  {
    var fields := Row(w.online, user);
    forall i | i != instance ensures i !in fields {
      assert ConnsOf(w.conns, i, user) <= Elsewhere(w.conns, instance, user);
      assert FieldMatches(w, i, user, false) && Announced(w, i, user) == Tally(w.conns, i, user);
    }
    StateMeans(fields);
    assert Announced(w, instance, user) == Tally(w.conns, instance, user);
    forall c | c in w.conns && w.conns[c].user == user
      ensures c in ConnsOf(w.conns, instance, user)
      ensures w.conns[c].viewing ==> c in ViewersOf(w.conns, instance, user)
    {
      assert c !in Elsewhere(w.conns, instance, user);
    }
    if ViewersOf(w.conns, instance, user) != {} { var v :| v in ViewersOf(w.conns, instance, user); }
  }

  /** For a user without a sync under way: the stored state stays true after a refresh, whatever happens but another refresh,
      exactly if the refresh was harmless. */
  lemma HarmlessOrLies(w: World, r: Ulid, user: Ulid, o: Ulid)
    requires Inv(w, user, false) && Legal(w, Refresh(r)) && Quiet(w, user) && o !in w.ops
    ensures StaysTruthful(Next(w, Refresh(r)), user) <==> Harmless(w, r, user, false)
  {
    var n := Next(w, Refresh(r));
    RefreshKeepsInvIff(w, r, user, false);
    if Harmless(w, r, user, false) {
      forall states, steps | IsPath(IsStep, states, steps) && states[0] == n && NoRefresh(steps) && Quiet(states[|steps|], user)
        ensures Truthful(states[|steps|], user)
      {
        PathKeepsInv(states, steps, user, false, |steps|);
        QuietInvIsTrue(states[|steps|], user);
      }
    } else {
      BecomesALie(w, r, user);
      var states, steps := LiesComeOut([n], [], w.ops[r].instance, user, o);
    }
  }

  lemma BecomesALie(w: World, r: Ulid, user: Ulid)
    requires Inv(w, user, false) && Legal(w, Refresh(r)) && Quiet(w, user) && !Harmless(w, r, user, false)
    ensures Lying(Next(w, Refresh(r)), w.ops[r].instance, user)
  {
    var n, instance := Next(w, Refresh(r)), w.ops[r].instance;
    RefreshedRow(w, r, user);
    forall i ensures Announced(n, i, user) == Tally(n.conns, i, user) {
      assert Announced(w, i, user) == Tally(w.conns, i, user) || IsRequested(w, i, user);
    }
    forall i | i != instance ensures FieldMatches(n, i, user, false) {
      assert FieldMatches(w, i, user, false);
    }
  }

  // ---- what refreshes can do ----

  /** One connection has come and its instance has announced it. */
  lemma FirstConnection(c: Ulid, instance: Ulid, user: Ulid, o: Ulid) returns (states: seq<World>, steps: seq<Step>)
    ensures IsRun(states, steps) && steps == [Connect(c, instance, user, o), Compare(o)]
    ensures states[2] == World(map[c := Conn(instance, user, false)], map[(instance, user) := Counts(1, 0)],
                               map[o := Writing(instance, user, Counts(1, 0))], map[], [])
  {
    var asked := Next(INITIAL, Connect(c, instance, user, o));
    Longer(IsStep, [INITIAL], [], Connect(c, instance, user, o), asked);
    assert ConnsOf(asked.conns, instance, user) == {c} && ViewersOf(asked.conns, instance, user) == {};
    var w := Next(asked, Compare(o));
    Longer(IsStep, [INITIAL] + [asked], [] + [Connect(c, instance, user, o)], Compare(o), w);
    states, steps := [INITIAL] + [asked] + [w], [] + [Connect(c, instance, user, o)] + [Compare(o)];
  }

  lemma Then(states: seq<World>, steps: seq<Step>, step: Step) returns (more: seq<World>, all: seq<Step>)
    requires IsRun(states, steps) && Legal(states[|steps|], step)
    ensures IsRun(more, all) && all == steps + [step] && more == states + [Next(states[|steps|], step)]
  {
    more, all := states + [Next(states[|steps|], step)], steps + [step];
    Longer(IsStep, states, steps, step, Next(states[|steps|], step));
  }

  function OneIdle(instance: Ulid, user: Ulid): Online {
    map[user := map[instance := 0]]
  }

  lemma OneField(instance: Ulid, user: Ulid)
    ensures Written(map[], instance, user, 1, 0) == OneIdle(instance, user)
    ensures Written(OneIdle(instance, user), instance, user, 1, 0) == OneIdle(instance, user)
    ensures Refreshed(map[], instance, map[user := 0]) == OneIdle(instance, user)
    ensures StateOf(Row(OneIdle(instance, user), user)) == Idle
  {
    var online := OneIdle(instance, user);
    var fields := Row(online, user);
    assert fields == map[instance := 0] && fields[instance := 0] == fields && online[user := fields] == online;
    StateMeans(fields);
    assert instance in fields;
    OneRefresh(map[], Refreshed(map[], instance, map[user := 0]), online, instance, map[user := 0]);
  }

  /** The connection has come; a refresh copies its count and writes it before the sync does. */
  lemma RefreshGoesFirst(c: Ulid, instance: Ulid, user: Ulid, o: Ulid, r: Ulid) returns (states: seq<World>, steps: seq<Step>)
    requires o != r
    ensures IsRun(states, steps)
    ensures steps == [Connect(c, instance, user, o), Compare(o), CopyCounts(r, instance, map[user := 0]), Refresh(r)]
    ensures states[4] == World(map[c := Conn(instance, user, false)], map[(instance, user) := Counts(1, 0)],
                               map[o := Writing(instance, user, Counts(1, 0))], OneIdle(instance, user), [])
    ensures states[3] == states[4].(online := map[], ops := states[4].ops[r := Copied(instance, map[user := 0])])
  {
    states, steps := FirstConnection(c, instance, user, o);
    OneField(instance, user);
    states, steps := Then(states, steps, CopyCounts(r, instance, map[user := 0]));
    states, steps := Then(states, steps, Refresh(r));
  }

  /** Every sync of the run names the same channels. */
  ghost predicate AllName(steps: seq<Step>, channels: seq<Channel>) {
    forall k :: 0 <= k < |steps| && steps[k].Write? ==> steps[k].channels == channels
  }

  lemma AllTold(states: seq<World>, steps: seq<Step>, channels: seq<Channel>, ch: Channel, user: Ulid)
    requires IsRun(states, steps) && AllName(steps, channels) && Once(channels, ch)
    ensures AlwaysTold(states, steps, ch, user)
  {
  }

  /** A refresh between a sync's comparison and its script writes the new state without telling it, and the script then finds
      no change. Every sync of the run names the channel, its one refresh is harmless and the last state is true: the user is
      idle. Yet nobody is ever told, whereas the sync would have told it without the refresh. */
  lemma RefreshCanSilenceASync(c: Ulid, instance: Ulid, user: Ulid, o: Ulid, r: Ulid, channels: seq<Channel>, ch: Channel)
    returns (states: seq<World>, steps: seq<Step>)
    requires o != r && Once(channels, ch)
    ensures IsRun(states, steps) && AlwaysTold(states, steps, ch, user) && RefreshesHarmless(states, steps, user, true)
    ensures steps == [Connect(c, instance, user, o), Compare(o), CopyCounts(r, instance, map[user := 0]), Refresh(r), Write(o, channels)]
    ensures Silences(states[3], r, o, channels)
    ensures Quiet(states[5], user) && StateOf(Row(states[5].online, user)) == Idle && states[5].log == []
  {
    states, steps := RefreshGoesFirst(c, instance, user, o, r);
    WouldTell(states[3], instance, user, r, o, channels);
    NobodyIsTold(states[4], c, instance, user, o, channels);
    states, steps := Then(states, steps, Write(o, channels));
    FourthIsHarmless(states, steps, user, r, channels, ch);
  }

  lemma FourthIsHarmless(states: seq<World>, steps: seq<Step>, user: Ulid, r: Ulid, channels: seq<Channel>, ch: Channel)
    requires IsRun(states, steps) && AllName(steps, channels) && Once(channels, ch)
    requires |steps| == 5 && steps[3] == Refresh(r) && NoRefresh(steps[..3]) && !steps[4].Refresh?
    requires IsStep(states[3], Refresh(r), states[4]) && Harmless(states[3], r, user, true)
    ensures AlwaysTold(states, steps, ch, user) && RefreshesHarmless(states, steps, user, true)
  {
    AllTold(states, steps, channels, ch, user);
    forall i | 0 <= i < |steps| && i != 3 ensures !steps[i].Refresh? {
      if i < 3 { assert steps[i] == steps[..3][i]; }
    }
    OneHarmless(states, steps, user, 3);
  }

  lemma OneHarmless(states: seq<World>, steps: seq<Step>, user: Ulid, k: nat)
    requires IsRun(states, steps) && k < |steps| && steps[k].Refresh? && IsStep(states[k], steps[k], states[k + 1])
    requires Harmless(states[k], steps[k].o, user, true)
    requires forall i :: 0 <= i < |steps| && i != k ==> !steps[i].Refresh?
    ensures RefreshesHarmless(states, steps, user, true)
  {
  }

  lemma NobodyIsTold(w: World, c: Ulid, instance: Ulid, user: Ulid, o: Ulid, channels: seq<Channel>)
    requires w == World(map[c := Conn(instance, user, false)], map[(instance, user) := Counts(1, 0)],
                        map[o := Writing(instance, user, Counts(1, 0))], OneIdle(instance, user), [])
    ensures var n := Next(w, Write(o, channels));
            Quiet(n, user) && StateOf(Row(n.online, user)) == Idle && n.log == []
  {
    OneField(instance, user);
  }

  lemma WouldTell(w: World, instance: Ulid, user: Ulid, r: Ulid, o: Ulid, channels: seq<Channel>)
    requires w.online == map[] && channels != [] && o != r
    requires w.ops == map[o := Writing(instance, user, Counts(1, 0)), r := Copied(instance, map[user := 0])]
    ensures Silences(w, r, o, channels) && Harmless(w, r, user, true)
  {
    assert IsWriting(w.ops[o], instance, user);
    SilencesIff(w, r, o, channels);
  }

  function OneState(channels: seq<Channel>, user: Ulid): seq<Notice> {
    Notices(channels, user, Idle)
  }

  function BothStates(channels: seq<Channel>, user: Ulid): seq<Notice> {
    Notices(channels, user, Idle) + Notices(channels, user, Offline)
  }

  /** The connection of FirstConnection is told and goes again; a refresh copied its count in between. */
  lemma ComesAndGoes(c: Ulid, instance: Ulid, user: Ulid, o: Ulid, r: Ulid, channels: seq<Channel>)
    returns (states: seq<World>, steps: seq<Step>)
    requires o != r
    ensures IsRun(states, steps)
    ensures steps == [Connect(c, instance, user, o), Compare(o), Write(o, channels), CopyCounts(r, instance, map[user := 0]), Disconnect(c, o)]
    ensures states[5] == World(map[], map[(instance, user) := Counts(1, 0)],
                               map[r := Copied(instance, map[user := 0]), o := Requested(instance, user)],
                               OneIdle(instance, user), OneState(channels, user))
  {
    states, steps := FirstConnection(c, instance, user, o);
    OneField(instance, user);
    states, steps := Then(states, steps, Write(o, channels));
    assert [] + Notices(channels, user, Idle) == Notices(channels, user, Idle);
    states, steps := Then(states, steps, CopyCounts(r, instance, map[user := 0]));
    states, steps := Then(states, steps, Disconnect(c, o));
    assert states[5].conns == map[];
  }

  /** The sync of the disconnect runs to its end. */
  lemma GoesAndIsTold(c: Ulid, instance: Ulid, user: Ulid, o: Ulid, r: Ulid, channels: seq<Channel>)
    returns (states: seq<World>, steps: seq<Step>)
    requires o != r
    ensures IsRun(states, steps) && |steps| == 7 && NoRefresh(steps) && AllName(steps, channels)
    ensures states[7] == World(map[], map[], map[r := Copied(instance, map[user := 0])], map[], BothStates(channels, user))
  {
    states, steps := ComesAndGoes(c, instance, user, o, r, channels);
    LastSync(states[5], instance, user, o, r, channels);
    states, steps := Then(states, steps, Compare(o));
    states, steps := Then(states, steps, Write(o, channels));
  }

  lemma LastSync(w: World, instance: Ulid, user: Ulid, o: Ulid, r: Ulid, channels: seq<Channel>)
    requires o != r
    requires w == World(map[], map[(instance, user) := Counts(1, 0)],
                        map[r := Copied(instance, map[user := 0]), o := Requested(instance, user)],
                        OneIdle(instance, user), OneState(channels, user))
    ensures Legal(w, Compare(o)) && Legal(Next(w, Compare(o)), Write(o, channels))
    ensures Next(Next(w, Compare(o)), Write(o, channels))
            == World(map[], map[], map[r := Copied(instance, map[user := 0])], map[], BothStates(channels, user))
  {
    assert ConnsOf(map[], instance, user) == {} && ViewersOf(map[], instance, user) == {};
    var m := Next(w, Compare(o));
    assert m.ops[o] == Writing(instance, user, Counts(0, 0)) && m.announced == map[];
    OneField(instance, user);
    assert Next(m, Write(o, channels)).online == map[];
  }

  lemma BackIdle(w: World, instance: Ulid, user: Ulid, r: Ulid, channels: seq<Channel>, ch: Channel)
    requires w == World(map[], map[], map[r := Copied(instance, map[user := 0])], map[], BothStates(channels, user)) && Once(channels, ch)
    ensures Quiet(w, user) && Legal(w, Refresh(r)) && !Harmless(w, r, user, false)
    ensures var n := Next(w, Refresh(r));
            && Quiet(n, user) && n.conns == map[]
            && StateOf(Row(n.online, user)) == Idle && Last(Told(n.log, ch, user)) == Offline
  {
    OneField(instance, user);
    assert Unlocked(w, instance, user);
    ToldJoined(Notices(channels, user, Idle), Notices(channels, user, Offline), ch, user);
    NoticesTold(channels, Notices(channels, user, Offline), user, Offline, ch, user);
    assert Repeated(Offline, 1) == [Offline];
  }

  /** A refresh that writes counts copied before a disconnect brings the deleted field back. It is the only refresh of the run
      and every sync names the channel; at the end nobody is connected, the user is stored as idle until the field expires,
      and the last thing told on the channel is that the user is offline. */
  lemma StaleRefreshRevives(c: Ulid, instance: Ulid, user: Ulid, o: Ulid, r: Ulid, channels: seq<Channel>, ch: Channel)
    returns (states: seq<World>, steps: seq<Step>)
    requires o != r && Once(channels, ch)
    ensures IsRun(states, steps) && AlwaysTold(states, steps, ch, user) && |steps| == 8 && NoRefresh(steps[..7]) && steps[7] == Refresh(r)
    ensures Quiet(states[7], user) && Legal(states[7], Refresh(r)) && !Harmless(states[7], r, user, false)
    ensures var w := states[8];
            && Quiet(w, user) && w.conns == map[]
            && StateOf(Row(w.online, user)) == Idle && Last(Told(w.log, ch, user)) == Offline
  {
    states, steps := GoesAndIsTold(c, instance, user, o, r, channels);
    BackIdle(states[7], instance, user, r, channels, ch);
    states, steps := Then(states, steps, Refresh(r));
    AllTold(states, steps, channels, ch, user);
    assert steps[..7] == steps[..|steps| - 1];
  }
}
