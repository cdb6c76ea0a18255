/** What is told of a user against what is stored, and what the periodic refresh, which tells nobody, does to the two. */
module PresenceTold {
  import opened Common
  import opened Presence
  import opened PresenceRuns
  import opened Runs

  // ---- what is told ----

  /** The states told of one user on one channel, in order. */
  function Told(log: seq<Notice>, ch: Channel, user: Ulid): seq<State> {
    if log == [] then []
    else
      var last := log[|log| - 1];
      Told(log[..|log| - 1], ch, user) + if last.channel == ch && last.user == user then [last.state] else []
  }

  function Last(told: seq<State>): State {
    if told == [] then Offline else told[|told| - 1]
  }

  /** Each announcement says something new; before the first the user is offline. */
  ghost predicate EachIsNews(told: seq<State>) {
    forall k :: 0 <= k < |told| ==> told[k] != Last(told[..k])
  }

  ghost predicate Agrees(w: World, ch: Channel, user: Ulid) {
    EachIsNews(Told(w.log, ch, user)) && Last(Told(w.log, ch, user)) == StateOf(Row(w.online, user))
  }

  ghost predicate Once(channels: seq<Channel>, ch: Channel) {
    multiset(channels)[ch] == 1
  }

  /** If the step is the script of a sync of the user, it names the channel, once. */
  ghost predicate TellsOn(w: World, step: Step, ch: Channel, user: Ulid)
    requires Legal(w, step)
  {
    step.Write? && w.ops[step.o].user == user ==> Once(step.channels, ch)
  }

  /** Every sync of the user named the channel. */
  ghost predicate AlwaysTold(states: seq<World>, steps: seq<Step>, ch: Channel, user: Ulid)
    requires IsPath(IsStep, states, steps)
  {
    forall k {:trigger steps[k]} :: 0 <= k < |steps| && StepAt(IsStep, states, steps, k) ==> TellsOn(states[k], steps[k], ch, user)
  }

  lemma {:induction false} ToldJoined(log: seq<Notice>, more: seq<Notice>, ch: Channel, user: Ulid)
    ensures Told(log + more, ch, user) == Told(log, ch, user) + Told(more, ch, user)
    decreases |more|
  {
    if more == [] {
      assert log + more == log;
    } else {
      ToldJoined(log, more[..|more| - 1], ch, user);
      assert (log + more)[..|log + more| - 1] == log + more[..|more| - 1];
    }
  }

  /** The same state over and over. */
  function Repeated(state: State, n: nat): seq<State> {
    if n == 0 then [] else Repeated(state, n - 1) + [state]
  }

  lemma CountMore(channels: seq<Channel>, ch: Channel)
    requires channels != []
    ensures multiset(channels)[ch] == multiset(channels[..|channels| - 1])[ch] + if channels[|channels| - 1] == ch then 1 else 0
  {
    assert channels == channels[..|channels| - 1] + [channels[|channels| - 1]];
  }

  /** One change of state is heard on a channel as often as the channel is named, and of nobody else. */
  lemma {:induction false} NoticesTold(channels: seq<Channel>, notices: seq<Notice>, user: Ulid, state: State, ch: Channel, other: Ulid)
    requires |notices| == |channels| && forall k :: 0 <= k < |channels| ==> notices[k] == Notice(channels[k], user, state)
    ensures Told(notices, ch, other) == Repeated(state, if other == user then multiset(channels)[ch] else 0)
    decreases |channels|
  {
    if channels != [] {
      var n := |channels| - 1;
      NoticesTold(channels[..n], notices[..n], user, state, ch, other);
      CountMore(channels, ch);
    }
  }

  lemma WriteAgrees(w: World, o: Ulid, channels: seq<Channel>, ch: Channel, user: Ulid)
    requires o in w.ops && w.ops[o].Writing? && Agrees(w, ch, user) && (w.ops[o].user == user ==> Once(channels, ch))
    ensures Agrees(Wrote(w, o, channels), ch, user)
  {
    var n := Wrote(w, o, channels);
    var op := w.ops[o];
    WrittenFields(w.online, op.instance, op.user, op.counts.total, op.counts.viewing);
    var after := StateOf(Row(n.online, op.user));
    if after != StateOf(Row(w.online, op.user)) {
      NoticesTold(channels, Notices(channels, op.user, after), op.user, after, ch, user);
      assert Repeated(after, 1) == [after];
      ToldJoined(w.log, Notices(channels, op.user, after), ch, user);
      NewsAgrees(w, n, ch, user, if op.user == user then [after] else []);
    }
  }

  /** One new state, told and stored, or nothing of this user. */
  lemma NewsAgrees(w: World, n: World, ch: Channel, user: Ulid, news: seq<State>)
    requires Agrees(w, ch, user) && Told(n.log, ch, user) == Told(w.log, ch, user) + news
    requires news == [] ==> StateOf(Row(n.online, user)) == StateOf(Row(w.online, user))
    requires news != [] ==> news == [StateOf(Row(n.online, user))] && news[0] != StateOf(Row(w.online, user))
    ensures Agrees(n, ch, user)
  {
    var told, more := Told(w.log, ch, user), Told(n.log, ch, user);
    forall k | 0 <= k < |more| ensures more[k] != Last(more[..k]) {
      assert more[..k] == told[..k];
    }
  }

  // ---- what a refresh does to what is told ----

  /** Some other instance has a field of the user, some other one a positive one. */
  ghost predicate OtherField(fields: map<Ulid, nat>, instance: Ulid) {
    exists j :: j in fields && j != instance
  }

  ghost predicate OtherViews(fields: map<Ulid, nat>, instance: Ulid) {
    exists j :: j in fields && j != instance && fields[j] > 0
  }

  /** Writing a field goes unnoticed if another instance counts a viewing connection, or the field is positive as before, or it
      comes as zero beside another one. */
  ghost predicate Unnoticed(fields: map<Ulid, nat>, instance: Ulid, count: nat) {
    || OtherViews(fields, instance)
    || if instance in fields then fields[instance] > 0 <==> count > 0 else count == 0 && OtherField(fields, instance)
  }

  lemma UnnoticedMeans(fields: map<Ulid, nat>, instance: Ulid, count: nat)
    ensures Unnoticed(fields, instance, count) <==> StateOf(fields[instance := count]) == StateOf(fields)
  {
    var after := fields[instance := count];
    StateMeans(fields);
    StateMeans(after);
    assert instance in after && after[instance] == count;
    forall j | j in fields && j != instance ensures j in after && after[j] == fields[j] {}
  }

  ghost predicate RefreshUnnoticed(w: World, o: Ulid, user: Ulid)
    requires o in w.ops && w.ops[o].Copied?
  {
    user in w.ops[o].fields ==> Unnoticed(Row(w.online, user), w.ops[o].instance, w.ops[o].fields[user])
  }

  /** A refresh keeps what was told of a user in agreement with what is stored exactly if its field goes unnoticed. */
  lemma RefreshAgreesIff(w: World, o: Ulid, ch: Channel, user: Ulid)
    requires Legal(w, Refresh(o)) && Agrees(w, ch, user)
    ensures Agrees(Next(w, Refresh(o)), ch, user) <==> RefreshUnnoticed(w, o, user)
  {
    RefreshedRow(w, o, user);
    if user in w.ops[o].fields {
      UnnoticedMeans(Row(w.online, user), w.ops[o].instance, w.ops[o].fields[user]);
    }
  }

  ghost predicate RefreshesUnnoticed(states: seq<World>, steps: seq<Step>, user: Ulid, i: nat)
    requires IsPath(IsStep, states, steps) && i <= |steps|
  {
    forall k {:trigger steps[k]} :: 0 <= k < i && StepAt(IsStep, states, steps, k) && steps[k].Refresh? ==>
      RefreshUnnoticed(states[k], steps[k].o, user)
  }

  lemma StepAgrees(w: World, step: Step, ch: Channel, user: Ulid)
    requires Legal(w, step) && Agrees(w, ch, user) && TellsOn(w, step, ch, user)
    ensures Agrees(Next(w, step), ch, user) <==> (step.Refresh? ==> RefreshUnnoticed(w, step.o, user))
  {
    if step.Write? {
      WriteAgrees(w, step.o, step.channels, ch, user);
    } else if step.Refresh? {
      RefreshAgreesIff(w, step.o, ch, user);
    }
  }

  ghost predicate AgreesAllAlong(states: seq<World>, ch: Channel, user: Ulid, i: nat)
    requires i < |states|
  {
    forall k {:trigger states[k]} :: 0 <= k <= i ==> Agrees(states[k], ch, user)
  }

  lemma {:induction false} AgreesIffUnnoticed(states: seq<World>, steps: seq<Step>, ch: Channel, user: Ulid, i: nat)
    requires IsRun(states, steps) && AlwaysTold(states, steps, ch, user) && i <= |steps|
    ensures AgreesAllAlong(states, ch, user, i) <==> RefreshesUnnoticed(states, steps, user, i)
  {
    if i > 0 {
      AgreesIffUnnoticed(states, steps, ch, user, i - 1);
      assert StepAt(IsStep, states, steps, i - 1);
      UnnoticedMore(states, steps, user, i - 1);
      assert TellsOn(states[i - 1], steps[i - 1], ch, user);
      if Agrees(states[i - 1], ch, user) { StepAgrees(states[i - 1], steps[i - 1], ch, user); }
      AgreesMore(states, ch, user, i - 1);
    }
  }

  lemma AgreesMore(states: seq<World>, ch: Channel, user: Ulid, i: nat)
    requires i + 1 < |states|
    ensures AgreesAllAlong(states, ch, user, i + 1) <==> AgreesAllAlong(states, ch, user, i) && Agrees(states[i + 1], ch, user)
    ensures AgreesAllAlong(states, ch, user, i) ==> Agrees(states[i], ch, user)
  {
  }

  lemma UnnoticedMore(states: seq<World>, steps: seq<Step>, user: Ulid, i: nat)
    requires IsPath(IsStep, states, steps) && i < |steps| && IsStep(states[i], steps[i], states[i + 1])
    ensures RefreshesUnnoticed(states, steps, user, i + 1)
            <==> RefreshesUnnoticed(states, steps, user, i) && (steps[i].Refresh? ==> RefreshUnnoticed(states[i], steps[i].o, user))
  {
  }

  /** In every run, on every channel that each sync of the user names: the states heard of the user differ one from the next and the
      last one is the stored state, all along the run, exactly if every refresh went unnoticed. */
  lemma ToldIsStored(states: seq<World>, steps: seq<Step>, ch: Channel, user: Ulid, i: nat)
    requires IsRun(states, steps) && AlwaysTold(states, steps, ch, user) && i <= |steps|
    ensures (forall k :: 0 <= k <= i ==>
               && EachIsNews(Told(states[k].log, ch, user))
               && Last(Told(states[k].log, ch, user)) == StateOf(Row(states[k].online, user)))
            <==> RefreshesUnnoticed(states, steps, user, i)
  {
    AgreesIffUnnoticed(states, steps, ch, user, i);
    forall k | 0 <= k <= i
      ensures Agrees(states[k], ch, user) <==>
                EachIsNews(Told(states[k].log, ch, user)) && Last(Told(states[k].log, ch, user)) == StateOf(Row(states[k].online, user))
    {}
  }

  // ---- prompt refreshes ----

  /** What the refresh writes for the user is what the instance has announced, and no sync holds the user's lock. */
  ghost predicate Prompt(w: World, o: Ulid, user: Ulid)
    requires o in w.ops && w.ops[o].Copied?
  {
    user in w.ops[o].fields ==> Unlocked(w, w.ops[o].instance, user) && Current(w, o, user, true)
  }

  lemma PromptKeepsRow(w: World, o: Ulid, user: Ulid)
    requires Inv(w, user, true) && Legal(w, Refresh(o)) && Prompt(w, o, user)
    ensures Row(Next(w, Refresh(o)).online, user) == Row(w.online, user) && RefreshUnnoticed(w, o, user)
  {
    RefreshedRow(w, o, user);
    if user in w.ops[o].fields {
      assert FieldMatches(w, w.ops[o].instance, user, true);
    }
  }

  /** Counts copied while no sync of the instance is under way, and written before one is, change no field. */
  lemma PromptRefreshIsCurrent(w: World, o: Ulid)
    requires Legal(w, Refresh(o)) && CopyOf(w, w.ops[o].instance, w.ops[o].fields)
    requires forall u :: u in w.ops[o].fields ==> Inv(w, u, true) && Unlocked(w, w.ops[o].instance, u)
    ensures Next(w, Refresh(o)).online == w.online
  {
    var op := w.ops[o];
    var now := Refreshed(w.online, op.instance, op.fields);
    forall u | u in op.fields ensures u in w.online && w.online[u][op.instance := op.fields[u]] == w.online[u] {
      assert FieldMatches(w, op.instance, u, true);
    }
    assert RefreshedBut(w.online, now, op.instance, op.fields, {});
    assert RefreshedBut(w.online, w.online, op.instance, op.fields, {});
    OneRefresh(w.online, now, w.online, op.instance, op.fields);
  }

  ghost predicate RefreshesPrompt(states: seq<World>, steps: seq<Step>, user: Ulid)
    requires IsPath(IsStep, states, steps)
  {
    forall k {:trigger steps[k]} :: 0 <= k < |steps| && StepAt(IsStep, states, steps, k) && steps[k].Refresh? ==>
      Prompt(states[k], steps[k].o, user)
  }

  /** In every run whose refreshes are prompt they change nothing stored of the user, what is told of the user is what is stored,
      and that is true whenever no sync of the user is under way. */
  lemma PromptRefreshesAreSafe(states: seq<World>, steps: seq<Step>, ch: Channel, user: Ulid, i: nat)
    requires IsRun(states, steps) && AlwaysTold(states, steps, ch, user) && RefreshesPrompt(states, steps, user) && i <= |steps|
    ensures i < |steps| && steps[i].Refresh? ==> Row(states[i + 1].online, user) == Row(states[i].online, user)
    ensures EachIsNews(Told(states[i].log, ch, user)) && Last(Told(states[i].log, ch, user)) == StateOf(Row(states[i].online, user))
    ensures Quiet(states[i], user) ==> Truthful(states[i], user)
  {
    InitialInv(user, true);
    forall k: nat | k < |steps| && StepAt(IsStep, states, steps, k) && steps[k].Refresh?
      ensures RefreshUnnoticed(states[k], steps[k].o, user) && Row(states[k + 1].online, user) == Row(states[k].online, user)
    {
      PathKeepsInv(states, steps, user, true, k);
      assert StepAt(IsStep, states, steps, k);
      PromptKeepsRow(states[k], steps[k].o, user);
    }
    ToldIsStored(states, steps, ch, user, i);
    PathKeepsInv(states, steps, user, true, i);
    if Quiet(states[i], user) {
      forall a | Unlocked(states[i], a, user) ensures FieldMatches(states[i], a, user, false) {
        assert FieldMatches(states[i], a, user, true);
      }
      QuietInvIsTrue(states[i], user);
    }
  }

  // ---- a refresh while a sync is under way ----

  /** The sync `o` would tell a change if its script ran now, and tells nothing if the refresh `r` runs right before it. */
  ghost predicate Silences(w: World, r: Ulid, o: Ulid, channels: seq<Channel>) {
    && o in w.ops && w.ops[o].Writing? && Legal(w, Refresh(r))
    && Wrote(w, o, channels).log != w.log && Wrote(Next(w, Refresh(r)), o, channels).log == w.log
  }

  predicate Positive(fields: map<Ulid, nat>, i: Ulid) {
    i in fields && fields[i] > 0
  }

  predicate Viewed(counts: Counts) {
    counts.total > 0 && counts.viewing > 0
  }

  /** The script of a sync changes the user's state: no other instance counts a viewing connection, and the instance's field becomes
      positive or stops being so, or it is the only one and comes or goes. */
  ghost predicate Tells(fields: map<Ulid, nat>, i: Ulid, counts: Counts) {
    && !OtherViews(fields, i)
    && (Positive(fields, i) != Viewed(counts)
        || (!Viewed(counts) && (i in fields) != (counts.total > 0) && !OtherField(fields, i)))
  }

  /** Another field written first hides the change: the instance's own field comes to where the sync takes it, or another
      instance's field is positive, or is there and the instance's own stays positive or zero. */
  ghost predicate Hides(fields: map<Ulid, nat>, i: Ulid, counts: Counts, k: Ulid, count: nat) {
    if k == i then (count > 0 <==> Viewed(counts)) && (counts.total > 0 || OtherField(fields, i))
    else count > 0 || Positive(fields, i) == Viewed(counts)
  }

  /** A refresh, of any instance, silences a sync exactly if the sync would tell a change and the refresh hides it. */
  lemma SilencesIff(w: World, r: Ulid, o: Ulid, channels: seq<Channel>)
    requires o in w.ops && w.ops[o].Writing? && Legal(w, Refresh(r)) && channels != []
    ensures var op, refresh := w.ops[o], w.ops[r];
            var fields := Row(w.online, op.user);
            Silences(w, r, o, channels) <==>
              && op.user in refresh.fields && Tells(fields, op.instance, op.counts)
              && Hides(fields, op.instance, op.counts, refresh.instance, refresh.fields[op.user])
  {
    var op := w.ops[o];
    RefreshedRow(w, r, op.user);
    ToldIff(w, o, channels);
    ToldIff(Next(w, Refresh(r)), o, channels);
    var fields, i := Row(w.online, op.user), op.instance;
    TellsIff(fields, i, op.counts);
    if op.user in w.ops[r].fields {
      var k, count := w.ops[r].instance, w.ops[r].fields[op.user];
      TellsIff(fields[k := count], i, op.counts);
      if Tells(fields, i, op.counts) { HidesIff(fields, i, op.counts, k, count); }
    }
  }

  lemma TellsIff(fields: map<Ulid, nat>, i: Ulid, counts: Counts)
    ensures StateOf(Left(fields, i, counts)) != StateOf(fields) <==> Tells(fields, i, counts)
  {
    StateByField(fields, i);
    StateByField(Left(fields, i, counts), i);
    OthersStay(fields, i, Left(fields, i, counts));
  }

  lemma HidesIff(fields: map<Ulid, nat>, i: Ulid, counts: Counts, k: Ulid, count: nat)
    requires Tells(fields, i, counts)
    ensures !Tells(fields[k := count], i, counts) <==> Hides(fields, i, counts, k, count)
  {
    var after := fields[k := count];
    if k == i {
      OthersStay(fields, i, after);
    } else {
      assert k in after && after[k] == count && OtherField(after, i);
      assert OtherViews(after, i) <==> count > 0;
    }
  }

  lemma ToldIff(w: World, o: Ulid, channels: seq<Channel>)
    requires o in w.ops && w.ops[o].Writing? && channels != []
    ensures var op := w.ops[o];
            var fields := Row(w.online, op.user);
            Wrote(w, o, channels).log == w.log <==> StateOf(Left(fields, op.instance, op.counts)) == StateOf(fields)
  {
    var op := w.ops[o];
    WrittenFields(w.online, op.instance, op.user, op.counts.total, op.counts.viewing);
  }

  /** The fields of a user after a sync. */
  function Left(fields: map<Ulid, nat>, instance: Ulid, counts: Counts): map<Ulid, nat> {
    if counts.total > 0 then fields[instance := counts.viewing] else fields - {instance}
  }

  lemma StateByField(fields: map<Ulid, nat>, i: Ulid)
    ensures StateOf(fields)
            == if OtherViews(fields, i) || (i in fields && fields[i] > 0) then Active
               else if i in fields || OtherField(fields, i) then Idle
               else Offline
  {
    StateMeans(fields);
  }

  lemma OthersStay(fields: map<Ulid, nat>, i: Ulid, after: map<Ulid, nat>)
    requires forall j :: j != i ==> (j in fields <==> j in after) && (j in fields ==> fields[j] == after[j])
    ensures OtherViews(fields, i) == OtherViews(after, i) && OtherField(fields, i) == OtherField(after, i)
  {
  }
}
