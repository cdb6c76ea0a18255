/** Presence over any number of instances: connections come, go and change while their syncs are under way.

    A sync first compares the instance's counts with what it last announced and then runs the script; one lock per user and
    instance covers both. Fields do not expire and scripts succeed. */
module PresenceRuns {
  import opened Common
  import opened Presence
  import opened Runs

  datatype Conn = Conn(instance: Ulid, user: Ulid, viewing: bool)

  datatype Counts = Counts(total: nat, viewing: nat)

  datatype Op =
    | Requested(instance: Ulid, user: Ulid)
    | Writing(instance: Ulid, user: Ulid, counts: Counts)
    | Copied(instance: Ulid, fields: map<Ulid, nat>)

  /** `announced` is what each instance last recorded for a user; `log` what was published. */
  datatype World = World(conns: map<Ulid, Conn>, announced: map<(Ulid, Ulid), Counts>, ops: map<Ulid, Op>,
                         online: Online, log: seq<Notice>)

  const INITIAL := World(map[], map[], map[], map[], [])

  datatype Step =
    | Connect(c: Ulid, instance: Ulid, user: Ulid, o: Ulid)
    | Disconnect(c: Ulid, o: Ulid)
    | SetActivity(c: Ulid, viewing: bool, o: Ulid)
    | Compare(o: Ulid)
    | Write(o: Ulid, channels: seq<Channel>)
    | CopyCounts(o: Ulid, instance: Ulid, fields: map<Ulid, nat>)
    | Refresh(o: Ulid)

  function ConnsOf(conns: map<Ulid, Conn>, instance: Ulid, user: Ulid): set<Ulid> {
    set c | c in conns && conns[c].instance == instance && conns[c].user == user
  }

  function ViewersOf(conns: map<Ulid, Conn>, instance: Ulid, user: Ulid): set<Ulid> {
    set c | c in conns && conns[c].instance == instance && conns[c].user == user && conns[c].viewing
  }

  function Tally(conns: map<Ulid, Conn>, instance: Ulid, user: Ulid): Counts {
    Counts(|ConnsOf(conns, instance, user)|, |ViewersOf(conns, instance, user)|)
  }

  function Announced(w: World, instance: Ulid, user: Ulid): Counts {
    if (instance, user) in w.announced then w.announced[(instance, user)] else Counts(0, 0)
  }

  function Announce(announced: map<(Ulid, Ulid), Counts>, instance: Ulid, user: Ulid, counts: Counts): map<(Ulid, Ulid), Counts> {
    if counts.total > 0 then announced[(instance, user) := counts] else announced - {(instance, user)}
  }

  predicate IsWriting(op: Op, instance: Ulid, user: Ulid) {
    op.Writing? && op.instance == instance && op.user == user
  }

  ghost predicate Unlocked(w: World, instance: Ulid, user: Ulid) {
    forall o :: o in w.ops ==> !IsWriting(w.ops[o], instance, user)
  }

  /** The counts a refresh copies: the viewing connections of every announced user of the instance. */
  ghost predicate CopyOf(w: World, instance: Ulid, fields: map<Ulid, nat>) {
    && (forall u :: u in fields <==> (instance, u) in w.announced)
    && forall u :: u in fields ==> fields[u] == w.announced[(instance, u)].viewing
  }

  ghost predicate Legal(w: World, step: Step) {
    match step
    case Connect(c, _, _, o) => c !in w.conns && o !in w.ops
    case Disconnect(c, o) => c in w.conns && o !in w.ops
    case SetActivity(c, viewing, o) => c in w.conns && o !in w.ops && w.conns[c].viewing != viewing
    case Compare(o) => o in w.ops && w.ops[o].Requested? && Unlocked(w, w.ops[o].instance, w.ops[o].user)
    case Write(o, _) => o in w.ops && w.ops[o].Writing?
    case CopyCounts(o, instance, fields) => o !in w.ops && CopyOf(w, instance, fields)
    case Refresh(o) => o in w.ops && w.ops[o].Copied?
  }

  ghost function Next(w: World, step: Step): World
    requires Legal(w, step)
  {
    match step
    case Connect(c, instance, user, o) =>
      w.(conns := w.conns[c := Conn(instance, user, false)], ops := w.ops[o := Requested(instance, user)])
    case Disconnect(c, o) =>
      w.(conns := w.conns - {c}, ops := w.ops[o := Requested(w.conns[c].instance, w.conns[c].user)])
    case SetActivity(c, viewing, o) =>
      w.(conns := w.conns[c := w.conns[c].(viewing := viewing)],
         ops := w.ops[o := Requested(w.conns[c].instance, w.conns[c].user)])
    case Compare(o) =>
      var op := w.ops[o];
      var counts := Tally(w.conns, op.instance, op.user);
      if counts == Announced(w, op.instance, op.user) then w.(ops := w.ops - {o})
      else w.(announced := Announce(w.announced, op.instance, op.user, counts),
              ops := w.ops[o := Writing(op.instance, op.user, counts)])
    case Write(o, channels) => Wrote(w, o, channels)
    case CopyCounts(o, instance, fields) => w.(ops := w.ops[o := Copied(instance, fields)])
    case Refresh(o) => w.(ops := w.ops - {o}, online := Refreshed(w.online, w.ops[o].instance, w.ops[o].fields))
  }

  ghost function Wrote(w: World, o: Ulid, channels: seq<Channel>): World
    requires o in w.ops && w.ops[o].Writing?
  {
    var op := w.ops[o];
    var online := Written(w.online, op.instance, op.user, op.counts.total, op.counts.viewing);
    var after := StateOf(Row(online, op.user));
    var changed := after != StateOf(Row(w.online, op.user));
    w.(ops := w.ops - {o}, online := online, log := if changed then w.log + Notices(channels, op.user, after) else w.log)
  }

  ghost predicate IsStep(w: World, step: Step, n: World) {
    Legal(w, step) && n == Next(w, step)
  }

  ghost predicate IsRun(states: seq<World>, steps: seq<Step>) {
    IsPath(IsStep, states, steps) && states[0] == INITIAL
  }

  /** The store takes these steps: a sync's script is the write of its operation, a refresh's script the write of its copy. */
  method SyncStep(store: Store, channels: seq<Channel>, ghost w: World, ghost o: Ulid, instance: Ulid, user: Ulid, total: nat, viewing: nat)
    requires Legal(w, Write(o, channels)) && w.ops[o] == Writing(instance, user, Counts(total, viewing))
    requires store.online == w.online && store.log == w.log
    modifies store
    ensures store.online == Next(w, Write(o, channels)).online && store.log == Next(w, Write(o, channels)).log
  {
    var state := store.Sync(instance, user, total, viewing, channels);
    ghost var n := Next(w, Write(o, channels));
    assert |store.log| == |n.log| && forall k :: 0 <= k < |n.log| ==> store.log[k] == n.log[k];
  }

  method RefreshStep(store: Store, ghost w: World, ghost o: Ulid, instance: Ulid, fields: map<Ulid, nat>)
    requires Legal(w, Refresh(o)) && w.ops[o] == Copied(instance, fields)
    requires store.online == w.online && store.log == w.log
    modifies store
    ensures store.online == Next(w, Refresh(o)).online && store.log == Next(w, Refresh(o)).log
  {
    store.Refresh(instance, fields);
  }

  // ---- the invariant ----

  /** Equal, or at least both positive or both zero. */
  predicate Alike(exact: bool, a: nat, b: nat) {
    a == b || (!exact && (a > 0 <==> b > 0))
  }

  /** The field in Redis is what the instance announced, or at least positive exactly when that is. */
  ghost predicate FieldMatches(w: World, instance: Ulid, user: Ulid, exact: bool) {
    && (instance in Row(w.online, user) <==> (instance, user) in w.announced)
    && (instance in Row(w.online, user) ==> Alike(exact, Row(w.online, user)[instance], w.announced[(instance, user)].viewing))
  }

  ghost predicate FieldsMatch(w: World, user: Ulid, exact: bool) {
    forall i {:trigger FieldMatches(w, i, user, exact)} :: Unlocked(w, i, user) ==> FieldMatches(w, i, user, exact)
  }

  ghost predicate WritesAnnounced(w: World) {
    && (forall o :: o in w.ops && w.ops[o].Writing? ==> Announced(w, w.ops[o].instance, w.ops[o].user) == w.ops[o].counts)
    && (forall o, p :: o in w.ops && p in w.ops && w.ops[o].Writing? && IsWriting(w.ops[p], w.ops[o].instance, w.ops[o].user) ==> o == p)
  }

  ghost predicate NoneAnnounced(w: World) {
    forall k :: k in w.announced ==> w.announced[k].total > 0
  }

  ghost predicate IsRequested(w: World, instance: Ulid, user: Ulid) {
    exists o :: o in w.ops && w.ops[o] == Requested(instance, user)
  }

  /** A change that is not announced has a sync still to compare. */
  ghost predicate ChangesPending(w: World) {
    forall i, u {:trigger Tally(w.conns, i, u)} ::
      Announced(w, i, u) == Tally(w.conns, i, u) || IsRequested(w, i, u)
  }

  ghost predicate Inv(w: World, user: Ulid, exact: bool) {
    FieldsMatch(w, user, exact) && WritesAnnounced(w) && NoneAnnounced(w) && ChangesPending(w)
  }

  lemma TallyElsewhere(a: map<Ulid, Conn>, b: map<Ulid, Conn>, c: Ulid, instance: Ulid, user: Ulid)
    requires a - {c} == b - {c}
    requires c in a ==> a[c].instance != instance || a[c].user != user
    requires c in b ==> b[c].instance != instance || b[c].user != user
    ensures Tally(a, instance, user) == Tally(b, instance, user)
  {
    forall x ensures (x in a <==> x in b) || x == c {
      assert x in a - {c} <==> x in b - {c};
    }
    forall x | x in a && x in b && x != c ensures a[x] == b[x] {
      assert (a - {c})[x] == (b - {c})[x];
    }
    assert ConnsOf(a, instance, user) == ConnsOf(b, instance, user);
    assert ViewersOf(a, instance, user) == ViewersOf(b, instance, user);
  }

  /** A connection comes, goes or changes, and asks for a sync. */
  lemma ConnStepKeepsInv(w: World, step: Step, user: Ulid, exact: bool)
    requires Inv(w, user, exact) && Legal(w, step) && (step.Connect? || step.Disconnect? || step.SetActivity?)
    ensures Inv(Next(w, step), user, exact)
  {
    var n := Next(w, step);
    var asked := n.ops[step.o];
    forall i | Unlocked(n, i, user) ensures FieldMatches(n, i, user, exact) {
      assert forall o :: o in w.ops ==> n.ops[o] == w.ops[o];
      assert FieldMatches(w, i, user, exact);
    }
    forall i, u ensures Announced(n, i, u) == Tally(n.conns, i, u) || IsRequested(n, i, u) {
      if asked == Requested(i, u) {
        assert step.o in n.ops;
      } else {
        assert n.conns - {step.c} == w.conns - {step.c};
        TallyElsewhere(w.conns, n.conns, step.c, i, u);
        if IsRequested(w, i, u) {
          var o :| o in w.ops && w.ops[o] == Requested(i, u);
          assert n.ops[o] == Requested(i, u);
        }
      }
    }
  }

  lemma CompareKeepsInv(w: World, o: Ulid, user: Ulid, exact: bool)
    requires Inv(w, user, exact) && Legal(w, Compare(o))
    ensures Inv(Next(w, Compare(o)), user, exact)
  {
    var n := Next(w, Compare(o));
    var op := w.ops[o];
    SubsetSize(ViewersOf(w.conns, op.instance, op.user), ConnsOf(w.conns, op.instance, op.user));
    forall i | Unlocked(n, i, user) ensures FieldMatches(n, i, user, exact) {
      forall p | p in w.ops ensures !IsWriting(w.ops[p], i, user) {
        if p != o { assert p in n.ops && n.ops[p] == w.ops[p]; }
      }
      assert FieldMatches(w, i, user, exact);
      if o in n.ops { assert !IsWriting(n.ops[o], i, user); }
    }
    forall i, u ensures Announced(n, i, u) == Tally(n.conns, i, u) || IsRequested(n, i, u) {
      assert Announced(w, i, u) == Tally(w.conns, i, u) || IsRequested(w, i, u);
      if !(i == op.instance && u == op.user) && IsRequested(w, i, u) {
        var p :| p in w.ops && w.ops[p] == Requested(i, u);
        assert n.ops[p] == Requested(i, u);
      }
    }
  }

  lemma WriteKeepsInv(w: World, o: Ulid, channels: seq<Channel>, user: Ulid, exact: bool)
    requires Inv(w, user, exact) && Legal(w, Write(o, channels))
    ensures Inv(Next(w, Write(o, channels)), user, exact)
  {
    var n := Next(w, Write(o, channels));
    var op := w.ops[o];
    WrittenFields(w.online, op.instance, op.user, op.counts.total, op.counts.viewing);
    forall i | Unlocked(n, i, user) ensures FieldMatches(n, i, user, exact) {
      if !(i == op.instance && user == op.user) {
        forall p | p in w.ops ensures !IsWriting(w.ops[p], i, user) {
          if p != o { assert p in n.ops; }
        }
        assert FieldMatches(w, i, user, exact);
      }
    }
    forall i, u ensures Announced(n, i, u) == Tally(n.conns, i, u) || IsRequested(n, i, u) {
      assert Announced(w, i, u) == Tally(w.conns, i, u) || IsRequested(w, i, u);
      if IsRequested(w, i, u) {
        var p :| p in w.ops && w.ops[p] == Requested(i, u);
        assert n.ops[p] == Requested(i, u);
      }
    }
  }

  lemma CopyKeepsInv(w: World, step: Step, user: Ulid, exact: bool)
    requires Inv(w, user, exact) && Legal(w, step) && step.CopyCounts?
    ensures Inv(Next(w, step), user, exact)
  {
    var n := Next(w, step);
    forall i | Unlocked(n, i, user) ensures FieldMatches(n, i, user, exact) {
      forall p | p in w.ops ensures !IsWriting(w.ops[p], i, user) {
        assert n.ops[p] == w.ops[p];
      }
      assert FieldMatches(w, i, user, exact);
    }
    RequestsStay(w, n);
  }

  /** Copies come and go without touching a requested sync. */
  lemma RequestsStay(w: World, n: World)
    requires ChangesPending(w) && n.conns == w.conns && n.announced == w.announced
    requires forall o :: o in w.ops && w.ops[o].Requested? ==> o in n.ops && n.ops[o] == w.ops[o]
    ensures ChangesPending(n)
  {
    forall i, u ensures Announced(n, i, u) == Tally(n.conns, i, u) || IsRequested(n, i, u) {
      assert Announced(w, i, u) == Tally(w.conns, i, u) || IsRequested(w, i, u);
      if IsRequested(w, i, u) {
        var p :| p in w.ops && w.ops[p] == Requested(i, u);
        assert n.ops[p] == Requested(i, u);
      }
    }
  }

  lemma InitialInv(user: Ulid, exact: bool)
    ensures Inv(INITIAL, user, exact)
  {
    forall a, u ensures Tally(INITIAL.conns, a, u) == Counts(0, 0) {
      assert ConnsOf(INITIAL.conns, a, u) == {} && ViewersOf(INITIAL.conns, a, u) == {};
    }
  }

  lemma OtherStepKeepsInv(w: World, step: Step, user: Ulid, exact: bool)
    requires Inv(w, user, exact) && Legal(w, step) && !step.Refresh?
    ensures Inv(Next(w, step), user, exact)
  {
    match step
    case Compare(o) => CompareKeepsInv(w, o, user, exact);
    case Write(o, channels) => WriteKeepsInv(w, o, channels, user, exact);
    case CopyCounts(_, _, _) => CopyKeepsInv(w, step, user, exact);
    case _ => ConnStepKeepsInv(w, step, user, exact);
  }

  // ---- what a refresh does to one user ----

  /** What the refresh writes for the user is what the instance has announced. */
  predicate Current(w: World, o: Ulid, user: Ulid, exact: bool)
    requires o in w.ops && w.ops[o].Copied? && user in w.ops[o].fields
  {
    var op := w.ops[o];
    (op.instance, user) in w.announced && Alike(exact, op.fields[user], w.announced[(op.instance, user)].viewing)
  }

  /** Unless a sync holds the user's lock, what the refresh writes is what the instance has announced. */
  ghost predicate Harmless(w: World, o: Ulid, user: Ulid, exact: bool)
    requires o in w.ops && w.ops[o].Copied?
  {
    user in w.ops[o].fields && Unlocked(w, w.ops[o].instance, user) ==> Current(w, o, user, exact)
  }

  lemma RefreshedRow(w: World, o: Ulid, user: Ulid)
    requires Legal(w, Refresh(o))
    ensures var op := w.ops[o];
            Row(Next(w, Refresh(o)).online, user)
            == if user in op.fields then Row(w.online, user)[op.instance := op.fields[user]] else Row(w.online, user)
  {
    assert RefreshedBut(w.online, Next(w, Refresh(o)).online, w.ops[o].instance, w.ops[o].fields, {});
  }

  /** A refresh keeps the fields of a user in step with what is announced exactly if it is harmless. */
  lemma RefreshKeepsInvIff(w: World, o: Ulid, user: Ulid, exact: bool)
    requires Inv(w, user, exact) && Legal(w, Refresh(o))
    ensures Inv(Next(w, Refresh(o)), user, exact) <==> Harmless(w, o, user, exact)
  {
    RequestsStay(w, Next(w, Refresh(o)));
    RefreshedFields(w, o, user, exact);
  }

  lemma RefreshedFields(w: World, o: Ulid, user: Ulid, exact: bool)
    requires FieldsMatch(w, user, exact) && Legal(w, Refresh(o))
    ensures FieldsMatch(Next(w, Refresh(o)), user, exact) <==> Harmless(w, o, user, exact)
  {
    var n, instance := Next(w, Refresh(o)), w.ops[o].instance;
    RefreshedRow(w, o, user);
    forall i ensures Unlocked(n, i, user) == Unlocked(w, i, user) {
      forall p | p in w.ops && p != o ensures n.ops[p] == w.ops[p] {}
    }
    forall i | Unlocked(w, i, user) && !(i == instance && user in w.ops[o].fields) ensures FieldMatches(n, i, user, exact) {
      assert FieldMatches(w, i, user, exact);
    }
    if user in w.ops[o].fields && Unlocked(w, instance, user) {
      assert FieldMatches(n, instance, user, exact) <==> Current(w, o, user, exact);
    }
  }

  /** Every refresh of the path was harmless to the user. */
  ghost predicate RefreshesHarmless(states: seq<World>, steps: seq<Step>, user: Ulid, exact: bool)
    requires IsPath(IsStep, states, steps)
  {
    forall i {:trigger steps[i]} :: 0 <= i < |steps| && StepAt(IsStep, states, steps, i) && steps[i].Refresh? ==>
      Harmless(states[i], steps[i].o, user, exact)
  }

  lemma {:induction false} PathKeepsInv(states: seq<World>, steps: seq<Step>, user: Ulid, exact: bool, i: nat)
    requires IsPath(IsStep, states, steps) && Inv(states[0], user, exact) && i <= |steps|
    requires RefreshesHarmless(states, steps, user, exact)
    ensures Inv(states[i], user, exact)
  {
    if i > 0 {
      PathKeepsInv(states, steps, user, exact, i - 1);
      var w, step := states[i - 1], steps[i - 1];
      assert StepAt(IsStep, states, steps, i - 1);
      if step.Refresh? {
        RefreshKeepsInvIff(w, step.o, user, exact);
      } else {
        OtherStepKeepsInv(w, step, user, exact);
      }
    }
  }

  // ---- quiet users ----

  ghost predicate Quiet(w: World, user: Ulid) {
    forall o :: o in w.ops && !w.ops[o].Copied? ==> w.ops[o].user != user
  }

  /** The stored state is active, idle or offline exactly as some connection of the user on any instance is viewing, some exists
      but none is viewing, or none exists. */
  ghost predicate Truthful(w: World, user: Ulid) {
    var state := StateOf(Row(w.online, user));
    && (state == Active <==> exists c :: c in w.conns && w.conns[c].user == user && w.conns[c].viewing)
    && (state == Offline <==> forall c :: c in w.conns ==> w.conns[c].user != user)
  }

  /** Whenever no sync of a user is under way, the stored state is true, as long as refreshes were harmless to the user. */
  lemma QuietIsTrue(states: seq<World>, steps: seq<Step>, user: Ulid)
    requires IsRun(states, steps) && RefreshesHarmless(states, steps, user, false) && Quiet(states[|steps|], user)
    ensures var w := states[|steps|];
            var state := StateOf(Row(w.online, user));
            && (state == Active <==> exists c :: c in w.conns && w.conns[c].user == user && w.conns[c].viewing)
            && (state == Offline <==> forall c :: c in w.conns ==> w.conns[c].user != user)
  {
    InitialInv(user, false);
    PathKeepsInv(states, steps, user, false, |steps|);
    QuietInvIsTrue(states[|steps|], user);
  }

  lemma QuietInvIsTrue(w: World, user: Ulid)
    requires Inv(w, user, false) && Quiet(w, user)
    ensures Truthful(w, user)
  {
    forall i ensures FieldTrue(w, i, user) {
      QuietField(w, i, user);
    }
    StateMeans(Row(w.online, user));
    forall c | c in w.conns && w.conns[c].user == user
      ensures w.conns[c].instance in Row(w.online, user)
      ensures w.conns[c].viewing ==> Row(w.online, user)[w.conns[c].instance] > 0
    {
      assert FieldTrue(w, w.conns[c].instance, user);
      assert c in ConnsOf(w.conns, w.conns[c].instance, user);
      assert w.conns[c].viewing ==> c in ViewersOf(w.conns, w.conns[c].instance, user);
    }
    forall i | i in Row(w.online, user)
      ensures exists c :: c in w.conns && w.conns[c].user == user
      ensures Row(w.online, user)[i] > 0 ==> exists c :: c in w.conns && w.conns[c].user == user && w.conns[c].viewing
    {
      assert FieldTrue(w, i, user);
      var c :| c in ConnsOf(w.conns, i, user);
      if Row(w.online, user)[i] > 0 { var v :| v in ViewersOf(w.conns, i, user); }
    }
  }

  /** The field of an instance is there while it has connections, and positive while some are viewing. */
  ghost predicate FieldTrue(w: World, instance: Ulid, user: Ulid) {
    && (instance in Row(w.online, user) <==> ConnsOf(w.conns, instance, user) != {})
    && (instance in Row(w.online, user) ==> (Row(w.online, user)[instance] > 0 <==> ViewersOf(w.conns, instance, user) != {}))
  }

  lemma QuietField(w: World, instance: Ulid, user: Ulid)
    requires Inv(w, user, false) && Quiet(w, user)
    ensures FieldTrue(w, instance, user)
  {
    assert FieldMatches(w, instance, user, false);
    assert Announced(w, instance, user) == Tally(w.conns, instance, user);
  }
}
