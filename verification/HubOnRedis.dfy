/** The Hub and the Broker together: whoever is registered as subscribed really is, at Redis.

    The Hub's protocol takes Acquire and Release as single steps. Here each Acquire is an operation of the Broker's protocol,
    from its first region until it has returned, and each Release begins one. `links` says which Broker operation a Hub
    operation in flight runs or has run. References have no names in the program; here a failed Acquire releases its own. */
module HubOnRedis {
  import opened Common
  import opened HubModel
  import P = HubProtocol
  import HubSafety
  import HubReferences
  import B = BrokerProtocol
  import BrokerSafety
  import opened Runs

  datatype Joint = Joint(hub: P.State, broker: B.State, links: map<Ulid, Ulid>)

  const INITIAL := Joint(P.INITIAL, B.INITIAL, map[])

  datatype Step =
    | Begin(step: P.Step, b: Ulid)
    | Finish(step: P.Step)
    | HubOnly(step: P.Step)
    | BrokerOnly(inner: B.Step)
    | GiveBack(ch: Channel, b: Ulid)

  predicate Begins(step: P.Step) {
    step.RegisterBegin? || step.Acquire?
  }

  predicate Finishes(step: P.Step) {
    step.RegisterEnd? || step.SubscribeEnd? || step.AcquireFail?
  }

  /** The channel that a beginning step acquires. */
  function Begun(s: P.State, step: P.Step): Channel
    requires Begins(step) && (step.Acquire? ==> step.o in s.ops && s.ops[step.o].Authorized?)
  {
    if step.RegisterBegin? then UserChannel(step.user) else ChannelOf(s.ops[step.o].t)
  }

  /** Broker operations that carry the channel and belong to no Hub operation in flight. */
  function Loose(j: Joint, ch: Channel): set<Ulid> {
    BrokerSafety.Carriers(j.broker.ops, ch) - j.links.Values
  }

  function FailedLoose(j: Joint, ch: Channel): set<Ulid> {
    set b | b in Loose(j, ch) && j.broker.ops[b].Failed?
  }

  /** Only one of the two moves, or both meet where an Acquire begins, has returned, or is given back. */
  ghost predicate Next(j: Joint, step: Step, n: Joint) {
    match step
    case Begin(st, b) =>
      && Begins(st) && P.Next(j.hub, st, n.hub)
      && B.Legal(j.broker, B.AcquireBegin(b, Begun(j.hub, st)))
      && n == Joint(n.hub, B.Next(j.broker, B.AcquireBegin(b, Begun(j.hub, st))), j.links[st.o := b])
    case Finish(st) =>
      && Finishes(st) && P.Next(j.hub, st, n.hub)
      && st.o in j.links && j.links[st.o] in j.broker.ops
      && (if st.AcquireFail? then j.broker.ops[j.links[st.o]].Failed? else j.broker.ops[j.links[st.o]].Acquired?)
      && n == j.(hub := n.hub, links := j.links - {st.o})
    case HubOnly(st) =>
      && !Begins(st) && !Finishes(st) && !st.Release? && P.Next(j.hub, st, n.hub)
      && n == j.(hub := n.hub)
    case BrokerOnly(st) =>
      && !st.AcquireBegin? && !st.ReleaseBegin? && B.Legal(j.broker, st)
      && n == j.(broker := B.Next(j.broker, st))
    case GiveBack(ch, b) =>
      && P.Next(j.hub, P.Release(ch), n.hub)
      && b in Loose(j, ch) && B.Legal(j.broker, B.ReleaseBegin(b))
      && (j.broker.ops[b].Acquired? ==> |FailedLoose(j, ch)| < j.hub.owed[ch])
      && n == Joint(n.hub, B.Next(j.broker, B.ReleaseBegin(b)), j.links)
  }

  ghost predicate IsRun(states: seq<Joint>, steps: seq<Step>) {
    IsPath(Next, states, steps) && states[0] == INITIAL
  }

  // ---- the invariant ----

  /** Each Hub operation in flight that holds a reference runs a Broker operation of its own that carries the channel. */
  ghost predicate LinkedAt(j: Joint, o: Ulid) {
    && (o in j.links <==> IsHolder(j.hub.ops, o))
    && (o in j.links ==> j.links[o] in j.broker.ops
                         && forall ch :: P.OpHolds(j.hub.ops[o], ch) <==> B.Carries(j.broker.ops[j.links[o]], ch))
  }

  ghost predicate Linked(j: Joint) {
    && (forall o {:trigger LinkedAt(j, o)} :: LinkedAt(j, o))
    && (forall o, p :: o in j.links && p in j.links && j.links[o] == j.links[p] ==> o == p)
  }

  /** A Broker operation that belongs to nobody has returned. */
  ghost predicate LooseReturned(j: Joint) {
    forall ch, b :: b in Loose(j, ch) ==> j.broker.ops[b].Acquired? || j.broker.ops[b].Failed?
  }

  /** The Hub's references are what the Broker's operations carry. */
  ghost predicate CountsAgree(j: Joint) {
    forall ch {:trigger j.hub.refs[ch]} :: j.hub.refs[ch] == |BrokerSafety.Carriers(j.broker.ops, ch)|
  }

  /** Every failed Acquire still owes its release. */
  ghost predicate FailuresOwed(j: Joint) {
    forall ch {:trigger FailedLoose(j, ch)} :: |FailedLoose(j, ch)| <= j.hub.owed[ch]
  }

  ghost predicate Balanced(s: P.State) {
    HubSafety.Inv(s) && forall ch :: HubReferences.BalancedAt(s, ch)
  }

  ghost predicate Inv(j: Joint) {
    Balanced(j.hub) && BrokerSafety.Inv(j.broker) && Linked(j) && LooseReturned(j) && CountsAgree(j) && FailuresOwed(j)
  }

  // ---- what it comes to ----

  lemma {:induction false} LinkedSize(links: map<Ulid, Ulid>, from: set<Ulid>, image: set<Ulid>)
    requires forall o :: o in from ==> o in links && links[o] in image
    requires forall b :: b in image ==> exists o :: o in from && links[o] == b
    requires forall o, p :: o in from && p in from && links[o] == links[p] ==> o == p
    ensures |from| == |image|
    decreases |from|
  {
    if o :| o in from {
      forall b | b in image - {links[o]} ensures exists p :: p in from - {o} && links[p] == b {
        var p :| p in from && links[p] == b;
        assert p in from - {o};
      }
      LinkedSize(links, from - {o}, image - {links[o]});
    } else {
      assert image == {};
    }
  }

  /** The Broker operations that carry a channel for Hub operations in flight, one each. */
  lemma LinkedCarriers(j: Joint, ch: Channel)
    requires Linked(j)
    ensures |HubReferences.Carriers(j.hub.ops, ch)| == |BrokerSafety.Carriers(j.broker.ops, ch) * j.links.Values|
  {
    var mine, linked := HubReferences.Carriers(j.hub.ops, ch), BrokerSafety.Carriers(j.broker.ops, ch) * j.links.Values;
    forall o | o in mine ensures o in j.links && j.links[o] in linked {
      assert LinkedAt(j, o);
    }
    forall b | b in linked ensures exists o :: o in mine && j.links[o] == b {
      var o :| o in j.links && j.links[o] == b;
      assert LinkedAt(j, o);
      assert o in mine;
    }
    LinkedSize(j.links, mine, linked);
  }

  /** As many loose operations carry a channel as connections hold it and releases of it are owed. */
  lemma LooseCount(j: Joint, ch: Channel)
    requires Balanced(j.hub) && Linked(j) && CountsAgree(j)
    ensures |Loose(j, ch)| == Held(j.hub.conns, ch) + j.hub.owed[ch]
  {
    LinkedCarriers(j, ch);
    SplitCarriers(BrokerSafety.Carriers(j.broker.ops, ch), j.links.Values);
    assert HubReferences.BalancedAt(j.hub, ch);
    assert j.hub.refs[ch] == |BrokerSafety.Carriers(j.broker.ops, ch)|;
  }

  lemma SplitCarriers<T>(all: set<T>, linked: set<T>)
    ensures |all| == |all * linked| + |all - linked|
  {
    SplitSize(all, all * linked);
    assert all - all * linked == all - linked;
  }

  /** A channel that a registered connection holds is carried by an Acquire that has succeeded and is not being given back. */
  lemma HeldIsAcquired(j: Joint, c: Ulid, ch: Channel) returns (b: Ulid)
    requires Inv(j) && c in j.hub.conns && Holds(j.hub.conns[c], ch)
    ensures b in j.broker.ops && j.broker.ops[b] == B.Acquired(ch)
  {
    LooseCount(j, ch);
    assert c in Holders(j.hub.conns, ch);
    assert |FailedLoose(j, ch)| <= j.hub.owed[ch];
    if Loose(j, ch) <= FailedLoose(j, ch) {
      SubsetSize(Loose(j, ch), FailedLoose(j, ch));
      assert false;
    }
    b :| b in Loose(j, ch) && b !in FailedLoose(j, ch);
  }

  // ---- every step keeps it ----

  lemma HubKeepsBalance(s: P.State, st: P.Step, n: P.State)
    requires Balanced(s) && P.Next(s, st, n)
    ensures Balanced(n)
  {
    HubSafety.StepKeepsInv(s, st, n);
    HubReferences.StepKeepsBalance(s, st, n);
  }

  /** Only an Acquire adds a reference and only a release takes one; whatever else happens, no release is forgotten. */
  lemma RefsMove(s: P.State, st: P.Step, n: P.State)
    requires P.Next(s, st, n) && !st.Release?
    ensures n.refs == if Begins(st) then s.refs + multiset{Begun(s, st)} else s.refs
    ensures forall ch {:trigger n.owed[ch]} :: s.owed[ch] <= n.owed[ch]
  {
  }

  predicate IsHolder(ops: map<Ulid, P.Op>, o: Ulid) {
    o in ops && (ops[o].Acquiring? || ops[o].Entering?)
  }

  lemma HolderWasThere(s: P.State, st: P.Step, n: P.State, o: Ulid)
    requires P.Next(s, st, n) && IsHolder(n.ops, o) && !(Begins(st) && st.o == o)
    ensures o in s.ops && n.ops[o] == s.ops[o]
  {
  }

  lemma HolderIsThere(s: P.State, st: P.Step, n: P.State, o: Ulid)
    requires P.Next(s, st, n) && IsHolder(s.ops, o) && !(Finishes(st) && st.o == o)
    ensures o in n.ops && n.ops[o] == s.ops[o]
  {
  }

  /** Hub operations with a reference only come with a beginning step and go with a finishing one. */
  lemma HoldersStay(s: P.State, st: P.Step, n: P.State, o: Ulid)
    requires P.Next(s, st, n) && !((Begins(st) || Finishes(st)) && st.o == o)
    ensures IsHolder(n.ops, o) <==> IsHolder(s.ops, o)
    ensures IsHolder(n.ops, o) ==> n.ops[o] == s.ops[o]
  {
    if IsHolder(n.ops, o) { HolderWasThere(s, st, n, o); }
    if IsHolder(s.ops, o) { HolderIsThere(s, st, n, o); }
  }

  lemma HolderBegins(s: P.State, st: P.Step, n: P.State)
    requires P.Next(s, st, n) && Begins(st)
    ensures IsHolder(n.ops, st.o)
    ensures forall ch :: P.OpHolds(n.ops[st.o], ch) <==> ch == Begun(s, st)
    ensures !IsHolder(s.ops, st.o)
  {
  }

  function RefOf(op: P.Op): Channel
    requires op.Acquiring? || op.Entering?
  {
    if op.Acquiring? then ChannelOf(op.t) else UserChannel(op.user)
  }

  lemma HolderFinishes(s: P.State, st: P.Step, n: P.State)
    requires P.Next(s, st, n) && Finishes(st)
    ensures IsHolder(s.ops, st.o) && st.o !in n.ops
    ensures st.AcquireFail? ==> n.owed == s.owed + multiset{RefOf(s.ops[st.o])}
  {
  }

  /** A Broker operation that has returned is only moved by its release. */
  lemma ReturnedStay(s: B.State, st: B.Step, b: Ulid)
    requires B.Legal(s, st) && !(st.ReleaseBegin? && st.o == b) && b in s.ops && (s.ops[b].Acquired? || s.ops[b].Failed?)
    ensures b in B.Next(s, st).ops && B.Next(s, st).ops[b] == s.ops[b]
  {
  }

  // Begin

  lemma BeginLoose(j: Joint, st: P.Step, b: Ulid, n: Joint, ch: Channel)
    requires Linked(j) && Next(j, Begin(st, b), n)
    ensures Loose(n, ch) == Loose(j, ch)
    ensures BrokerSafety.Carriers(n.broker.ops, ch)
            == BrokerSafety.Carriers(j.broker.ops, ch) + if ch == Begun(j.hub, st) then {b} else {}
    ensures b !in j.broker.ops
  {
    assert LinkedAt(j, st.o);
    HolderBegins(j.hub, st, n.hub);
    assert st.o !in j.links;
    assert n.links.Values == j.links.Values + {b} by {
      assert n.links[st.o] == b;
      forall v | v in j.links.Values ensures v in n.links.Values {
        var o :| o in j.links && j.links[o] == v;
        assert n.links[o] == v;
      }
    }
  }

  lemma BeginKeepsLinked(j: Joint, st: P.Step, b: Ulid, n: Joint)
    requires Linked(j) && Next(j, Begin(st, b), n)
    ensures Linked(n)
  {
    HolderBegins(j.hub, st, n.hub);
    forall o ensures LinkedAt(n, o) {
      assert LinkedAt(j, o);
      if o != st.o { HoldersStay(j.hub, st, n.hub, o); }
    }
    forall o, p | o in n.links && p in n.links && n.links[o] == n.links[p] ensures o == p {
      assert LinkedAt(j, o) && LinkedAt(j, p);
    }
  }

  lemma BeginKeepsInv(j: Joint, st: P.Step, b: Ulid, n: Joint)
    requires Inv(j) && Next(j, Begin(st, b), n)
    ensures Inv(n)
  {
    HubKeepsBalance(j.hub, st, n.hub);
    BrokerSafety.StepKeepsInv(j.broker, B.AcquireBegin(b, Begun(j.hub, st)));
    BeginKeepsLinked(j, st, b, n);
    RefsMove(j.hub, st, n.hub);
    forall ch ensures n.hub.refs[ch] == |BrokerSafety.Carriers(n.broker.ops, ch)| {
      BeginLoose(j, st, b, n, ch);
      assert j.hub.refs[ch] == |BrokerSafety.Carriers(j.broker.ops, ch)|;
    }
    LooseUnmoved(j, n, st, b);
  }

  lemma LooseUnmoved(j: Joint, n: Joint, st: P.Step, b: Ulid)
    requires Linked(j) && LooseReturned(j) && FailuresOwed(j) && Next(j, Begin(st, b), n)
    ensures LooseReturned(n) && FailuresOwed(n)
  {
    RefsMove(j.hub, st, n.hub);
    forall ch ensures Loose(n, ch) == Loose(j, ch) && FailedLoose(n, ch) == FailedLoose(j, ch) {
      BeginLoose(j, st, b, n, ch);
    }
    forall ch, x | x in Loose(n, ch) ensures n.broker.ops[x].Acquired? || n.broker.ops[x].Failed? {
      assert x in Loose(j, ch);
    }
    forall ch ensures |FailedLoose(n, ch)| <= n.hub.owed[ch] {
      assert |FailedLoose(j, ch)| <= j.hub.owed[ch] <= n.hub.owed[ch];
    }
  }

  // Finish

  /** What was linked is loose from now on. */
  lemma FinishLoose(j: Joint, st: P.Step, n: Joint, ch: Channel)
    requires Linked(j) && Next(j, Finish(st), n)
    ensures var b := j.links[st.o];
            && b !in Loose(j, ch)
            && Loose(n, ch) == Loose(j, ch) + if B.Carries(j.broker.ops[b], ch) then {b} else {}
  {
    var b := j.links[st.o];
    assert n.links.Values == j.links.Values - {b} by {
      forall v | v in j.links.Values - {b} ensures v in n.links.Values {
        var o :| o in j.links && j.links[o] == v;
        assert n.links[o] == v;
      }
    }
  }

  lemma FinishKeepsLinked(j: Joint, st: P.Step, n: Joint)
    requires Linked(j) && Next(j, Finish(st), n)
    ensures Linked(n)
  {
    HolderFinishes(j.hub, st, n.hub);
    forall o ensures LinkedAt(n, o) {
      assert LinkedAt(j, o);
      if o != st.o { HoldersStay(j.hub, st, n.hub, o); }
    }
  }

  lemma FinishFailures(j: Joint, st: P.Step, n: Joint, ch: Channel)
    requires Linked(j) && Next(j, Finish(st), n) && IsHolder(j.hub.ops, st.o)
    ensures FailedLoose(n, ch)
            == FailedLoose(j, ch) + if st.AcquireFail? && ch == RefOf(j.hub.ops[st.o]) then {j.links[st.o]} else {}
  {
    FinishLoose(j, st, n, ch);
    assert LinkedAt(j, st.o);
    assert P.OpHolds(j.hub.ops[st.o], ch) <==> ch == RefOf(j.hub.ops[st.o]);
  }

  /** The reference the operation held is the connection's now, or its release is owed. */
  lemma FinishOwes(j: Joint, st: P.Step, n: Joint, ch: Channel)
    requires Linked(j) && FailuresOwed(j) && Next(j, Finish(st), n)
    ensures |FailedLoose(n, ch)| <= n.hub.owed[ch]
  {
    HolderFinishes(j.hub, st, n.hub);
    RefsMove(j.hub, st, n.hub);
    FinishFailures(j, st, n, ch);
    FinishLoose(j, st, n, ch);
    assert |FailedLoose(j, ch)| <= j.hub.owed[ch];
  }

  lemma FinishKeepsInv(j: Joint, st: P.Step, n: Joint)
    requires Inv(j) && Next(j, Finish(st), n)
    ensures Inv(n)
  {
    HubKeepsBalance(j.hub, st, n.hub);
    FinishKeepsLinked(j, st, n);
    RefsMove(j.hub, st, n.hub);
    forall ch ensures |FailedLoose(n, ch)| <= n.hub.owed[ch] {
      FinishOwes(j, st, n, ch);
    }
    forall ch, x | x in Loose(n, ch) ensures n.broker.ops[x].Acquired? || n.broker.ops[x].Failed? {
      FinishLoose(j, st, n, ch);
    }
    assert forall ch :: j.hub.refs[ch] == |BrokerSafety.Carriers(j.broker.ops, ch)|;
  }

  // one side moves

  lemma HubOnlyKeepsInv(j: Joint, st: P.Step, n: Joint)
    requires Inv(j) && Next(j, HubOnly(st), n)
    ensures Inv(n)
  {
    HubKeepsBalance(j.hub, st, n.hub);
    RefsMove(j.hub, st, n.hub);
    forall o ensures LinkedAt(n, o) {
      assert LinkedAt(j, o);
      HoldersStay(j.hub, st, n.hub, o);
    }
    forall ch ensures Loose(n, ch) == Loose(j, ch) && |FailedLoose(n, ch)| <= n.hub.owed[ch] {
      assert FailedLoose(n, ch) == FailedLoose(j, ch);
    }
    assert forall ch :: j.hub.refs[ch] == |BrokerSafety.Carriers(j.broker.ops, ch)|;
  }

  lemma BrokerMoves(j: Joint, st: B.Step, n: Joint, ch: Channel)
    requires LooseReturned(j) && Next(j, BrokerOnly(st), n)
    ensures BrokerSafety.Carriers(n.broker.ops, ch) == BrokerSafety.Carriers(j.broker.ops, ch)
    ensures Loose(n, ch) == Loose(j, ch)
    ensures forall b :: b in Loose(j, ch) ==> n.broker.ops[b] == j.broker.ops[b]
  {
    BrokerSafety.SameCarriers(j.broker, st, ch);
    forall b | b in Loose(j, ch) ensures n.broker.ops[b] == j.broker.ops[b] {
      ReturnedStay(j.broker, st, b);
    }
  }

  lemma BrokerKeepsLinked(j: Joint, st: B.Step, n: Joint)
    requires Linked(j) && Next(j, BrokerOnly(st), n)
    ensures Linked(n)
  {
    forall o ensures LinkedAt(n, o) {
      assert LinkedAt(j, o);
      if o in j.links {
        assert P.OpHolds(j.hub.ops[o], RefOf(j.hub.ops[o]));
        forall ch ensures j.links[o] in n.broker.ops && B.Carries(n.broker.ops[j.links[o]], ch)
                          <==> B.Carries(j.broker.ops[j.links[o]], ch) {
          BrokerSafety.SameCarrier(j.broker, st, ch, j.links[o]);
        }
      }
    }
  }

  lemma BrokerOnlyKeepsInv(j: Joint, st: B.Step, n: Joint)
    requires Inv(j) && Next(j, BrokerOnly(st), n)
    ensures Inv(n)
  {
    BrokerSafety.StepKeepsInv(j.broker, st);
    BrokerKeepsLinked(j, st, n);
    forall ch ensures |FailedLoose(n, ch)| <= n.hub.owed[ch] && n.hub.refs[ch] == |BrokerSafety.Carriers(n.broker.ops, ch)| {
      BrokerMoves(j, st, n, ch);
      assert FailedLoose(n, ch) == FailedLoose(j, ch);
      assert j.hub.refs[ch] == |BrokerSafety.Carriers(j.broker.ops, ch)|;
    }
    forall ch, x | x in Loose(n, ch) ensures n.broker.ops[x].Acquired? || n.broker.ops[x].Failed? {
      BrokerMoves(j, st, n, ch);
    }
  }

  // GiveBack

  lemma ReleaseDrops(s: B.State, b: Ulid, x: Channel)
    requires B.Legal(s, B.ReleaseBegin(b))
    ensures var n := B.Next(s, B.ReleaseBegin(b));
            && BrokerSafety.Carriers(n.ops, x) == BrokerSafety.Carriers(s.ops, x) - {b}
            && n.ops.Keys == s.ops.Keys && forall y :: y in s.ops && y != b ==> n.ops[y] == s.ops[y]
    ensures b in BrokerSafety.Carriers(s.ops, x) <==> x == s.ops[b].ch
  {
  }

  lemma GiveBackMoves(j: Joint, ch: Channel, b: Ulid, n: Joint, x: Channel)
    requires Next(j, GiveBack(ch, b), n)
    ensures BrokerSafety.Carriers(n.broker.ops, x) == BrokerSafety.Carriers(j.broker.ops, x) - {b}
    ensures Loose(n, x) == Loose(j, x) - {b}
    ensures FailedLoose(n, x) == FailedLoose(j, x) - {b}
    ensures b in BrokerSafety.Carriers(j.broker.ops, x) <==> x == ch
  {
    ReleaseDrops(j.broker, b, x);
    ReleaseDrops(j.broker, b, ch);
  }

  lemma GiveBackKeepsLinked(j: Joint, ch: Channel, b: Ulid, n: Joint)
    requires Linked(j) && Next(j, GiveBack(ch, b), n)
    ensures Linked(n)
  {
    forall o ensures LinkedAt(n, o) {
      assert LinkedAt(j, o);
      if o in j.links { assert j.links[o] in j.links.Values; }
    }
  }

  lemma GiveBackRefs(s: P.State, ch: Channel, n: P.State, x: Channel)
    requires P.Next(s, P.Release(ch), n) && s.refs[ch] > 0
    ensures n.refs[x] == s.refs[x] - if x == ch then 1 else 0
    ensures n.owed[x] == s.owed[x] - if x == ch then 1 else 0
  {
  }

  lemma OneLess<T>(xs: set<T>, x: T)
    ensures |xs - {x}| == |xs| - if x in xs then 1 else 0
  {
    if x !in xs { assert xs - {x} == xs; }
  }

  lemma GiveBackCounts(j: Joint, ch: Channel, b: Ulid, n: Joint, x: Channel)
    requires CountsAgree(j) && FailuresOwed(j) && Next(j, GiveBack(ch, b), n)
    ensures n.hub.refs[x] == |BrokerSafety.Carriers(n.broker.ops, x)|
    ensures |FailedLoose(n, x)| <= n.hub.owed[x]
  {
    var carriers, failed := BrokerSafety.Carriers(j.broker.ops, x), FailedLoose(j, x);
    assert j.hub.refs[x] == |carriers| && |failed| <= j.hub.owed[x];
    GiveBackMoves(j, ch, b, n, ch);
    assert j.hub.refs[ch] == |BrokerSafety.Carriers(j.broker.ops, ch)|;
    GiveBackMoves(j, ch, b, n, x);
    GiveBackRefs(j.hub, ch, n.hub, x);
    OneLess(carriers, b);
    OneLess(failed, b);
    GiveBackFailure(j, ch, b, n);
  }

  /** Giving back a success leaves a release owed for every failure. */
  lemma GiveBackFailure(j: Joint, ch: Channel, b: Ulid, n: Joint)
    requires Next(j, GiveBack(ch, b), n)
    ensures b in FailedLoose(j, ch) || |FailedLoose(j, ch)| < j.hub.owed[ch]
  {
  }

  lemma GiveBackKeepsInv(j: Joint, ch: Channel, b: Ulid, n: Joint)
    requires Inv(j) && Next(j, GiveBack(ch, b), n)
    ensures Inv(n)
  {
    HubKeepsBalance(j.hub, P.Release(ch), n.hub);
    BrokerSafety.StepKeepsInv(j.broker, B.ReleaseBegin(b));
    GiveBackKeepsLinked(j, ch, b, n);
    forall x ensures n.hub.refs[x] == |BrokerSafety.Carriers(n.broker.ops, x)| && |FailedLoose(n, x)| <= n.hub.owed[x] {
      GiveBackCounts(j, ch, b, n, x);
    }
    GiveBackLeaves(j, ch, b, n);
  }

  lemma GiveBackLeaves(j: Joint, ch: Channel, b: Ulid, n: Joint)
    requires LooseReturned(j) && Next(j, GiveBack(ch, b), n)
    ensures LooseReturned(n)
  {
    forall x, y | y in Loose(n, x) ensures n.broker.ops[y].Acquired? || n.broker.ops[y].Failed? {
      GiveBackMoves(j, ch, b, n, x);
      assert y in Loose(j, x);
    }
  }

  lemma StepKeepsInv(j: Joint, step: Step, n: Joint)
    requires Inv(j) && Next(j, step, n)
    ensures Inv(n)
  {
    match step
    case Begin(st, b) => BeginKeepsInv(j, st, b, n);
    case Finish(st) => FinishKeepsInv(j, st, n);
    case HubOnly(st) => HubOnlyKeepsInv(j, st, n);
    case BrokerOnly(st) => BrokerOnlyKeepsInv(j, st, n);
    case GiveBack(ch, b) => GiveBackKeepsInv(j, ch, b, n);
  }

  lemma InitialInv()
    ensures Inv(INITIAL)
  {
    HubReferences.RunKeepsBalance([P.INITIAL], [], 0);
    HubSafety.RunKeepsInv([P.INITIAL], [], 0);
    BrokerSafety.RunKeepsInv([B.INITIAL], [], 0);
    forall ch ensures BrokerSafety.Carriers(INITIAL.broker.ops, ch) == {} && Loose(INITIAL, ch) == {} && FailedLoose(INITIAL, ch) == {} {}
  }

  lemma {:induction false} RunKeepsInv(states: seq<Joint>, steps: seq<Step>, i: nat)
    requires IsRun(states, steps) && i <= |steps|
    ensures Inv(states[i])
  {
    if i == 0 {
      InitialInv();
    } else {
      RunKeepsInv(states, steps, i - 1);
      assert StepAt(Next, states, steps, i - 1);
      StepKeepsInv(states[i - 1], steps[i - 1], states[i]);
    }
  }

  // ---- the theorems ----

  /** In every run of both: a channel that a registered connection holds, its user's own or a topic it is subscribed to, is in
      Redis's subscription set, and nothing on its way to Redis takes it out. */
  lemma HeldIsSubscribed(states: seq<Joint>, steps: seq<Step>, c: Ulid, ch: Channel)
    requires IsRun(states, steps)
    requires var s := states[|steps|].hub; c in s.conns && Holds(s.conns[c], ch)
    ensures var s := states[|steps|].broker;
            ch in s.live && forall i :: 0 <= i < |s.pipe| ==> !B.About(s.pipe[i], ch)
  {
    RunKeepsInv(states, steps, |steps|);
    var b := HeldIsAcquired(states[|steps|], c, ch);
    BrokerSafety.AcquiredMeans(states[|steps|].broker, b);
  }

  /** The Hub's references are the Broker's counts. */
  lemma ReferencesAreCounts(states: seq<Joint>, steps: seq<Step>, ch: Channel)
    requires IsRun(states, steps)
    ensures var j := states[|steps|]; j.hub.refs[ch] == B.Count(j.broker.refs, ch)
  {
    RunKeepsInv(states, steps, |steps|);
    var j := states[|steps|];
    assert j.hub.refs[ch] == |BrokerSafety.Carriers(j.broker.ops, ch)|;
    assert B.Count(j.broker.refs, ch) == |BrokerSafety.Carriers(j.broker.ops, ch)|;
  }
}
