/** Channel references are conserved, and nobody exceeds the subscription cap. */
module HubReferences {
  import opened Common
  import opened HubModel
  import opened HubProtocol
  import opened Runs
  import opened HubSafety

  // ---- conservation ----

  function Carriers(ops: map<Ulid, Op>, ch: Channel): set<Ulid> {
    set o | o in ops && OpHolds(ops[o], ch)
  }

  /** What the Broker counts is what registered connections hold, operations in flight hold, and is owed a Release. */
  ghost predicate BalancedAt(s: State, ch: Channel) {
    s.refs[ch] == Held(s.conns, ch) + |Carriers(s.ops, ch)| + s.owed[ch]
  }

  /** Both sides of the balance move by the same amount. */
  ghost predicate SameMove(s: State, n: State, ch: Channel) {
    n.refs[ch] + Held(s.conns, ch) + |Carriers(s.ops, ch)| + s.owed[ch]
    == s.refs[ch] + Held(n.conns, ch) + |Carriers(n.ops, ch)| + n.owed[ch]
  }

  lemma OpEnds(ops: map<Ulid, Op>, o: Ulid, ch: Channel)
    requires o in ops
    ensures |Carriers(ops - {o}, ch)| == |Carriers(ops, ch)| - if OpHolds(ops[o], ch) then 1 else 0
  {
    assert Carriers(ops - {o}, ch) == Carriers(ops, ch) - {o};
  }

  lemma OpSet(ops: map<Ulid, Op>, o: Ulid, op: Op, ch: Channel)
    ensures |Carriers(ops[o := op], ch)|
            == |Carriers(ops, ch)| - (if o in ops && OpHolds(ops[o], ch) then 1 else 0) + if OpHolds(op, ch) then 1 else 0
  {
    var rest := Carriers(ops, ch) - {o};
    if OpHolds(op, ch) {
      assert Carriers(ops[o := op], ch) == rest + {o};
    } else {
      assert Carriers(ops[o := op], ch) == rest;
    }
  }

  lemma ConnEnters(conns: map<Ulid, Info>, c: Ulid, info: Info, ch: Channel)
    requires c in conns ==> (Holds(conns[c], ch) ==> Holds(info, ch))
    ensures Held(conns[c := info], ch)
            == Held(conns, ch) + if Holds(info, ch) && !(c in conns && Holds(conns[c], ch)) then 1 else 0
  {
    assert Holders(conns[c := info], ch) == Holders(conns, ch) + if Holds(info, ch) then {c} else {};
  }

  lemma LostBalances(s: State, n: State, ch: Channel)
    requires Shrinks(s.conns, n.conns) && OwesLost(s, n)
    ensures Held(n.conns, ch) + n.owed[ch] == Held(s.conns, ch) + s.owed[ch]
  {
    LostIsHeldLess(s.conns, n.conns, ch);
    assert n.owed[ch] == s.owed[ch] + Lost(s.conns, n.conns, ch);
  }

  lemma RegisterMoves(s: State, step: Step, n: State, ch: Channel)
    requires Inv(s) && Next(s, step, n) && (step.RegisterBegin? || step.RegisterEnd?)
    ensures SameMove(s, n, ch)
  {
    match step
    case RegisterBegin(o, c, user, session) => OpSet(s.ops, o, Entering(c, user, session), ch);
    case RegisterEnd(o) =>
      OpEnds(s.ops, o, ch);
      if !s.shuttingDown {
        ConnEnters(s.conns, s.ops[o].c, Info(s.ops[o].user, s.ops[o].session, map[], {}, false), ch);
      }
  }

  lemma SubscribeMoves(s: State, step: Step, n: State, ch: Channel)
    requires Inv(s) && Next(s, step, n)
    requires step.SubscribeBegin? || step.Authorize? || step.Acquire? || step.AcquireFail? || step.SubscribeEnd?
    ensures SameMove(s, n, ch)
  {
    match step
    case SubscribeBegin(o, _, _) => OpSet(s.ops, o, n.ops[o], ch);
    case Authorize(o) => AuthorizeMoves(s, o, n, ch);
    case Acquire(o) => AcquireMoves(s, o, n, ch);
    case AcquireFail(o) => OpEnds(s.ops, o, ch);
    case SubscribeEnd(o) => SubscribeEndMoves(s, o, n, ch);
  }

  lemma AuthorizeMoves(s: State, o: Ulid, n: State, ch: Channel)
    requires Next(s, Authorize(o), n)
    ensures SameMove(s, n, ch)
  {
    if o in n.ops { OpSet(s.ops, o, n.ops[o], ch); } else { OpEnds(s.ops, o, ch); }
  }

  lemma AcquireMoves(s: State, o: Ulid, n: State, ch: Channel)
    requires Next(s, Acquire(o), n)
    ensures SameMove(s, n, ch)
  {
    OpSet(s.ops, o, n.ops[o], ch);
  }

  lemma SubscribeEndMoves(s: State, o: Ulid, n: State, ch: Channel)
    requires Inv(s) && Next(s, SubscribeEnd(o), n)
    ensures SameMove(s, n, ch)
  {
    var op := s.ops[o];
    OpEnds(s.ops, o, ch);
    if op.c in s.conns {
      AddHolds(s.conns[op.c], op.t, op.workspace, ch);
      ConnEnters(s.conns, op.c, Add(s.conns[op.c], op.t, op.workspace), ch);
    }
  }

  lemma RevalidateMoves(s: State, step: Step, n: State, ch: Channel)
    requires Inv(s) && Next(s, step, n)
    requires step.RevalidateBegin? || step.AllowRooms? || step.AllowWorkspaces? || step.RevalidateEnd? || step.RevalidateFail?
    ensures SameMove(s, n, ch)
  {
    match step
    case RevalidateBegin(o, user, scope) => RevalidateBeginMoves(s, o, user, scope, n, ch);
    case AllowRooms(o) => AllowMoves(s, step, n, ch);
    case AllowWorkspaces(o) => AllowMoves(s, step, n, ch);
    case RevalidateFail(o) => OpEnds(s.ops, o, ch);
    case RevalidateEnd(o) => RevalidateEndMoves(s, o, n, ch);
  }

  lemma RevalidateBeginMoves(s: State, o: Ulid, user: Ulid, scope: Option<Ulid>, n: State, ch: Channel)
    requires Next(s, RevalidateBegin(o, user, scope), n)
    ensures SameMove(s, n, ch)
  {
    if o in n.ops { OpSet(s.ops, o, n.ops[o], ch); }
  }

  lemma AllowMoves(s: State, step: Step, n: State, ch: Channel)
    requires Next(s, step, n) && (step.AllowRooms? || step.AllowWorkspaces?)
    ensures SameMove(s, n, ch)
  {
    OpSet(s.ops, step.o, n.ops[step.o], ch);
  }

  lemma RevalidateEndMoves(s: State, o: Ulid, n: State, ch: Channel)
    requires Inv(s) && Next(s, RevalidateEnd(o), n)
    ensures SameMove(s, n, ch)
  {
    var op := s.ops[o];
    OpEnds(s.ops, o, ch);
    TrimmedShrinks(s.conns, n.conns, Some(op.user), op.rooms - op.allowedRooms, op.workspaces - op.allowedWorkspaces);
    LostBalances(s, n, ch);
  }

  lemma LosingMoves(s: State, step: Step, n: State, ch: Channel)
    requires Inv(s) && Next(s, step, n) && (step.Unregister? || step.Unsubscribe? || step.CloseRooms?)
    ensures SameMove(s, n, ch)
  {
    match step
    case Unregister(_) => LostBalances(s, n, ch);
    case Unsubscribe(c, t) =>
      DropLosesOne(s.conns, c, t);
      LostBalances(s, n, ch);
    case CloseRooms(rooms) =>
      TrimmedShrinks(s.conns, n.conns, None, rooms, {});
      LostBalances(s, n, ch);
  }

  lemma OutsideMoves(s: State, step: Step, n: State, ch: Channel)
    requires Next(s, step, n) && (step.Release? || step.Grant? || step.Revoke? || step.CreateRoom? || step.Shutdown?)
    requires forall x :: s.owed[x] <= s.refs[x]
    ensures SameMove(s, n, ch)
  {
  }

  lemma StepKeepsBalance(s: State, step: Step, n: State)
    requires Inv(s) && Next(s, step, n) && forall ch :: BalancedAt(s, ch)
    ensures forall ch :: BalancedAt(n, ch)
  {
    forall x ensures s.owed[x] <= s.refs[x] { assert BalancedAt(s, x); }
    forall ch ensures BalancedAt(n, ch) {
      assert BalancedAt(s, ch);
      if step.RegisterBegin? || step.RegisterEnd? {
        RegisterMoves(s, step, n, ch);
      } else if step.SubscribeBegin? || step.Authorize? || step.Acquire? || step.AcquireFail? || step.SubscribeEnd? {
        SubscribeMoves(s, step, n, ch);
      } else if step.RevalidateBegin? || step.AllowRooms? || step.AllowWorkspaces? || step.RevalidateEnd? || step.RevalidateFail? {
        RevalidateMoves(s, step, n, ch);
      } else if step.Unregister? || step.Unsubscribe? || step.CloseRooms? {
        LosingMoves(s, step, n, ch);
      } else {
        OutsideMoves(s, step, n, ch);
      }
    }
  }

  lemma {:induction false} RunKeepsBalance(states: seq<State>, steps: seq<Step>, i: nat)
    requires IsRun(states, steps) && i <= |steps|
    ensures forall ch :: BalancedAt(states[i], ch)
  {
    if i == 0 {
      forall ch ensures BalancedAt(states[0], ch) {
        assert Holders(states[0].conns, ch) == {} && Carriers(states[0].ops, ch) == {};
      }
    } else {
      RunKeepsInv(states, steps, i - 1);
      RunKeepsBalance(states, steps, i - 1);
      assert StepAt(Next, states, steps, i - 1);
      StepKeepsBalance(states[i - 1], steps[i - 1], states[i]);
    }
  }

  /** In every run and for every channel the Broker's count is the registered connections that hold the channel plus the
      operations in flight with a reference on it plus the releases owed; so a channel somebody holds is never dropped, and
      one nobody holds or is about to hold is dropped once the owed releases are made. */
  lemma ReferencesAreConserved(states: seq<State>, steps: seq<Step>, ch: Channel)
    requires IsRun(states, steps)
    ensures var s := states[|steps|];
            && s.refs[ch] == Held(s.conns, ch) + |Carriers(s.ops, ch)| + s.owed[ch]
            && ((exists c :: c in s.conns && Holds(s.conns[c], ch)) ==> s.refs[ch] > s.owed[ch])
            && (s.conns == map[] && s.ops == map[] && s.owed == multiset{} ==> s.refs[ch] == 0)
  {
    var s := states[|steps|];
    RunKeepsBalance(states, steps, |steps|);
    assert BalancedAt(s, ch);
    if c :| c in s.conns && Holds(s.conns[c], ch) {
      assert c in Holders(s.conns, ch);
    }
    if s.conns == map[] && s.ops == map[] {
      assert Holders(s.conns, ch) == {} && Carriers(s.ops, ch) == {};
    }
  }

  // ---- the cap ----

  /** One reader per connection: it subscribes again only after the last Subscribe returned. */
  ghost predicate OneAtATime(states: seq<State>, steps: seq<Step>)
    requires |states| == |steps| + 1
  {
    forall i {:trigger steps[i]} :: 0 <= i < |steps| && steps[i].SubscribeBegin? ==> Idle(states[i], steps[i].c)
  }

  ghost predicate Idle(s: State, c: Ulid) {
    forall o :: o in s.ops && IsSubscribing(s.ops[o]) ==> s.ops[o].c != c
  }

  ghost predicate Capped(s: State) {
    && (forall c :: c in s.conns ==> Size(s.conns[c]) <= MAX_SUBSCRIPTIONS)
    && OneEach(s)
    && (forall o :: o in s.ops && IsSubscribing(s.ops[o]) && s.ops[o].c in s.conns ==> Size(s.conns[s.ops[o].c]) < MAX_SUBSCRIPTIONS)
  }

  lemma TrimSize(info: Info, rooms: set<Ulid>, workspaces: set<Ulid>)
    ensures Size(Trim(info, rooms, workspaces)) <= Size(info)
  {
    var kept := info.rooms - rooms;
    SubsetSize(kept.Keys, info.rooms.Keys);
    SubsetSize(info.workspaces - workspaces, info.workspaces);
  }

  lemma DropSize(info: Info, t: Topic)
    ensures Size(Drop(info, t)) <= Size(info)
  {
    match t
    case RoomTopic(r) =>
      TrimSize(info, {r}, {});
      assert info.workspaces - {} == info.workspaces;
    case WorkspaceTopic(w) =>
      TrimSize(info, {}, {w});
      assert info.rooms - {} == info.rooms;
  }

  lemma AddSize(info: Info, t: Topic, workspace: Ulid)
    ensures Size(Add(info, t, workspace)) <= Size(info) + 1
  {
    match t
    case RoomTopic(r) =>
      assert info.rooms[r := workspace].Keys == info.rooms.Keys + {r};
    case WorkspaceTopic(w) =>
  }

  /** Connections only lost subscriptions. */
  ghost predicate NoLarger(s: State, n: State) {
    forall c :: c in n.conns ==> c in s.conns && Size(n.conns[c]) <= Size(s.conns[c])
  }

  lemma ShrinkingSizes(s: State, step: Step, n: State)
    requires Next(s, step, n) && !step.RegisterEnd? && !step.SubscribeEnd?
    ensures NoLarger(s, n)
  {
    forall c | c in n.conns ensures c in s.conns && Size(n.conns[c]) <= Size(s.conns[c]) {
      match step
      case Unsubscribe(x, t) => DropSize(s.conns[x], t);
      case RevalidateEnd(o) =>
        TrimSize(s.conns[c], s.ops[o].rooms - s.ops[o].allowedRooms, s.ops[o].workspaces - s.ops[o].allowedWorkspaces);
      case CloseRooms(rooms) => TrimSize(s.conns[c], rooms, {});
      case _ =>
    }
  }

  /** Subscribing operations are old ones, moved on, but for the one a step begins. */
  lemma SubscribingBefore(s: State, step: Step, n: State, o: Ulid)
    requires Next(s, step, n) && o in n.ops && IsSubscribing(n.ops[o]) && !(step.SubscribeBegin? && step.o == o)
    ensures o in s.ops && IsSubscribing(s.ops[o]) && s.ops[o].c == n.ops[o].c
  {
  }

  ghost predicate OneEach(s: State) {
    forall o, p :: o in s.ops && p in s.ops && IsSubscribing(s.ops[o]) && IsSubscribing(s.ops[p]) && s.ops[o].c == s.ops[p].c ==> o == p
  }

  lemma StepKeepsOneEach(s: State, step: Step, n: State)
    requires Next(s, step, n) && OneEach(s)
    requires step.SubscribeBegin? ==> Idle(s, step.c)
    ensures OneEach(n)
  {
    forall o, p | o in n.ops && p in n.ops && IsSubscribing(n.ops[o]) && IsSubscribing(n.ops[p]) && n.ops[o].c == n.ops[p].c ensures o == p {
      if !(step.SubscribeBegin? && step.o == o) { SubscribingBefore(s, step, n, o); }
      if !(step.SubscribeBegin? && step.o == p) { SubscribingBefore(s, step, n, p); }
    }
  }

  /** What a step makes of the size of one connection. */
  lemma SizeAfter(s: State, step: Step, n: State, c: Ulid)
    requires Next(s, step, n) && c in n.conns
    ensures c in s.conns ==> Size(n.conns[c]) <= Size(s.conns[c]) + if step.SubscribeEnd? && s.ops[step.o].c == c then 1 else 0
    ensures c !in s.conns ==> Size(n.conns[c]) == 0 && step.RegisterEnd?
  {
    if step.SubscribeEnd? {
      var op := s.ops[step.o];
      if op.c == c && c in s.conns { AddSize(s.conns[c], op.t, op.workspace); }
    } else if !step.RegisterEnd? {
      ShrinkingSizes(s, step, n);
    }
  }

  lemma StaysRoomy(s: State, step: Step, n: State)
    requires Next(s, step, n) && Capped(s)
    ensures forall o :: o in n.ops && IsSubscribing(n.ops[o]) && n.ops[o].c in n.conns ==> Size(n.conns[n.ops[o].c]) < MAX_SUBSCRIPTIONS
  {
    forall o | o in n.ops && IsSubscribing(n.ops[o]) && n.ops[o].c in n.conns ensures Size(n.conns[n.ops[o].c]) < MAX_SUBSCRIPTIONS {
      RoomForOneMore(s, step, n, o);
    }
  }

  lemma RoomForOneMore(s: State, step: Step, n: State, o: Ulid)
    requires Next(s, step, n) && OneEach(s) && o in n.ops && IsSubscribing(n.ops[o]) && n.ops[o].c in n.conns
    requires forall p :: p in s.ops && IsSubscribing(s.ops[p]) && s.ops[p].c in s.conns ==> Size(s.conns[s.ops[p].c]) < MAX_SUBSCRIPTIONS
    ensures Size(n.conns[n.ops[o].c]) < MAX_SUBSCRIPTIONS
  {
    SizeAfter(s, step, n, n.ops[o].c);
    if !(step.SubscribeBegin? && step.o == o) {
      SubscribingBefore(s, step, n, o);
      if step.SubscribeEnd? { assert step.o !in n.ops; }
    }
  }

  lemma StaysUnderCap(s: State, step: Step, n: State)
    requires Next(s, step, n) && Capped(s)
    ensures forall c :: c in n.conns ==> Size(n.conns[c]) <= MAX_SUBSCRIPTIONS
  {
    forall c | c in n.conns ensures Size(n.conns[c]) <= MAX_SUBSCRIPTIONS {
      SizeAfter(s, step, n, c);
      if step.SubscribeEnd? { assert IsSubscribing(s.ops[step.o]); }
    }
  }

  lemma StepKeepsCap(s: State, step: Step, n: State)
    requires Next(s, step, n) && Capped(s)
    requires step.SubscribeBegin? ==> Idle(s, step.c)
    ensures Capped(n)
  {
    StepKeepsOneEach(s, step, n);
    StaysUnderCap(s, step, n);
    StaysRoomy(s, step, n);
  }

  /** With one reader per connection no connection ever has more than the allowed number of subscriptions. */
  lemma {:induction false} NeverOverTheCap(states: seq<State>, steps: seq<Step>, i: nat, c: Ulid)
    requires IsRun(states, steps) && OneAtATime(states, steps) && i <= |steps|
    ensures Capped(states[i])
    ensures c in states[i].conns ==> |states[i].conns[c].rooms| + |states[i].conns[c].workspaces| <= 500
  {
    if i > 0 {
      NeverOverTheCap(states, steps, i - 1, c);
      assert StepAt(Next, states, steps, i - 1);
      assert steps[i - 1].SubscribeBegin? ==> Idle(states[i - 1], steps[i - 1].c);
      StepKeepsCap(states[i - 1], steps[i - 1], states[i]);
    }
  }
}
